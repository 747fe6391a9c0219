/** The parser's three symbol tables and the operations on them: `newLabel`, `newEqu`,
    `newDef` (simulator.js:1426-1476), `replaceRefs` (simulator.js:1478-1494) and the
    `hi8`/`lo8` byte selectors (simulator.js:1559-1567). JavaScript object keys are
    strings, so every table is keyed by the text of the name. */
module Symbols {
  import opened Base
  import opened Tokens

  /** `labels` (program or data addresses), `equs` (`.equ`/`.set` values) and `defs`
      (register numbers). */
  datatype Tables = Tables(labels: map<string, int>, equs: map<string, Value>, defs: map<string, int>)

  const Empty := Tables(map[], map[], map[])

  predicate Defined(t: Tables, name: string) {
    name in t.labels || name in t.equs || name in t.defs
  }

  /** `newLabel`: a label may not reuse any name already defined. (The source's further
      check, that the label's old value is a mnemonic, is reached only when there is no old
      value, so it never fails.) */
  function NewLabel(t: Tables, name: string, value: int, line: int): (r: Result<Tables>)
    ensures r.Err? <==> Defined(t, name)
    ensures r.Err? ==> r.error.line == line
    ensures r.Ok? ==> r.value.labels == t.labels[name := value]
                      && r.value.equs == t.equs && r.value.defs == t.defs
  {
    if name in t.labels then Err(Error(DuplicateLabel, line))
    else if name in t.equs then Err(Error(LabelIsEqu, line))
    else if name in t.defs then Err(Error(LabelIsDef, line))
    else Ok(t.(labels := t.labels[name := value]))
  }

  /** `newEqu`: an equ may not reuse a label or a def, but may overwrite an equ. */
  function NewEqu(t: Tables, name: string, value: Value, line: int): (r: Result<Tables>)
    ensures r.Err? <==> name in t.labels || name in t.defs
    ensures r.Err? ==> r.error.line == line
    ensures r.Ok? ==> r.value.equs == t.equs[name := value]
                      && r.value.labels == t.labels && r.value.defs == t.defs
  {
    if name in t.labels then Err(Error(EquIsLabel, line))
    else if name in t.defs then Err(Error(EquIsDef, line))
    else Ok(t.(equs := t.equs[name := value]))
  }

  /** `newDef`: a def may not reuse a label or an equ, but may overwrite a def. */
  function NewDef(t: Tables, name: string, value: int, line: int): (r: Result<Tables>)
    ensures r.Err? <==> name in t.labels || name in t.equs
    ensures r.Err? ==> r.error == Error(DefRedefinition, line)
    ensures r.Ok? ==> r.value.defs == t.defs[name := value]
                      && r.value.labels == t.labels && r.value.equs == t.equs
  {
    if name in t.labels || name in t.equs then Err(Error(DefRedefinition, line))
    else Ok(t.(defs := t.defs[name := value]))
  }

  /** No name is in two tables at once. */
  predicate Disjoint(t: Tables) {
    && (forall n :: n in t.labels ==> n !in t.equs && n !in t.defs)
    && (forall n :: n in t.equs ==> n !in t.defs)
  }

  /** Every successful definition keeps the tables disjoint. */
  lemma DefinitionsKeepDisjoint(t: Tables, name: string, k: int, v: Value, line: int)
    requires Disjoint(t)
    ensures NewLabel(t, name, k, line).Ok? ==> Disjoint(NewLabel(t, name, k, line).value)
    ensures NewEqu(t, name, v, line).Ok? ==> Disjoint(NewEqu(t, name, v, line).value)
    ensures NewDef(t, name, k, line).Ok? ==> Disjoint(NewDef(t, name, k, line).value)
  {
  }

  /** Once a name is a label, no later definition of it in any table succeeds. */
  lemma LabelIsFinal(t: Tables, name: string, k: int, k2: int, v: Value, line: int, line2: int)
    requires NewLabel(t, name, k, line).Ok?
    ensures var u := NewLabel(t, name, k, line).value;
            NewLabel(u, name, k2, line2).Err? && NewEqu(u, name, v, line2).Err?
            && NewDef(u, name, k2, line2).Err?
  {
  }

  /** Redefining an equ replaces its value; redefining a def replaces its register. */
  lemma RedefinitionReplaces(t: Tables, name: string, v1: Value, v2: Value, r1: int, r2: int)
    ensures NewEqu(t, name, v1, 0).Ok? ==>
              var u := NewEqu(t, name, v1, 0).value;
              NewEqu(u, name, v2, 0).Ok? && NewEqu(u, name, v2, 0).value.equs[name] == v2
    ensures NewDef(t, name, r1, 0).Ok? ==>
              var u := NewDef(t, name, r1, 0).value;
              NewDef(u, name, r2, 0).Ok? && NewDef(u, name, r2, 0).value.defs[name] == r2
  {
  }

  // ---------------------------------------------------------------------------
  // replaceRefs

  /** One reference resolved the way `replaceRefs` does it: a label first, then an equ;
      the token becomes an `INT`. Defs are not consulted. */
  function ReplaceRef(t: Tables, tok: Token, line: int): Result<Token> {
    if tok.kind != REF then Ok(tok)
    else
      var key := ValueText(tok.value);
      if key in t.labels then Ok(Token(INT, VInt(t.labels[key])))
      else if key in t.equs then Ok(Token(INT, t.equs[key]))
      else Err(Error(InvalidReference, line))
  }

  /** `replaceRefs` over a line, stopping at the first unknown reference. */
  function ReplaceRefs(t: Tables, toks: seq<Token>, line: int): (r: Result<seq<Token>>)
    ensures r.Ok? ==> |r.value| == |toks|
    decreases |toks|
  {
    if toks == [] then Ok([])
    else match ReplaceRef(t, toks[0], line)
      case Err(e) => Err(e)
      case Ok(u) =>
        match ReplaceRefs(t, toks[1..], line)
        case Err(e) => Err(e)
        case Ok(rest) => Ok([u] + rest)
  }

  /** `replaceRefs` fails exactly on a reference that is neither a label nor an equ; otherwise
      it keeps every other token and turns each reference into the `INT` its name stands for. */
  lemma {:induction false} ReplaceRefsMeaning(t: Tables, toks: seq<Token>, line: int)
    ensures ReplaceRefs(t, toks, line).Err? <==>
              exists i :: 0 <= i < |toks| && toks[i].kind == REF && ValueText(toks[i].value) !in t.labels
                                         && ValueText(toks[i].value) !in t.equs
    ensures ReplaceRefs(t, toks, line).Ok? ==>
              forall i :: 0 <= i < |toks| ==> ReplaceRefs(t, toks, line).value[i] == ReplaceRef(t, toks[i], line).value
    ensures ReplaceRefs(t, toks, line).Ok? ==>
              forall i :: 0 <= i < |toks| ==> ReplaceRefs(t, toks, line).value[i].kind != REF
    decreases |toks|
  {
    if toks != [] {
      ReplaceRefsMeaning(t, toks[1..], line);
      if ReplaceRefs(t, toks, line).Ok? {
        var r := ReplaceRefs(t, toks, line).value;
        forall i | 0 <= i < |toks|
          ensures r[i] == ReplaceRef(t, toks[i], line).value && r[i].kind != REF
        {
          if i > 0 { assert r[i] == ReplaceRefs(t, toks[1..], line).value[i - 1] && toks[i] == toks[1..][i - 1]; }
        }
      } else if ReplaceRef(t, toks[0], line).Ok? {
        var i :| 0 <= i < |toks[1..]| && toks[1..][i].kind == REF && ValueText(toks[1..][i].value) !in t.labels
                 && ValueText(toks[1..][i].value) !in t.equs;
        assert toks[i + 1] == toks[1..][i];
      }
      if ReplaceRefs(t, toks, line).Ok? {
        forall i | 0 <= i < |toks| && toks[i].kind == REF
          ensures ValueText(toks[i].value) in t.labels || ValueText(toks[i].value) in t.equs
        {
          if i > 0 { assert toks[i] == toks[1..][i - 1]; }
        }
      }
    }
  }

  // ---------------------------------------------------------------------------
  // hi8 / lo8

  /** `val & 0xff`: the low byte of the value's 32-bit reading (`NaN` reads as 0). */
  function Lo8(v: Value): Byte {
    if v.VInt? then ToInt32(v.n) % 256 else 0
  }

  /** `(val >> 8) & 0xff`: the second byte of the value's 32-bit reading. */
  function Hi8(v: Value): Byte {
    if v.VInt? then (ToInt32(v.n) / 256) % 256 else 0
  }

  /** Both selectors give a byte, and for an integer they are the two low bytes of the
      integer itself: the 32-bit reading changes nothing below bit 32. */
  lemma ByteSelectors(n: int)
    ensures 0 <= Lo8(VInt(n)) < 256 && 0 <= Hi8(VInt(n)) < 256
    ensures Lo8(VInt(n)) == n % 256
    ensures Hi8(VInt(n)) == (n / 256) % 256
  {
    var m := ToInt32(n);
    var k := (m - n) / 0x1_0000_0000;
    assert m == n + k * 0x1_0000_0000;
    assert m % 256 == n % 256 by {
      assert k * 0x1_0000_0000 == (k * 0x100_0000) * 256;
      ShiftBy256(n, k * 0x100_0000);
    }
    assert (m / 256) % 256 == (n / 256) % 256 by {
      assert m / 256 == n / 256 + k * 0x100_0000 by {
        ShiftBy256(n, k * 0x100_0000);
      }
      assert k * 0x100_0000 == (k * 0x1_0000) * 256;
      ShiftBy256(n / 256, k * 0x1_0000);
    }
  }

  /** A 16-bit value is its high byte times 256 plus its low byte. */
  lemma SixteenBitSplit(n: int)
    requires 0 <= n < 0x1_0000
    ensures Hi8(VInt(n)) * 256 + Lo8(VInt(n)) == n
  {
    ByteSelectors(n);
  }

  /** Adding a multiple of 256 changes neither the remainder nor, beyond the multiple, the
      quotient of a division by 256. */
  lemma ShiftBy256(a: int, k: int)
    ensures (a + k * 256) % 256 == a % 256
    ensures (a + k * 256) / 256 == a / 256 + k
  {
    var q, r := a / 256, a % 256;
    assert a == q * 256 + r && 0 <= r < 256;
    assert a + k * 256 == (q + k) * 256 + r;
    Quotient(a + k * 256, q + k, r);
  }

  lemma Quotient(x: int, q: int, r: int)
    requires x == q * 256 + r && 0 <= r < 256
    ensures x / 256 == q && x % 256 == r
  {
  }
}
