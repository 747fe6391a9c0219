/** The last two passes of `Parser.parse` over program memory (simulator.js:1209-1423):
    `hi8(...)`/`lo8(...)` replaced by the byte they select, references resolved according to
    the instruction, expressions evaluated, and then every line checked against the operand
    table and turned into an instruction. */
module Resolve {
  import opened Base
  import opened Tokens
  import opened Isa
  import opened Symbols
  import opened Expr
  import opened Operand
  import opened Encoder
  import opened TextSection

  // ---------------------------------------------------------------------------
  // the closing bracket of hi8( / lo8(

  function Step(k: Kind): int {
    if k == LPAR then 1 else if k == RPAR then -1 else 0
  }

  /** Opening minus closing brackets in a run of tokens. */
  function Depth(t: seq<Token>): int
    decreases |t|
  {
    if t == [] then 0 else Depth(t[..|t| - 1]) + Step(t[|t| - 1].kind)
  }

  /** The bracket loop: from token `tok` with `level` brackets open, stop at the end of the
      line or as soon as no bracket is open; the position reached and the level left. */
  function CloseBracket(line: seq<Token>, tok: nat, level: int): (r: (nat, int))
    requires tok <= |line|
    ensures tok <= r.0 <= |line| && (r.0 == tok ==> r.1 == level)
    decreases |line| - tok
  {
    if tok == |line| || level == 0 then (tok, level)
    else CloseBracket(line, tok + 1, level + Step(line[tok].kind))
  }

  lemma DepthSnoc(line: seq<Token>, s: nat, j: nat)
    requires s <= j < |line|
    ensures Depth(line[s..j + 1]) == Depth(line[s..j]) + Step(line[j].kind)
  {
    assert line[s..j + 1][..j - s] == line[s..j];
  }

  lemma {:induction false} CloseBracketScan(line: seq<Token>, start: nat, tok: nat, level: int)
    requires start <= tok <= |line| && level >= 0 && level == 1 + Depth(line[start..tok])
    requires forall j :: start <= j < tok ==> 1 + Depth(line[start..j]) > 0
    ensures var r := CloseBracket(line, tok, level);
            && r.1 >= 0 && r.1 == 1 + Depth(line[start..r.0])
            && (forall j :: start <= j < r.0 ==> 1 + Depth(line[start..j]) > 0)
            && (r.1 == 0 || r.0 == |line|)
    decreases |line| - tok
  {
    if tok < |line| && level != 0 {
      DepthSnoc(line, start, tok);
      CloseBracketScan(line, start, tok + 1, level + Step(line[tok].kind));
    }
  }

  /** The bracket loop started just after `hi8(` finds the bracket that closes it: the
      brackets strictly between are balanced and never close more than they open. When it
      finds none, no prefix of the rest of the line closes the bracket. */
  lemma MatchingBracket(line: seq<Token>, s: nat)
    requires s <= |line|
    ensures var (t, l) := CloseBracket(line, s, 1);
            && (l == 0 ==> s < t && line[t - 1].kind == RPAR && Depth(line[s..t - 1]) == 0
                           && forall j :: s <= j < t ==> Depth(line[s..j]) >= 0)
            && (l != 0 ==> t == |line| && forall j :: s <= j <= |line| ==> Depth(line[s..j]) >= 0)
  {
    assert line[s..s] == [];
    CloseBracketScan(line, s, s, 1);
    var (t, l) := CloseBracket(line, s, 1);
    if l == 0 {
      DepthSnoc(line, s, t - 1);
    }
  }

  // ---------------------------------------------------------------------------
  // hi8 / lo8

  /** One `hi8(...)` or `lo8(...)` at token `k`, replaced by an `INT` holding the byte it
      selects. The argument's references are replaced (an unknown one is an error without a
      line number, as in the source) and its expression evaluated; only the first token of
      the result is kept, and a value above 32 bits is an error. */
  function SelectAt(t: Tables, line: seq<Token>, k: nat, number: int): (r: Result<seq<Token>>)
    requires k < |line| && (line[k].kind == HI8 || line[k].kind == LO8)
    ensures r.Ok? ==> k < |r.value| <= |line| - 3 && r.value[..k] == line[..k] && r.value[k].kind == INT
    ensures r.Ok? ==> exists close :: k + 4 <= close <= |line| && r.value[k + 1..] == line[close..]
  {
    if |line| <= k + 3 then Err(Error(HiLoTooFewTokens, number))
    else if line[k + 1].kind != LPAR then Err(Error(HiLoBadBracket, number))
    else
      var (close, level) := CloseBracket(line, k + 2, 1);
      if level != 0 then Err(Error(MissingRpar, number))
      else match ReplaceRefs(t, line[k + 2..close - 1], 0)
        case Err(e) => Err(e)
        case Ok(inner) =>
          match Collapse(inner, number)
          case Err(e) => Err(e)
          case Ok(ev) =>
            if ev == [] then Err(Error(HiLoEmpty, number))
            else if ev[0].value.VInt? && ev[0].value.n > 0xffff_ffff then Err(Error(BigNum, number))
            else
              var byte := if line[k].kind == HI8 then Hi8(ev[0].value) else Lo8(ev[0].value);
              var line' := line[..k] + [Token(INT, VInt(byte))] + line[close..];
              assert line'[k + 1..] == line[close..];
              Ok(line')
  }

  /** The `hi8`/`lo8` loop from token `k` on: every function token, its bracket and its
      argument become one `INT`. */
  function HiLo(t: Tables, line: seq<Token>, k: nat, number: int): (r: Result<seq<Token>>)
    requires k <= |line|
    ensures r.Ok? ==> k <= |r.value| && r.value[..k] == line[..k]
    ensures r.Ok? ==> forall j :: k <= j < |r.value| ==> r.value[j].kind != HI8 && r.value[j].kind != LO8
    decreases |line| - k
  {
    if k == |line| then Ok(line)
    else if line[k].kind != HI8 && line[k].kind != LO8 then
      var r := HiLo(t, line, k + 1, number);
      KeptPrefix(line, line, r, k);
      r
    else match SelectAt(t, line, k, number)
      case Err(e) => Err(e)
      case Ok(line') =>
        var r := HiLo(t, line', k + 1, number);
        KeptPrefix(line, line', r, k);
        r
  }

  /** A result that keeps the first `k + 1` tokens of `line'`, which keeps the first `k`
      of `line`, keeps those `k` of `line` and token `k` of `line'`. */
  lemma KeptPrefix(line: seq<Token>, line': seq<Token>, r: Result<seq<Token>>, k: nat)
    requires k < |line'| && k <= |line| && line'[..k] == line[..k]
    requires r.Ok? ==> k + 1 <= |r.value| && r.value[..k + 1] == line'[..k + 1]
    ensures r.Ok? ==> r.value[..k] == line[..k] && r.value[k] == line'[k]
  {
    if r.Ok? {
      assert r.value[..k] == r.value[..k + 1][..k] == line'[..k + 1][..k];
      assert r.value[k] == r.value[..k + 1][k];
    }
  }

  /** A line without `hi8`/`lo8` from `k` on is left as it is. */
  lemma {:induction false} HiLoNone(t: Tables, line: seq<Token>, k: nat, number: int)
    requires k <= |line| && forall j :: k <= j < |line| ==> line[j].kind != HI8 && line[j].kind != LO8
    ensures HiLo(t, line, k, number) == Ok(line)
    decreases |line| - k
  {
    if k < |line| {
      HiLoNone(t, line, k + 1, number);
    }
  }

  /** At a `hi8`/`lo8` token that is replaced, the loop goes on after the new `INT`. */
  lemma HiLoSelects(t: Tables, line: seq<Token>, k: nat, number: int, line': seq<Token>)
    requires k < |line| && (line[k].kind == HI8 || line[k].kind == LO8)
    requires SelectAt(t, line, k, number) == Ok(line')
    ensures HiLo(t, line, k, number) == HiLo(t, line', k + 1, number)
  {
  }

  lemma HiLoSkips(t: Tables, line: seq<Token>, k: nat, number: int)
    requires k < |line| && line[k].kind != HI8 && line[k].kind != LO8
    ensures HiLo(t, line, k, number) == HiLo(t, line, k + 1, number)
  {
  }

  lemma SingleArgument(t: Tables, arg: Token, n: int, number: int)
    requires ReplaceRef(t, arg, 0) == Ok(Token(INT, VInt(n)))
    ensures ReplaceRefs(t, [arg], 0) == Ok([Token(INT, VInt(n))])
    ensures Collapse([Token(INT, VInt(n))], number) == Ok([Token(INT, VInt(n))])
  {
    var one := [Token(INT, VInt(n))];
    assert [arg][1..] == [] && one + [] == one;
    LoneNumber(n, number);
    assert RunLength(one) == 1 by { assert one[1..] == []; }
    assert one[..1] == one && one[1..] == [];
  }

  /** One `hi8(x)`/`lo8(x)` with a single label, equ or literal `x` of at most 32 bits is
      replaced by the second or the first byte of its value. */
  lemma SelectOne(t: Tables, pre: seq<Token>, f: Token, arg: Token, post: seq<Token>, n: int, number: int)
    requires f.kind == HI8 || f.kind == LO8
    requires ReplaceRef(t, arg, 0) == Ok(Token(INT, VInt(n))) && 0 <= n <= 0xffff_ffff
    ensures SelectAt(t, pre + [f, Token(LPAR, VStr("(")), arg, Token(RPAR, VStr(")"))] + post, |pre|, number) ==
            Ok(pre + [Token(INT, VInt(if f.kind == HI8 then (n / 256) % 256 else n % 256))] + post)
  {
    var k := |pre|;
    var line := pre + [f, Token(LPAR, VStr("(")), arg, Token(RPAR, VStr(")"))] + post;
    assert line[k] == f && line[k + 1].kind == LPAR && line[k + 2] == arg && line[k + 3].kind == RPAR;
    assert arg.kind == INT || arg.kind == REF by {
      if arg.kind != REF { assert ReplaceRef(t, arg, 0) == Ok(arg); }
    }
    SingleBracket(line, k + 2);
    assert line[k + 2..k + 3] == [arg];
    SingleArgument(t, arg, n, number);
    ByteSelectors(n);
    assert line[..k] == pre && line[k + 4..] == post;
  }

  /** One label or number and then `)` closes the bracket opened just before them. */
  lemma SingleBracket(line: seq<Token>, s: nat)
    requires s + 2 <= |line| && (line[s].kind == INT || line[s].kind == REF) && line[s + 1].kind == RPAR
    ensures CloseBracket(line, s, 1) == (s + 2, 0)
  {
    assert CloseBracket(line, s, 1) == CloseBracket(line, s + 1, 1);
    assert CloseBracket(line, s + 1, 1) == CloseBracket(line, s + 2, 0);
  }

  /** A replaced `hi8`/`lo8` with no other after it is the last the loop replaces. */
  lemma HiLoLast(t: Tables, line: seq<Token>, k: nat, number: int, line': seq<Token>)
    requires k < |line| && (line[k].kind == HI8 || line[k].kind == LO8)
    requires SelectAt(t, line, k, number) == Ok(line') && k + 1 <= |line'|
    requires forall j :: k + 1 <= j < |line'| ==> line'[j].kind != HI8 && line'[j].kind != LO8
    ensures HiLo(t, line, k, number) == Ok(line')
  {
    HiLoSelects(t, line, k, number, line');
    HiLoNone(t, line', k + 1, number);
  }

  /** `hi8(x)` and `lo8(x)` for a single label, equ or literal `x` of at most 32 bits become
      the second and the first byte of its value. */
  lemma SelectByte(t: Tables, pre: seq<Token>, f: Token, arg: Token, post: seq<Token>, n: int, number: int)
    requires f.kind == HI8 || f.kind == LO8
    requires ReplaceRef(t, arg, 0) == Ok(Token(INT, VInt(n))) && 0 <= n <= 0xffff_ffff
    requires forall j :: 0 <= j < |post| ==> post[j].kind != HI8 && post[j].kind != LO8
    ensures HiLo(t, pre + [f, Token(LPAR, VStr("(")), arg, Token(RPAR, VStr(")"))] + post, |pre|, number) ==
            Ok(pre + [Token(INT, VInt(if f.kind == HI8 then (n / 256) % 256 else n % 256))] + post)
  {
    var k := |pre|;
    var line := pre + [f, Token(LPAR, VStr("(")), arg, Token(RPAR, VStr(")"))] + post;
    var line' := pre + [Token(INT, VInt(if f.kind == HI8 then (n / 256) % 256 else n % 256))] + post;
    SelectOne(t, pre, f, arg, post, n, number);
    assert line[k] == f;
    NoneAfter(pre, Token(INT, VInt(if f.kind == HI8 then (n / 256) % 256 else n % 256)), post);
    HiLoLast(t, line, k, number, line');
  }

  /** No `hi8`/`lo8` after the new token when there is none in what follows it. */
  lemma NoneAfter(pre: seq<Token>, x: Token, post: seq<Token>)
    requires forall j :: 0 <= j < |post| ==> post[j].kind != HI8 && post[j].kind != LO8
    ensures var u := pre + [x] + post;
            forall j :: |pre| + 1 <= j < |u| ==> u[j].kind != HI8 && u[j].kind != LO8
  {
    var u := pre + [x] + post;
    forall j | |pre| + 1 <= j < |u| ensures u[j].kind != HI8 && u[j].kind != LO8 {
      assert u[j] == post[j - |pre| - 1];
    }
  }

  // ---------------------------------------------------------------------------
  // references

  /** One reference of an instruction line resolved as the source's reference loop does:
      for `CALL`, `JMP`, `IJMP` and `ICALL` (unless it names a library function) the label's
      address; for the relative instructions the label's address less one less the line's
      own index; otherwise a label, then a def (which makes the token a register), then an
      equ; an unknown library function name is left without a value, any other unknown name
      is an error. A missing label leaves `undefined` after an absolute jump, and `NaN`
      after a relative one, whose offset arithmetic turns `undefined` into `NaN`. */
  function ResolveRef(t: Tables, m: Option<Mnemonic>, tok: Token, index: int, number: int): (r: Result<Token>)
    ensures r.Ok? && tok.kind != REF ==> r.value == tok
    ensures r.Ok? ==> r.value.kind != REF
    ensures r.Err? <==> tok.kind == REF && !(m.Some? && (IsAbsoluteJump(m.value) || IsRelative(m.value)))
                        && !Defined(t, ValueText(tok.value)) && ValueText(tok.value) !in Functions
    ensures r.Err? ==> r.error == Error(BadReference, number)
    ensures (tok.kind == REF && m.Some? && IsAbsoluteJump(m.value) && ValueText(tok.value) !in Functions
             && ValueText(tok.value) !in t.labels) ==> r == Ok(Token(INT, VUndef))
    ensures (tok.kind == REF && m.Some? && IsRelative(m.value) && !IsAbsoluteJump(m.value)
             && ValueText(tok.value) !in t.labels) ==> r == Ok(Token(INT, VNaN))
  {
    if tok.kind != REF then Ok(tok)
    else
      var key := ValueText(tok.value);
      if m.Some? && IsAbsoluteJump(m.value) && key !in Functions then
        Ok(Token(INT, if key in t.labels then VInt(t.labels[key]) else VUndef))
      else if m.Some? && IsRelative(m.value) then
        Ok(Token(INT, if key in t.labels then VInt(t.labels[key] - 1 - index) else VNaN))
      else if key in t.labels then Ok(Token(INT, VInt(t.labels[key])))
      else if key in t.defs then Ok(Token(REG, VInt(t.defs[key])))
      else if key in t.equs then Ok(Token(INT, t.equs[key]))
      else if key !in Functions then Err(Error(BadReference, number))
      else Ok(Token(INT, VUndef))
  }

  /** The reference loop over a line, stopping at the first bad reference. */
  function ResolveRefs(t: Tables, m: Option<Mnemonic>, toks: seq<Token>, index: int, number: int): (r: Result<seq<Token>>)
    ensures r.Ok? ==> |r.value| == |toks|
    ensures r.Ok? ==> forall i :: 0 <= i < |toks| && toks[i].kind != REF ==> r.value[i] == toks[i]
    decreases |toks|
  {
    if toks == [] then Ok([])
    else match ResolveRef(t, m, toks[0], index, number)
      case Err(e) => Err(e)
      case Ok(u) =>
        match ResolveRefs(t, m, toks[1..], index, number)
        case Err(e) => Err(e)
        case Ok(rest) => Ok([u] + rest)
  }

  /** The loop resolves every token as `ResolveRef` does, and fails exactly when one of them
      does, with the first failure. */
  lemma {:induction false} ResolveRefsMeaning(t: Tables, m: Option<Mnemonic>, toks: seq<Token>, index: int, number: int)
    ensures var r := ResolveRefs(t, m, toks, index, number);
            r.Ok? ==> forall i :: 0 <= i < |toks| ==> Ok(r.value[i]) == ResolveRef(t, m, toks[i], index, number)
    ensures var r := ResolveRefs(t, m, toks, index, number);
            r.Err? ==> exists i :: 0 <= i < |toks| && ResolveRef(t, m, toks[i], index, number) == Err(r.error)
                                && forall j :: 0 <= j < i ==> ResolveRef(t, m, toks[j], index, number).Ok?
    decreases |toks|
  {
    if toks != [] {
      ResolveRefsMeaning(t, m, toks[1..], index, number);
      var r := ResolveRefs(t, m, toks, index, number);
      if ResolveRef(t, m, toks[0], index, number).Ok? {
        var rest := ResolveRefs(t, m, toks[1..], index, number);
        if r.Ok? {
          forall i | 0 <= i < |toks| ensures Ok(r.value[i]) == ResolveRef(t, m, toks[i], index, number) {
            if i > 0 { assert r.value[i] == rest.value[i - 1] && toks[i] == toks[1..][i - 1]; }
          }
        } else {
          var i :| 0 <= i < |toks[1..]| && ResolveRef(t, m, toks[1..][i], index, number) == Err(rest.error)
                   && forall j :: 0 <= j < i ==> ResolveRef(t, m, toks[1..][j], index, number).Ok?;
          assert toks[i + 1] == toks[1..][i];
          forall j | 0 <= j < i + 1 ensures ResolveRef(t, m, toks[j], index, number).Ok? {
            if j > 0 { assert toks[j] == toks[1..][j - 1]; }
          }
        }
      }
    }
  }

  /** A relative branch to a label becomes the distance from the word after the branch to
      the label; an absolute jump becomes the label's address. */
  lemma BranchTargets(t: Tables, m: Mnemonic, name: string, index: int, number: int)
    requires name in t.labels && name !in Functions
    ensures IsRelative(m) ==>
              ResolveRef(t, Some(m), Token(REF, VStr(name)), index, number) == Ok(Token(INT, VInt(t.labels[name] - 1 - index)))
    ensures IsAbsoluteJump(m) ==>
              ResolveRef(t, Some(m), Token(REF, VStr(name)), index, number) == Ok(Token(INT, VInt(t.labels[name])))
  {
  }

  /** A def names a register wherever an instruction other than a jump uses it, unless a
      label of the same name hides it. */
  lemma DefIsRegister(t: Tables, m: Mnemonic, name: string, index: int, number: int)
    requires name in t.defs && name !in t.labels && !IsAbsoluteJump(m) && !IsRelative(m)
    ensures ResolveRef(t, Some(m), Token(REF, VStr(name)), index, number) == Ok(Token(REG, VInt(t.defs[name])))
  {
  }

  /** One instruction line: `hi8`/`lo8`, then references (by the mnemonic of the line's
      first token), then expressions. */
  function ResolveLine(t: Tables, line: seq<Token>, index: int, number: int): (r: Result<seq<Token>>)
    requires line != [] && line[0].kind == INST
    ensures r.Ok? ==> r.value != [] && r.value[0] == line[0]
  {
    match HiLo(t, line, 0, number)
    case Err(e) => Err(e)
    case Ok(h) =>
      HiLoSkips(t, line, 0, number);
      assert h[..1] == line[..1];
      RefsThenMath(t, h, index, number)
  }

  /** The reference loop, by the mnemonic of the line's first token, then the expressions. */
  function RefsThenMath(t: Tables, h: seq<Token>, index: int, number: int): (r: Result<seq<Token>>)
    requires h != [] && h[0].kind == INST
    ensures r.Ok? ==> r.value != [] && r.value[0] == h[0]
  {
    var m := FromName(ValueText(h[0].value));
    match ResolveRefs(t, m, h, index, number)
    case Err(e) => Err(e)
    case Ok(u) =>
      assert u[0] == h[0];
      CollapseKeepsHead(u, number);
      Collapse(u, number)
  }

  lemma CollapseKeepsHead(t: seq<Token>, number: int)
    requires t != [] && t[0].kind == INST
    ensures Collapse(t, number).Ok? ==> Collapse(t, number).value != [] && Collapse(t, number).value[0] == t[0]
  {
    assert !IsMath(t[0].kind);
    assert Collapse(t, number) == Cons([t[0]], Collapse(t[1..], number));
  }

  // ---------------------------------------------------------------------------
  // the final pass

  /** An instruction as program memory holds it: the mnemonic's token, the mnemonic it names
      and the operand tokens. The opcode template the source's constructor stores is a
      function of the mnemonic and the operands. */
  datatype Instr = Instr(inst: Token, m: Mnemonic, args: seq<Token>) {
    function Opcode(): Option<string> { MakeOpcode(m, args) }
  }

  /** The operands of a resolved line: everything after the mnemonic, with the comma at
      index 2 taken out. */
  function Operands(line: seq<Token>): seq<Token>
    requires line != []
  {
    if |line| > 2 then [line[1]] + line[3..] else line[1..]
  }

  /** Every operand is accepted by the operand table's entry at its position. */
  predicate OperandsLegal(m: Mnemonic, args: seq<Token>, number: int) {
    match OperandTable(m)
    case None => args == []
    case Some(e) => |e| == |args| && forall i :: 0 <= i < |args| ==> IsLegalToken(e[i], args[i], number) == Pass
  }

  /** The final check of one line: the comma, the mnemonic, `LPM` without operands, the
      operand count, and each operand against the table. */
  function FinishLine(line: seq<Token>, number: int): (r: Result<Instr>)
    requires line != []
    ensures |line| > 2 && line[2].kind != COMMA ==> r == Err(Error(ExpectingComma, number))
    ensures r.Ok? ==> r.value.inst == line[0] && line[0].value == VStr(Name(r.value.m)) && r.value.args == Operands(line)
    ensures r.Ok? ==> (r.value.m == LPM && r.value.args == []) || OperandsLegal(r.value.m, r.value.args, number)
    ensures r.Err? ==> r.error.line == number
    ensures (!(|line| > 2 && line[2].kind != COMMA) && line[0].value.VStr? && FromName(line[0].value.s).Some?
             && OperandsLegal(FromName(line[0].value.s).value, Operands(line), number)) ==> r.Ok?
  {
    if |line| > 2 && line[2].kind != COMMA then Err(Error(ExpectingComma, number))
    else
      var given := Operands(line);
      if !line[0].value.VStr? || FromName(line[0].value.s).None? then Err(Error(InvalidInstruction, number))
      else
        var m := FromName(line[0].value.s).value;
        if m == LPM && given == [] then Ok(Instr(line[0], m, given))
        else match OperandTable(m)
          case None =>
            if given != [] then Err(Error(WrongArgCount, number)) else Ok(Instr(line[0], m, given))
          case Some(e) =>
            if |given| != |e| then Err(Error(WrongArgCount, number))
            else match CheckOperands(e, given, number, 0)
              case Fail(err) => Err(err)
              case Pass => Ok(Instr(line[0], m, given))
  }

  /** Program memory's shape once it holds instructions: a two-word instruction is followed by
      exactly one empty slot and no other slot is empty. */
  predicate SlottedCode(code: seq<Option<Instr>>) {
    && (forall i :: 0 <= i < |code| && code[i].Some? && TwoWord(code[i].value.inst.value) ==>
          i + 1 < |code| && code[i + 1].None?)
    && (forall i :: 0 <= i < |code| && code[i].None? ==>
          0 < i && code[i - 1].Some? && TwoWord(code[i - 1].value.inst.value))
  }

  // ---------------------------------------------------------------------------
  // the two passes over program memory

  /** A pass over program memory from slot `i` on: every occupied slot's line goes through
      `f`, given its slot index and its source line number; continuation slots stay empty;
      the first failing line ends the pass with its error. */
  function EachSlot<T>(f: (seq<Token>, nat, int) --> Result<T>, pmem: seq<Option<seq<Token>>>, fileLines: seq<int>, i: nat): (r: Result<seq<Option<T>>>)
    requires |fileLines| == |pmem| && i <= |pmem|
    requires forall j :: i <= j < |pmem| && pmem[j].Some? ==> f.requires(pmem[j].value, j, fileLines[j])
    ensures r.Ok? ==> |r.value| == |pmem| - i
    decreases |pmem| - i
  {
    if i == |pmem| then Ok([])
    else
      var here := match pmem[i]
        case None => Ok(None)
        case Some(line) =>
          (match f(line, i, fileLines[i])
           case Err(e) => Err(e)
           case Ok(v) => Ok(Some(v)));
      match here
      case Err(e) => Err(e)
      case Ok(slot) =>
        match EachSlot(f, pmem, fileLines, i + 1)
        case Err(e) => Err(e)
        case Ok(rest) => Ok([slot] + rest)
  }

  /** What a pass computes, slot by slot: a continuation slot stays empty and an occupied one
      holds what `f` makes of its line; a failing pass fails with the error of the first
      line `f` rejects. */
  lemma {:induction false} EachSlotMeaning<T>(f: (seq<Token>, nat, int) --> Result<T>, pmem: seq<Option<seq<Token>>>, fileLines: seq<int>, i: nat)
    requires |fileLines| == |pmem| && i <= |pmem|
    requires forall j :: i <= j < |pmem| && pmem[j].Some? ==> f.requires(pmem[j].value, j, fileLines[j])
    ensures var r := EachSlot(f, pmem, fileLines, i);
            r.Ok? ==> forall j :: i <= j < |pmem| ==>
                        (pmem[j].None? <==> r.value[j - i].None?)
                        && (pmem[j].Some? ==> f(pmem[j].value, j, fileLines[j]) == Ok(r.value[j - i].value))
    ensures var r := EachSlot(f, pmem, fileLines, i);
            r.Err? ==> exists j :: i <= j < |pmem| && pmem[j].Some? && f(pmem[j].value, j, fileLines[j]) == Err(r.error)
                        && forall k :: i <= k < j && pmem[k].Some? ==> f(pmem[k].value, k, fileLines[k]).Ok?
    decreases |pmem| - i
  {
    if i < |pmem| {
      EachSlotMeaning(f, pmem, fileLines, i + 1);
      var r := EachSlot(f, pmem, fileLines, i);
      var rest := EachSlot(f, pmem, fileLines, i + 1);
      if r.Ok? {
        forall k | 1 <= k < |r.value|
          ensures r.value[k] == rest.value[k - 1]
        {
        }
      } else if pmem[i].None? || f(pmem[i].value, i, fileLines[i]).Ok? {
        var j :| i + 1 <= j < |pmem| && pmem[j].Some? && f(pmem[j].value, j, fileLines[j]) == Err(rest.error)
                 && forall k :: i + 1 <= k < j && pmem[k].Some? ==> f(pmem[k].value, k, fileLines[k]).Ok?;
        assert r.error == rest.error;
      }
    }
  }

  /** The pass fails with the error of the first line `f` rejects. */
  lemma EachSlotFirstError<T>(f: (seq<Token>, nat, int) --> Result<T>, pmem: seq<Option<seq<Token>>>, fileLines: seq<int>, i: nat)
    requires |fileLines| == |pmem|
    requires forall j :: 0 <= j < |pmem| && pmem[j].Some? ==> f.requires(pmem[j].value, j, fileLines[j])
    requires i < |pmem| && pmem[i].Some? && f(pmem[i].value, i, fileLines[i]).Err?
    requires forall k :: 0 <= k < i && pmem[k].Some? ==> f(pmem[k].value, k, fileLines[k]).Ok?
    ensures EachSlot(f, pmem, fileLines, 0) == Err(f(pmem[i].value, i, fileLines[i]).error)
  {
    EachSlotMeaning(f, pmem, fileLines, 0);
    var r := EachSlot(f, pmem, fileLines, 0);
    if r.Err? {
      var j :| 0 <= j < |pmem| && pmem[j].Some? && f(pmem[j].value, j, fileLines[j]) == Err(r.error)
               && forall k :: 0 <= k < j && pmem[k].Some? ==> f(pmem[k].value, k, fileLines[k]).Ok?;
      assert j == i;
    }
  }

  /** A pass in which no line fails succeeds with what `f` makes of every line. */
  lemma EachSlotSucceeds<T>(f: (seq<Token>, nat, int) --> Result<T>, pmem: seq<Option<seq<Token>>>, fileLines: seq<int>, done: seq<Option<T>>)
    requires |fileLines| == |pmem| && |done| == |pmem|
    requires forall j :: 0 <= j < |pmem| && pmem[j].Some? ==> f.requires(pmem[j].value, j, fileLines[j])
    requires forall j :: 0 <= j < |pmem| ==> (pmem[j].None? <==> done[j].None?)
    requires forall j :: 0 <= j < |pmem| && pmem[j].Some? ==> f(pmem[j].value, j, fileLines[j]) == Ok(done[j].value)
    ensures EachSlot(f, pmem, fileLines, 0) == Ok(done)
  {
    EachSlotMeaning(f, pmem, fileLines, 0);
    var r := EachSlot(f, pmem, fileLines, 0);
    assert r.value == done;
  }

  /** The resolution pass: each instruction line resolved with its own slot index and line
      number. */
  function ResolveFrom(t: Tables, pmem: seq<Option<seq<Token>>>, fileLines: seq<int>): (r: Result<seq<Option<seq<Token>>>>)
    requires Slotted(pmem) && |fileLines| == |pmem|
    ensures r.Ok? ==> |r.value| == |pmem|
  {
    EachSlot((line: seq<Token>, j: nat, n: int) requires line != [] && line[0].kind == INST => ResolveLine(t, line, j, n),
             pmem, fileLines, 0)
  }

  /** What the resolution pass computes, slot by slot: continuation slots stay empty and
      every instruction line is resolved with its own slot index and line number. */
  lemma ResolveSlots(t: Tables, pmem: seq<Option<seq<Token>>>, fileLines: seq<int>)
    requires Slotted(pmem) && |fileLines| == |pmem|
    ensures var r := ResolveFrom(t, pmem, fileLines);
            r.Ok? ==> forall j :: 0 <= j < |pmem| ==>
                        (pmem[j].None? <==> r.value[j].None?)
                        && (pmem[j].Some? ==> ResolveLine(t, pmem[j].value, j, fileLines[j]) == Ok(r.value[j].value))
  {
    var f := (line: seq<Token>, j: nat, n: int) requires line != [] && line[0].kind == INST => ResolveLine(t, line, j, n);
    EachSlotMeaning(f, pmem, fileLines, 0);
  }

  /** The resolution pass fails with the error of the first line that does not resolve. */
  lemma ResolveFirstError(t: Tables, pmem: seq<Option<seq<Token>>>, fileLines: seq<int>, i: nat)
    requires Slotted(pmem) && |fileLines| == |pmem|
    requires i < |pmem| && pmem[i].Some? && ResolveLine(t, pmem[i].value, i, fileLines[i]).Err?
    requires forall k :: 0 <= k < i && pmem[k].Some? ==> ResolveLine(t, pmem[k].value, k, fileLines[k]).Ok?
    ensures ResolveFrom(t, pmem, fileLines) == Err(ResolveLine(t, pmem[i].value, i, fileLines[i]).error)
  {
    var f := (line: seq<Token>, j: nat, n: int) requires line != [] && line[0].kind == INST => ResolveLine(t, line, j, n);
    EachSlotFirstError(f, pmem, fileLines, i);
  }

  /** The resolution pass succeeds when every line resolves, with the resolved lines. */
  lemma ResolveSucceeds(t: Tables, pmem: seq<Option<seq<Token>>>, fileLines: seq<int>, done: seq<Option<seq<Token>>>)
    requires Slotted(pmem) && |fileLines| == |pmem| && |done| == |pmem|
    requires forall j :: 0 <= j < |pmem| ==> (pmem[j].None? <==> done[j].None?)
    requires forall j :: 0 <= j < |pmem| && pmem[j].Some? ==> ResolveLine(t, pmem[j].value, j, fileLines[j]) == Ok(done[j].value)
    ensures ResolveFrom(t, pmem, fileLines) == Ok(done)
  {
    var f := (line: seq<Token>, j: nat, n: int) requires line != [] && line[0].kind == INST => ResolveLine(t, line, j, n);
    EachSlotSucceeds(f, pmem, fileLines, done);
  }

  /** Resolution keeps every slot's first token, hence the slot shape. */
  lemma ResolveSlotted(t: Tables, pmem: seq<Option<seq<Token>>>, fileLines: seq<int>)
    requires Slotted(pmem) && |fileLines| == |pmem|
    ensures ResolveFrom(t, pmem, fileLines).Ok? ==> Slotted(ResolveFrom(t, pmem, fileLines).value)
  {
    ResolveSlots(t, pmem, fileLines);
    var r := ResolveFrom(t, pmem, fileLines);
    if r.Ok? {
      var p := r.value;
      forall j | 0 <= j < |p| && p[j].Some?
        ensures p[j].value != [] && p[j].value[0] == pmem[j].value[0]
      {
        assert ResolveLine(t, pmem[j].value, j, fileLines[j]) == Ok(p[j].value);
      }
    }
  }

  /** The final pass: each instruction line checked and made an instruction. */
  function FinishFrom(pmem: seq<Option<seq<Token>>>, fileLines: seq<int>): (r: Result<seq<Option<Instr>>>)
    requires Slotted(pmem) && |fileLines| == |pmem|
    ensures r.Ok? ==> |r.value| == |pmem|
  {
    EachSlot((line: seq<Token>, j: nat, n: int) requires line != [] => FinishLine(line, n), pmem, fileLines, 0)
  }

  /** What the final pass computes, slot by slot: continuation slots stay empty and every
      instruction line becomes the instruction `FinishLine` makes of it. */
  lemma FinishSlots(pmem: seq<Option<seq<Token>>>, fileLines: seq<int>)
    requires Slotted(pmem) && |fileLines| == |pmem|
    ensures var r := FinishFrom(pmem, fileLines);
            r.Ok? ==> forall j :: 0 <= j < |pmem| ==>
                        (pmem[j].None? <==> r.value[j].None?)
                        && (pmem[j].Some? ==> FinishLine(pmem[j].value, fileLines[j]) == Ok(r.value[j].value))
  {
    var f := (line: seq<Token>, j: nat, n: int) requires line != [] => FinishLine(line, n);
    EachSlotMeaning(f, pmem, fileLines, 0);
  }

  /** The final pass fails with the error of the first line that is rejected. */
  lemma FinishFirstError(pmem: seq<Option<seq<Token>>>, fileLines: seq<int>, i: nat)
    requires Slotted(pmem) && |fileLines| == |pmem|
    requires i < |pmem| && pmem[i].Some? && FinishLine(pmem[i].value, fileLines[i]).Err?
    requires forall k :: 0 <= k < i && pmem[k].Some? ==> FinishLine(pmem[k].value, fileLines[k]).Ok?
    ensures FinishFrom(pmem, fileLines) == Err(FinishLine(pmem[i].value, fileLines[i]).error)
  {
    var f := (line: seq<Token>, j: nat, n: int) requires line != [] => FinishLine(line, n);
    EachSlotFirstError(f, pmem, fileLines, i);
  }

  /** The final pass succeeds when every line is accepted, with their instructions. */
  lemma FinishSucceeds(pmem: seq<Option<seq<Token>>>, fileLines: seq<int>, done: seq<Option<Instr>>)
    requires Slotted(pmem) && |fileLines| == |pmem| && |done| == |pmem|
    requires forall j :: 0 <= j < |pmem| ==> (pmem[j].None? <==> done[j].None?)
    requires forall j :: 0 <= j < |pmem| && pmem[j].Some? ==> FinishLine(pmem[j].value, fileLines[j]) == Ok(done[j].value)
    ensures FinishFrom(pmem, fileLines) == Ok(done)
  {
    var f := (line: seq<Token>, j: nat, n: int) requires line != [] => FinishLine(line, n);
    EachSlotSucceeds(f, pmem, fileLines, done);
  }

  /** One more slot of the final pass: the facts about the first `i` slots extend to
      the first `i + 1`. */
  lemma FinishedOneMore(pmem: seq<Option<seq<Token>>>, fileLines: seq<int>, done: seq<Option<Instr>>, i: nat, slot: Option<Instr>)
    requires Slotted(pmem) && |fileLines| == |pmem| && i < |pmem| && |done| == i
    requires forall j :: 0 <= j < i ==> (pmem[j].None? <==> done[j].None?)
    requires forall j :: 0 <= j < i && pmem[j].Some? ==> FinishLine(pmem[j].value, fileLines[j]) == Ok(done[j].value)
    requires pmem[i].None? <==> slot.None?
    requires pmem[i].Some? ==> FinishLine(pmem[i].value, fileLines[i]) == Ok(slot.value)
    ensures var d := done + [slot];
            && (forall j :: 0 <= j < i + 1 ==> (pmem[j].None? <==> d[j].None?))
            && (forall j :: 0 <= j < i + 1 && pmem[j].Some? ==> FinishLine(pmem[j].value, fileLines[j]) == Ok(d[j].value))
  {
    var d := done + [slot];
    forall j | 0 <= j < i + 1
      ensures (pmem[j].None? <==> d[j].None?)
      ensures pmem[j].Some? ==> FinishLine(pmem[j].value, fileLines[j]) == Ok(d[j].value)
    {
      assert d[j] == if j < i then done[j] else slot;
    }
  }

  /** The final pass keeps the continuation-slot shape, now over instructions. */
  lemma FinishSlotted(pmem: seq<Option<seq<Token>>>, fileLines: seq<int>)
    requires Slotted(pmem) && |fileLines| == |pmem|
    ensures FinishFrom(pmem, fileLines).Ok? ==> SlottedCode(FinishFrom(pmem, fileLines).value)
  {
    FinishSlots(pmem, fileLines);
    var r := FinishFrom(pmem, fileLines);
    if r.Ok? {
      var code := r.value;
      forall j | 0 <= j < |code| && code[j].Some?
        ensures code[j].value.inst == pmem[j].value[0]
      {
        assert FinishLine(pmem[j].value, fileLines[j]) == Ok(code[j].value);
      }
    }
  }
}
