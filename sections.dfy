/** The first two passes of `Parser.parse` (simulator.js:632-761): the checks on the
    `.section` lines and the end line, and the per-token normalisation that upper-cases and
    checks instruction names, checks register numbers and gives integer literals their
    value. */
module Sections {
  import opened Base
  import opened Tokens
  import opened Isa

  /** What `tokenize` guarantees the parser: as many numbers as lines, and no empty line. */
  predicate Shaped(lines: seq<seq<Token>>, numbers: seq<int>) {
    |numbers| == |lines| && forall i :: 0 <= i < |lines| ==> lines[i] != []
  }

  predicate IsSectionLine(line: seq<Token>)
    requires line != []
  {
    line[0].kind == DIR && line[0].value == VStr(".SECTION")
  }

  /** `.section .data` or `.section .text`, once the first token is known to be `.SECTION`. */
  predicate ValidSection(line: seq<Token>) {
    |line| == 2 && line[1].kind == DIR && (line[1].value == VStr(".DATA") || line[1].value == VStr(".TEXT"))
  }

  predicate IsTextSection(line: seq<Token>)
    requires line != []
  {
    IsSectionLine(line) && ValidSection(line) && line[1].value == VStr(".TEXT")
  }

  predicate IsEndLine(line: seq<Token>) {
    |line| == 1 && line[0].kind == DIR && line[0].value == VStr(".END")
  }

  /** The search for `.section .text` from line `k` on: every `.section` line met on the way
      must be valid, and the search stops at the first text section. */
  function FindText(lines: seq<seq<Token>>, numbers: seq<int>, k: nat): (r: Result<nat>)
    requires Shaped(lines, numbers) && k <= |lines|
    ensures r.Ok? ==> k <= r.value < |lines| && IsTextSection(lines[r.value])
    ensures r.Ok? ==> forall j :: k <= j < r.value && IsSectionLine(lines[j]) ==>
                        ValidSection(lines[j]) && lines[j][1].value == VStr(".DATA")
    ensures r == Err(Error(NoTextSection, 0)) ==>
              forall j :: k <= j < |lines| ==> !IsTextSection(lines[j])
    ensures r.Err? && r.error.kind == InvalidSection ==>
              exists j :: k <= j < |lines| && IsSectionLine(lines[j]) && !ValidSection(lines[j])
                          && r.error.line == numbers[j]
    ensures r.Err? ==> r.error.kind in {NoTextSection, InvalidSection}
    decreases |lines| - k
  {
    if k == |lines| then Err(Error(NoTextSection, 0))
    else if IsSectionLine(lines[k]) && !ValidSection(lines[k]) then Err(Error(InvalidSection, numbers[k]))
    else if IsSectionLine(lines[k]) && lines[k][1].value == VStr(".TEXT") then Ok(k)
    else FindText(lines, numbers, k + 1)
  }

  /** The section checks: the first line is `.section .data` or `.section .text`, the last
      is `.end` alone, and some line is `.section .text`; the result is its index. */
  function CheckSections(lines: seq<seq<Token>>, numbers: seq<int>): (r: Result<nat>)
    requires Shaped(lines, numbers)
    ensures r.Ok? ==> |lines| > 0 && IsSectionLine(lines[0]) && ValidSection(lines[0]) && IsEndLine(lines[|lines| - 1])
    ensures r.Ok? ==> r.value + 1 < |lines| && IsTextSection(lines[r.value])
    ensures r.Ok? ==> forall j :: 0 <= j < r.value ==> !IsTextSection(lines[j])
    ensures |lines| == 0 ==> r == Err(Error(EmptyProgram, 0))
    ensures |lines| > 0 && !IsSectionLine(lines[0]) ==> r == Err(Error(FirstLineNotSection, 0))
    ensures |lines| > 0 && IsSectionLine(lines[0]) && !ValidSection(lines[0]) ==>
              r == Err(Error(FirstLineBadSection, 0))
  {
    if |lines| == 0 then Err(Error(EmptyProgram, 0))
    else if !IsSectionLine(lines[0]) then Err(Error(FirstLineNotSection, 0))
    else if !ValidSection(lines[0]) then Err(Error(FirstLineBadSection, 0))
    else
      var last := lines[|lines| - 1];
      if |last| > 1 || last[0].kind != DIR || last[0].value != VStr(".END") then Err(Error(FinalLineNotEnd, 0))
      else FindText(lines, numbers, 0)
  }

  // ---------------------------------------------------------------------------
  // token normalisation

  /** `str.slice(k)` */
  function Drop(s: string, k: nat): string {
    if k <= |s| then s[k..] else []
  }

  /** The value of an unsigned literal's text: an `x`/`X` reads hexadecimal after two
      characters, a `$` hexadecimal after one, an `o`/`O` octal and a `b`/`B` binary after
      two, and anything else decimal. `None` is `NaN`. */
  function UnsignedValue(s: string): Option<int> {
    var (skip, base) := RadixOf(s);
    ParseInt(Drop(s, skip), base)
  }

  /** How many characters the radix prefix takes, and the radix. */
  function RadixOf(s: string): (nat, nat) {
    if 'x' in s || 'X' in s then (2, 16)
    else if '$' in s then (1, 16)
    else if 'o' in s || 'O' in s then (2, 8)
    else if 'b' in s || 'B' in s then (2, 2)
    else (0, 10)
  }

  /** The value of an integer literal's text: a `-` anywhere drops the first character and
      negates the rest's value; a text that is no number is `NaN`. */
  function LiteralValue(v: Value): (r: Value)
    ensures v.VStr? ==> r.VInt? || r.VNaN?
  {
    match v
    case VStr(s0) =>
      var neg := '-' in s0;
      (match UnsignedValue(if neg then Drop(s0, 1) else s0)
       case Some(n) => VInt(if neg then -n else n)
       case None => VNaN)
    case _ => v
  }

  /** One token made ready for the parser: an instruction name upper-cased and looked up,
      a register number checked, an integer literal given its value. */
  function NormaliseToken(t: Token, number: int): (r: Result<Token>)
    ensures r.Ok? ==> r.value.kind == t.kind
    ensures r.Ok? && t.kind == INST ==>
              r.value.value.VStr? && FromName(r.value.value.s).Some? && r.value.value.s == Upper(ValueText(t.value))
    ensures r.Err? <==> (t.kind == INST && FromName(Upper(ValueText(t.value))).None?)
                        || (t.kind == REG && t.value.VInt? && t.value.n > 31)
    ensures r.Err? ==> r.error.line == number
    ensures r.Ok? && t.kind == INT ==> r.value.value == LiteralValue(t.value)
    ensures r.Ok? && t.kind != INST && t.kind != INT ==> r.value == t
  {
    if t.kind == INST then
      var u := Upper(ValueText(t.value));
      if FromName(u).None? then Err(Error(InvalidInstruction, number)) else Ok(Token(INST, VStr(u)))
    else if t.kind == REG && t.value.VInt? && t.value.n > 31 then Err(Error(IllegalRegister, number))
    else if t.kind == INT then Ok(Token(INT, LiteralValue(t.value)))
    else Ok(t)
  }

  /** Every token of a line normalised, stopping at the first failure. */
  function NormaliseLine(line: seq<Token>, number: int): (r: Result<seq<Token>>)
    ensures r.Ok? ==> |r.value| == |line|
    ensures r.Ok? ==> forall i :: 0 <= i < |line| ==> Ok(r.value[i]) == NormaliseToken(line[i], number)
    ensures r.Err? <==> exists i :: 0 <= i < |line| && NormaliseToken(line[i], number).Err?
    decreases |line|
  {
    if line == [] then Ok([])
    else match NormaliseToken(line[0], number)
      case Err(e) => Err(e)
      case Ok(u) =>
        match NormaliseLine(line[1..], number)
        case Err(e) => Err(e)
        case Ok(rest) =>
          assert forall i :: 1 <= i < |line| ==> line[i] == line[1..][i - 1];
          Ok([u] + rest)
  }

  /** The normalisation pass over the lines from `k` on. */
  function NormaliseFrom(lines: seq<seq<Token>>, numbers: seq<int>, k: nat): (r: Result<seq<seq<Token>>>)
    requires Shaped(lines, numbers) && k <= |lines|
    ensures r.Ok? ==> |r.value| == |lines| - k
    decreases |lines| - k
  {
    if k == |lines| then Ok([])
    else match NormaliseLine(lines[k], numbers[k])
      case Err(e) => Err(e)
      case Ok(line) =>
        match NormaliseFrom(lines, numbers, k + 1)
        case Err(e) => Err(e)
        case Ok(rest) => Ok([line] + rest)
  }

  /** One line of the pass: it succeeds when line `k` and the lines after it do. */
  lemma NormaliseFromStep(lines: seq<seq<Token>>, numbers: seq<int>, k: nat)
    requires Shaped(lines, numbers) && k < |lines|
    ensures NormaliseFrom(lines, numbers, k).Ok? <==>
              NormaliseLine(lines[k], numbers[k]).Ok? && NormaliseFrom(lines, numbers, k + 1).Ok?
    ensures NormaliseFrom(lines, numbers, k).Ok? ==>
              NormaliseFrom(lines, numbers, k).value ==
                [NormaliseLine(lines[k], numbers[k]).value] + NormaliseFrom(lines, numbers, k + 1).value
  {
  }

  /** The pass succeeds exactly when every line does, and then line `i` of the result is
      the normalisation of line `i`. */
  lemma NormaliseFromMeaning(lines: seq<seq<Token>>, numbers: seq<int>, k: nat)
    requires Shaped(lines, numbers) && k <= |lines|
    ensures NormaliseFrom(lines, numbers, k).Ok? <==>
              forall i :: k <= i < |lines| ==> NormaliseLine(lines[i], numbers[i]).Ok?
    ensures NormaliseFrom(lines, numbers, k).Ok? ==>
              forall i :: k <= i < |lines| ==> NormaliseLine(lines[i], numbers[i]) == Ok(NormaliseFrom(lines, numbers, k).value[i - k])
  {
    var rs := LineResults(lines, numbers);
    NormaliseFromSuccesses(lines, numbers, k);
    SuccessesMeaning(rs, k);
  }

  /** Each line's normalisation, in order. */
  function LineResults(lines: seq<seq<Token>>, numbers: seq<int>): (rs: seq<Result<seq<Token>>>)
    requires |numbers| == |lines|
    ensures |rs| == |lines| && forall i :: 0 <= i < |lines| ==> rs[i] == NormaliseLine(lines[i], numbers[i])
  {
    seq(|lines|, i requires 0 <= i < |lines| => NormaliseLine(lines[i], numbers[i]))
  }

  /** The values of the results from `k` on, or the first failure among them. */
  function Successes<T>(rs: seq<Result<T>>, k: nat): Result<seq<T>>
    requires k <= |rs|
    decreases |rs| - k
  {
    if k == |rs| then Ok([])
    else match rs[k]
      case Err(e) => Err(e)
      case Ok(x) =>
        match Successes(rs, k + 1)
        case Err(e) => Err(e)
        case Ok(rest) => Ok([x] + rest)
  }

  /** The pass from line `k` is the successes of the lines' normalisations from `k`. */
  lemma {:induction false} NormaliseFromSuccesses(lines: seq<seq<Token>>, numbers: seq<int>, k: nat)
    requires Shaped(lines, numbers) && k <= |lines|
    ensures NormaliseFrom(lines, numbers, k) == Successes(LineResults(lines, numbers), k)
    decreases |lines| - k
  {
    if k < |lines| {
      NormaliseFromSuccesses(lines, numbers, k + 1);
      NormaliseFromStep(lines, numbers, k);
    }
  }

  /** The successes exist exactly when every result does, and hold the values in order. */
  lemma {:induction false} SuccessesMeaning<T>(rs: seq<Result<T>>, k: nat)
    requires k <= |rs|
    ensures Successes(rs, k).Ok? <==> forall i :: k <= i < |rs| ==> rs[i].Ok?
    ensures Successes(rs, k).Ok? ==> |Successes(rs, k).value| == |rs| - k
    ensures Successes(rs, k).Ok? ==> forall i :: k <= i < |rs| ==> rs[i] == Ok(Successes(rs, k).value[i - k])
    decreases |rs| - k
  {
    if k < |rs| {
      SuccessesMeaning(rs, k + 1);
      if Successes(rs, k).Ok? {
        ConsShift(rs, k, rs[k].value, Successes(rs, k + 1).value);
      } else if rs[k].Ok? {
        var i :| k + 1 <= i < |rs| && !rs[i].Ok?;
      }
    }
  }

  /** Results from `k + 1` on that are the successes `rest`, after a success `x` at `k`: from
      `k` on they are the successes `[x] + rest`. */
  lemma ConsShift<T>(rs: seq<Result<T>>, k: nat, x: T, rest: seq<T>)
    requires k < |rs| && rs[k] == Ok(x) && |rest| == |rs| - (k + 1)
    requires forall i :: k + 1 <= i < |rs| ==> rs[i] == Ok(rest[i - (k + 1)])
    ensures forall i :: k <= i < |rs| ==> rs[i] == Ok(([x] + rest)[i - k])
  {
    forall i | k <= i < |rs|
      ensures rs[i] == Ok(([x] + rest)[i - k])
    {
      if i > k {
        assert ([x] + rest)[i - k] == rest[i - (k + 1)];
      }
    }
  }

  /** Normalisation keeps the kind of every token, so the section checks still hold after
      it, and an instruction token afterwards names a mnemonic. */
  lemma NormalisedShape(lines: seq<seq<Token>>, numbers: seq<int>)
    requires Shaped(lines, numbers)
    ensures NormaliseFrom(lines, numbers, 0).Ok? ==>
              var out: seq<seq<Token>> := NormaliseFrom(lines, numbers, 0).value;
              && Shaped(out, numbers)
              && (forall i :: 0 <= i < |out| ==> |out[i]| == |lines[i]|)
              && (forall i, j :: 0 <= i < |out| && 0 <= j < |out[i]| ==> out[i][j].kind == lines[i][j].kind)
              && (forall i, j :: 0 <= i < |out| && 0 <= j < |out[i]| && out[i][j].kind == INST ==>
                    out[i][j].value.VStr? && FromName(out[i][j].value.s).Some?)
              && (forall i, j :: 0 <= i < |out| && 0 <= j < |out[i]| && out[i][j].kind == DIR ==>
                    out[i][j] == lines[i][j])
  {
    NormaliseFromMeaning(lines, numbers, 0);
    if NormaliseFrom(lines, numbers, 0).Ok? {
      var out: seq<seq<Token>> := NormaliseFrom(lines, numbers, 0).value;
      forall i | 0 <= i < |out|
        ensures |out[i]| == |lines[i]| && out[i] != []
        ensures forall j :: 0 <= j < |out[i]| ==>
                  && out[i][j].kind == lines[i][j].kind
                  && (out[i][j].kind == INST ==> out[i][j].value.VStr? && FromName(out[i][j].value.s).Some?)
                  && (out[i][j].kind == DIR ==> out[i][j] == lines[i][j])
      {
        LineShape(lines[i], numbers[i], out[i]);
      }
    }
  }

  /** A normalised line keeps the kind of every token; an instruction names a mnemonic and a
      directive is left as it was. */
  lemma LineShape(line: seq<Token>, number: int, out: seq<Token>)
    requires NormaliseLine(line, number) == Ok(out)
    ensures |out| == |line|
    ensures forall j :: 0 <= j < |out| ==>
              && out[j].kind == line[j].kind
              && (out[j].kind == INST ==> out[j].value.VStr? && FromName(out[j].value.s).Some?)
              && (out[j].kind == DIR ==> out[j] == line[j])
  {
    forall j | 0 <= j < |out|
      ensures out[j].kind == line[j].kind
      ensures out[j].kind == INST ==> out[j].value.VStr? && FromName(out[j].value.s).Some?
      ensures out[j].kind == DIR ==> out[j] == line[j]
    {
      assert Ok(out[j]) == NormaliseToken(line[j], number);
    }
  }


  /** The radix prefixes of the lexer's number patterns, with their bases. */
  predicate RadixPrefix(prefix: string, base: nat) {
    || (base == 16 && (prefix == "0x" || prefix == "0X" || prefix == "$"))
    || (base == 8 && (prefix == "0o" || prefix == "0O"))
    || (base == 2 && (prefix == "0b" || prefix == "0B"))
    || (base == 10 && prefix == "")
  }

  /** A literal as the lexer's number patterns produce it (an optional `-`, a radix prefix,
      then digits of that radix) reads as the value of its digits. */
  lemma RadixLiteral(prefix: string, d: string, base: nat, neg: bool)
    requires RadixPrefix(prefix, base)
    requires d != [] && AllDigits(d, base)
    ensures LiteralValue(VStr((if neg then "-" else "") + (prefix + d))) ==
            VInt(if neg then -(DigitsValue(d, base) as int) else DigitsValue(d, base) as int)
  {
    UnsignedRadix(prefix, d, base);
    NoMinus(prefix, d, base);
    SignedLiteral(prefix + d, neg);
  }

  lemma UnsignedRadix(prefix: string, d: string, base: nat)
    requires RadixPrefix(prefix, base)
    requires d != [] && AllDigits(d, base)
    ensures UnsignedValue(prefix + d) == Some(DigitsValue(d, base) as int)
  {
    if prefix == "" { UnsignedDecimal(d); assert prefix + d == d; }
    else if prefix == "$" { UnsignedDollar(d); }
    else { UnsignedTwoChar(prefix[1], d, base); assert prefix == "0" + [prefix[1]]; }
  }

  lemma NoMinus(prefix: string, d: string, base: nat)
    requires RadixPrefix(prefix, base)
    requires AllDigits(d, base)
    ensures '-' !in prefix + d
  {
    NoSignInDigits(d, base);
    var s := prefix + d;
    forall i | 0 <= i < |s|
      ensures s[i] != '-'
    {
      if i < |prefix| { assert s[i] == prefix[i]; } else { assert s[i] == d[i - |prefix|]; }
    }
  }

  /** A leading `-` negates the value of the rest. */
  lemma SignedLiteral(s: string, neg: bool)
    requires '-' !in s && UnsignedValue(s).Some?
    ensures LiteralValue(VStr((if neg then "-" else "") + s)) ==
            VInt(if neg then -UnsignedValue(s).value else UnsignedValue(s).value)
  {
    var s0 := (if neg then "-" else "") + s;
    if neg {
      assert s0[0] == '-' && Drop(s0, 1) == s;
    } else {
      assert s0 == s;
    }
  }

  lemma UnsignedDecimal(d: string)
    requires d != [] && AllDigits(d, 10)
    ensures UnsignedValue(d) == Some(DigitsValue(d, 10) as int)
  {
    NoSignInDigits(d, 10);
    assert 'b' !in d && 'B' !in d;
    assert RadixOf(d) == (0, 10) && Drop(d, 0) == d;
    ParseDigits(d, 10);
  }

  lemma UnsignedDollar(d: string)
    requires d != [] && AllDigits(d, 16)
    ensures UnsignedValue("$" + d) == Some(DigitsValue(d, 16) as int)
  {
    var s := "$" + d;
    NoSignInDigits(d, 16);
    assert 'x' !in s && 'X' !in s by { assert forall c :: c in s ==> c == '$' || c in d; }
    assert s[0] == '$' && Drop(s, 1) == d;
    assert RadixOf(s) == (1, 16);
    ParseDigits(d, 16);
  }

  lemma UnsignedTwoChar(x: char, d: string, base: nat)
    requires (base == 16 && (x == 'x' || x == 'X')) || (base == 8 && (x == 'o' || x == 'O'))
             || (base == 2 && (x == 'b' || x == 'B'))
    requires d != [] && AllDigits(d, base)
    ensures UnsignedValue("0" + [x] + d) == Some(DigitsValue(d, base) as int)
  {
    var s := "0" + [x] + d;
    NoSignInDigits(d, base);
    assert s[1] == x && Drop(s, 2) == d;
    assert forall c :: c in s ==> c == '0' || c == x || c in d;
    assert RadixOf(s) == (2, base);
    ParseDigits(d, base);
  }

  lemma NoSignInDigits(d: string, base: nat)
    requires AllDigits(d, base)
    ensures '-' !in d && '+' !in d && 'x' !in d && 'X' !in d && '$' !in d && 'o' !in d && 'O' !in d
    ensures base <= 10 ==> forall c :: c in d ==> IsDigit(c)
  {
  }
}
