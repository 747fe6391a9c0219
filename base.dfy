/** Shared vocabulary: failure-carrying results, the error kinds the assembler and the
    simulator raise, and the character and number helpers that stand in for the
    JavaScript built-ins the simulator relies on (regular-expression character classes,
    `toUpperCase`, `trim`, `parseInt`, `toString`). */
module Base {

  datatype Option<+T> = None | Some(value: T)

  /** The value of one memory cell. */
  type Byte = x: int | 0 <= x < 256

  /** One error site of the simulator. Every `newError` call (and every JavaScript
      exception the source can throw on a malformed input) becomes one of these. */
  datatype ErrorKind =
    // lexer
    | InvalidSyntax | InvalidDirective
    // operand validator
    | IllegalToken | IllegalArgument
    // parser: structure
    | EmptyProgram | FirstLineNotSection | FirstLineBadSection | FinalLineNotEnd
    | InvalidSection | NoTextSection | MissingGlobal
    // parser: token normalisation
    | InvalidInstruction | IllegalRegister
    // parser: text section
    | IllegalLabelLocation | IllegalGlobal | GlobalArgCount | GlobalArgType
    | IllegalTextToken | TooMuchCode | GlobalLabelMissing
    // parser: data section
    | DataExpectsDirective | BadToken | BadEscape | TooManyArguments | EquArgCount
    | EquBadArgument | MissingComma | TooMuchData
    // parser: symbol tables
    | DuplicateLabel | LabelIsEqu | LabelIsDef | EquIsLabel | EquIsDef | DefRedefinition
    // parser: references and expressions
    | HiLoTooFewTokens | HiLoBadBracket | MissingRpar | HiLoEmpty | BigNum
    | BadReference | InvalidReference | EvalError
    // parser: final pass
    | ExpectingComma | WrongArgCount
    // interpreter
    | BadStackCall | BadStackPop | StackOverflowPush | BadStackRet | IllegalZ
    | StepLimit | ContinuationFetch | LpmFault | RegisterFault

  /** An error with the 1-based source line it refers to (0 when the source gives none). */
  datatype Error = Error(kind: ErrorKind, line: int)

  datatype Result<+T> = Ok(value: T) | Err(error: Error) {
    predicate IsFailure() { Err? }
    function PropagateFailure<U>(): Result<U> requires Err? { Err(error) }
    function Extract(): T requires Ok? { value }
  }

  datatype Outcome = Pass | Fail(error: Error) {
    predicate IsFailure() { Fail? }
    function PropagateFailure(): Outcome requires Fail? { this }
  }

  // ---------------------------------------------------------------------------
  // JavaScript regular-expression character classes

  /** `\d` */
  predicate IsDigit(c: char) { '0' <= c <= '9' }

  predicate IsLetter(c: char) { ('a' <= c <= 'z') || ('A' <= c <= 'Z') }

  /** `\w` */
  predicate IsWordChar(c: char) { IsLetter(c) || IsDigit(c) || c == '_' }

  predicate IsHexDigit(c: char) { IsDigit(c) || ('a' <= c <= 'f') || ('A' <= c <= 'F') }

  predicate IsOctDigit(c: char) { '0' <= c <= '7' }

  predicate IsBinDigit(c: char) { c == '0' || c == '1' }

  /** The characters `.` refuses to match. */
  predicate IsLineTerminator(c: char) {
    c == '\n' || c == '\r' || c == '\U{2028}' || c == '\U{2029}'
  }

  /** `\s`: ECMAScript white space and line terminators (the same set `trim` removes). */
  predicate IsSpace(c: char) {
    c == ' ' || c == '\t' || c == '\U{000B}' || c == '\U{000C}' || IsLineTerminator(c)
    || c == '\U{00A0}' || c == '\U{1680}' || ('\U{2000}' <= c <= '\U{200A}')
    || c == '\U{202F}' || c == '\U{205F}' || c == '\U{3000}' || c == '\U{FEFF}'
  }

  // ---------------------------------------------------------------------------
  // strings

  /** `String.prototype.toUpperCase` restricted to ASCII letters. */
  function UpperChar(c: char): (u: char)
    ensures IsLetter(c) ==> IsLetter(u) && ('A' <= u <= 'Z')
    ensures !('a' <= c <= 'z') ==> u == c
  {
    if 'a' <= c <= 'z' then (c as int - 32) as char else c
  }

  function Upper(s: string): (u: string)
    ensures |u| == |s|
    ensures forall i :: 0 <= i < |s| ==> u[i] == UpperChar(s[i])
  {
    if s == [] then [] else [UpperChar(s[0])] + Upper(s[1..])
  }

  /** Leading white space removed. */
  function TrimStart(s: string): (r: string)
    ensures |r| <= |s| && r == s[|s| - |r|..]
    ensures r != [] ==> !IsSpace(r[0])
  {
    if s != [] && IsSpace(s[0]) then TrimStart(s[1..]) else s
  }

  /** Trailing white space removed. */
  function TrimEnd(s: string): (r: string)
    ensures |r| <= |s| && r == s[..|r|]
    ensures r != [] ==> !IsSpace(r[|r| - 1])
  {
    if s != [] && IsSpace(s[|s| - 1]) then TrimEnd(s[..|s| - 1]) else s
  }

  /** `String.prototype.trim` */
  function Trim(s: string): string { TrimEnd(TrimStart(s)) }

  // ---------------------------------------------------------------------------
  // numbers

  function DigitValue(c: char): (v: nat)
    ensures IsHexDigit(c) ==> v < 16
    ensures IsDigit(c) ==> v == c as int - '0' as int
  {
    if IsDigit(c) then c as int - '0' as int
    else if 'a' <= c <= 'f' then c as int - 'a' as int + 10
    else if 'A' <= c <= 'F' then c as int - 'A' as int + 10
    else 0
  }

  predicate AllDigits(s: string, base: nat) {
    forall i :: 0 <= i < |s| ==> IsHexDigit(s[i]) && DigitValue(s[i]) < base
  }

  /** The value of a digit string in `base`, most significant digit first. */
  function DigitsValue(s: string, base: nat): nat {
    if s == [] then 0 else DigitsValue(s[..|s| - 1], base) * base + DigitValue(s[|s| - 1])
  }

  /** Longest prefix of `s` made of digits of `base`. */
  function DigitPrefix(s: string, base: nat): (p: string)
    ensures |p| <= |s| && p == s[..|p|] && AllDigits(p, base)
    ensures |p| < |s| ==> !(IsHexDigit(s[|p|]) && DigitValue(s[|p|]) < base)
  {
    if s != [] && IsHexDigit(s[0]) && DigitValue(s[0]) < base
    then [s[0]] + DigitPrefix(s[1..], base)
    else []
  }

  /** `parseInt(s, base)`: leading white space, an optional sign, then the longest run of
      digits; `None` stands for `NaN` (no digit at all). */
  function ParseInt(s: string, base: nat): Option<int> {
    var t := TrimStart(s);
    var neg := t != [] && t[0] == '-';
    var u := if t != [] && (t[0] == '-' || t[0] == '+') then t[1..] else t;
    var d := DigitPrefix(u, base);
    if d == [] then None
    else if neg then Some(-(DigitsValue(d, base) as int))
    else Some(DigitsValue(d, base) as int)
  }

  /** A string of nothing but digits of `base` parses to the value of those digits. */
  lemma ParseDigits(d: string, base: nat)
    requires d != [] && AllDigits(d, base)
    ensures ParseInt(d, base) == Some(DigitsValue(d, base) as int)
  {
    assert IsHexDigit(d[0]) && !IsSpace(d[0]) && d[0] != '-' && d[0] != '+';
    assert TrimStart(d) == d;
    DigitPrefixOfDigits(d, base);
  }

  lemma {:induction false} DigitPrefixOfDigits(d: string, base: nat)
    requires AllDigits(d, base)
    ensures DigitPrefix(d, base) == d
    decreases |d|
  {
    if d != [] {
      assert AllDigits(d[1..], base);
      DigitPrefixOfDigits(d[1..], base);
      assert d == [d[0]] + d[1..];
    }
  }

  /** Decimal digits of a natural number, as `Number.prototype.toString()` prints them: they
      denote the number, and only 0 itself starts with a `0`. */
  function NatToString(n: nat): (s: string)
    ensures s != [] && AllDigits(s, 10) && forall i :: 0 <= i < |s| ==> IsDigit(s[i])
    ensures DigitsValue(s, 10) == n
    ensures s[0] == '0' <==> n == 0
    decreases n
  {
    if n < 10 then [('0' as int + n) as char]
    else
      var s := NatToString(n / 10) + [('0' as int + n % 10) as char];
      assert s[..|s| - 1] == NatToString(n / 10);
      s
  }

  function IntToString(n: int): string {
    if n < 0 then "-" + NatToString(-n) else NatToString(n)
  }

  /** Two to the power `k`. */
  function Pow2(k: nat): (p: nat)
    ensures p >= 1
  {
    if k == 0 then 1 else 2 * Pow2(k - 1)
  }

  /** Floor division, as `Math.floor(a / b)` gives it for integers. */
  function FloorDiv(a: int, b: int): int
    requires b != 0
  {
    if b > 0 then a / b                           // Euclidean = floor for b > 0
    else if a % b == 0 then a / b
    else a / b - 1                                // Euclidean rounds up for b < 0
  }

  /** `ToInt32`: the 32-bit two's-complement reading JavaScript applies to the operands of
      its bitwise operators. */
  function ToInt32(x: int): (r: int)
    ensures -0x8000_0000 <= r < 0x8000_0000
    ensures (r - x) % 0x1_0000_0000 == 0
  {
    var m := x % 0x1_0000_0000;
    if m >= 0x8000_0000 then m - 0x1_0000_0000 else m
  }
}
