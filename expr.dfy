/** The expression evaluator of the assembler: a run of `MATH` tokens is read as one
    arithmetic expression, evaluated, floored and spliced back into the line as a single
    `INT` token (simulator.js:1496-1545). The source concatenates the token texts and hands
    the string to JavaScript's `eval`; this module does the same, then reads the string with
    the part of JavaScript's lexical grammar and operator precedence such a string can
    exercise, and JavaScript's number semantics on exact rationals. */
module Expr {
  import opened Base
  import opened Tokens

  // ---------------------------------------------------------------------------
  // numbers

  /** A JavaScript value as the evaluator meets it: a number, held as an exact rational, or
      `NaN`, or a boolean (the comparisons' results, which `!==` tells apart from numbers),
      or `undefined` (the text of a label that was never defined). */
  datatype Num = Fin(r: real) | NaN | Truth(b: bool) | Undef

  function FromInt(n: int): Num { Fin(n as real) }

  /** `ToNumber`: `true` and `false` take part in arithmetic as 1 and 0, `undefined` as
      `NaN`. */
  function Numeric(x: Num): (y: Num)
    ensures !y.Truth?
    ensures x.Fin? || x.NaN? ==> y == x
  {
    match x
    case Truth(b) => if b then Fin(1.0) else Fin(0.0)
    case Undef => NaN
    case _ => x
  }

  /** JavaScript truthiness: zero, `NaN`, `false` and `undefined` are false. */
  predicate Truthy(x: Num) {
    match x
    case Fin(r) => r != 0.0
    case NaN => false
    case Truth(b) => b
    case Undef => false
  }

  /** Rounding toward zero. */
  function Trunc(r: real): (n: int)
    ensures r >= 0.0 ==> n as real <= r < n as real + 1.0
    ensures r < 0.0 ==> n as real - 1.0 < r <= n as real
  {
    if r >= 0.0 then r.Floor else -((-r).Floor)
  }

  /** `ToInt32`, as the bitwise operators apply it: `NaN` is 0. */
  function Int32Of(x: Num): (n: int)
    ensures -0x8000_0000 <= n < 0x8000_0000
  {
    var y := Numeric(x);
    if y.NaN? then 0 else ToInt32(Trunc(y.r))
  }

  function Bits(n: int): bv32 { (n % 0x1_0000_0000) as bv32 }

  function Signed(b: bv32): int { ToInt32(b as int) }

  /** `x` to the power `k`. */
  function RealPow(x: real, k: nat): (r: real)
    ensures x != 0.0 ==> r != 0.0
  {
    if k == 0 then 1.0 else x * RealPow(x, k - 1)
  }

  function IntPow(a: int, k: nat): int {
    if k == 0 then 1 else a * IntPow(a, k - 1)
  }

  /** `**` on two numbers. An integer exponent is exact; a zero base with a negative
      exponent gives `NaN` here (JavaScript gives an infinity), and so does any other
      exponent that is not an integer. */
  function Exponent(x: Num, y: Num): Num {
    if y == Fin(0.0) then Fin(1.0)
    else if !(x.Fin? && y.Fin?) || y.r.Floor as real != y.r then NaN
    else
      var k := y.r.Floor;
      if k >= 0 then Fin(RealPow(x.r, k))
      else if x.r == 0.0 then NaN
      else Fin(1.0 / RealPow(x.r, -k))
  }

  // ---------------------------------------------------------------------------
  // operators

  predicate Both(a: Num, b: Num) { a.Fin? && b.Fin? }

  /** `===`: the same type and the same value; `NaN` equals nothing. */
  predicate StrictEqual(a: Num, b: Num) {
    (a.Fin? && b.Fin? && a.r == b.r) || (a.Truth? && b.Truth? && a.b == b.b) || (a.Undef? && b.Undef?)
  }

  /** `==`: `undefined` equals only itself; every other pair compares as numbers, so `NaN`
      equals nothing. */
  predicate LooseEqual(a: Num, b: Num) {
    var x, y := Numeric(a), Numeric(b);
    (a.Undef? && b.Undef?) || (Both(x, y) && x.r == y.r)
  }

  /** The punctuators an expression string can hold, named by their text; `OtherPunct` is
      every one the expression grammar has no use for (`--`, `=`, `<<=`, ...). */
  datatype Op =
    | OrOr | AndAnd | Bar | Caret | Amp | EqEq | NotEq | EqEqEq | NotEqEq
    | Lt | Gt | LtEq | GtEq | LtLt | GtGt | GtGtGt | Plus | Dash | Star | Slash | StarStar
    | Bang | Tilde | LParen | RParen | OtherPunct

  /** A punctuator's text named, character by character. */
  function OpOf(p: string): Op {
    var c, c1, c2 := At(p, 0), At(p, 1), At(p, 2);
    if |p| == 1 then
      if c == '|' then Bar else if c == '^' then Caret else if c == '&' then Amp
      else if c == '<' then Lt else if c == '>' then Gt else if c == '+' then Plus
      else if c == '-' then Dash else if c == '*' then Star else if c == '/' then Slash
      else if c == '!' then Bang else if c == '~' then Tilde else if c == '(' then LParen
      else if c == ')' then RParen else OtherPunct
    else if |p| == 2 then
      if c1 == '=' then
        (if c == '=' then EqEq else if c == '!' then NotEq else if c == '<' then LtEq
         else if c == '>' then GtEq else OtherPunct)
      else if c1 == c then
        (if c == '|' then OrOr else if c == '&' then AndAnd else if c == '<' then LtLt
         else if c == '>' then GtGt else if c == '*' then StarStar else OtherPunct)
      else OtherPunct
    else if |p| == 3 then
      if c1 == '=' && c2 == '=' then (if c == '=' then EqEqEq else if c == '!' then NotEqEq else OtherPunct)
      else if c == '>' && c1 == '>' && c2 == '>' then GtGtGt
      else OtherPunct
    else OtherPunct
  }

  /** A binary operator on two values. Division by zero gives `NaN` here (JavaScript gives
      an infinity unless both are zero). */
  function Binary(op: Op, a: Num, b: Num): Num {
    var x, y := Numeric(a), Numeric(b);
    match op
    case Plus => if Both(x, y) then Fin(x.r + y.r) else NaN
    case Dash => if Both(x, y) then Fin(x.r - y.r) else NaN
    case Star => if Both(x, y) then Fin(x.r * y.r) else NaN
    case Slash => if Both(x, y) && y.r != 0.0 then Fin(x.r / y.r) else NaN
    case StarStar => Exponent(x, y)
    case Amp => FromInt(Signed(Bits(Int32Of(x)) & Bits(Int32Of(y))))
    case Bar => FromInt(Signed(Bits(Int32Of(x)) | Bits(Int32Of(y))))
    case Caret => FromInt(Signed(Bits(Int32Of(x)) ^ Bits(Int32Of(y))))
    case LtLt => FromInt(ToInt32(Int32Of(x) * Pow2(Int32Of(y) % 32)))
    case GtGt => FromInt(FloorDiv(Int32Of(x), Pow2(Int32Of(y) % 32)))
    case GtGtGt => FromInt((Int32Of(x) % 0x1_0000_0000) / Pow2(Int32Of(y) % 32))
    case Lt => Truth(Both(x, y) && x.r < y.r)
    case Gt => Truth(Both(x, y) && x.r > y.r)
    case LtEq => Truth(Both(x, y) && x.r <= y.r)
    case GtEq => Truth(Both(x, y) && x.r >= y.r)
    case EqEq => Truth(LooseEqual(a, b))
    case NotEq => Truth(!LooseEqual(a, b))
    case EqEqEq => Truth(StrictEqual(a, b))
    case NotEqEq => Truth(!StrictEqual(a, b))
    case AndAnd => if Truthy(a) then b else a
    case OrOr => if Truthy(a) then a else b
    case _ => NaN
  }

  /** A prefix operator: `-`, `+`, `~` or `!`. */
  function Unary(op: Op, a: Num): Num {
    var x := Numeric(a);
    match op
    case Dash => if x.Fin? then Fin(-x.r) else NaN
    case Tilde => FromInt(-Int32Of(x) - 1)
    case Bang => Truth(!Truthy(a))
    case _ => x
  }

  /** The binary operators' texts that a run of tokens can spell, `**` apart. */
  const BinaryTexts: set<string> :=
    {"||", "&&", "|", "^", "&", "==", "!=", "!==", "<", ">", "<=", ">=", "<<", ">>", ">>>",
     "+", "-", "*", "/"}

  /** The text the lexer gives a token of an operator kind (its pattern's literal). */
  function OperatorText(k: Kind): string {
    match k
    case LPAR => "(" case RPAR => ")" case PLUS => "+" case MINUS => "-"
    case TIMES => "*" case DIV => "/" case LOGAND => "&&" case BITAND => "&"
    case LOGOR => "||" case BITOR => "|" case BITXOR => "^" case BITNOT => "~"
    case NEQ => "!=" case LOGNOT => "!" case GEQ => ">=" case LEQ => "<="
    case DEQ => "==" case RSHIFT => ">>" case LSHIFT => "<<" case GT => ">" case LT => "<"
    case _ => ""
  }

  // ---------------------------------------------------------------------------
  // the text `eval` reads

  /** The run's texts, concatenated as `+` concatenates them (a number as `toString` prints
      it, `NaN`, `undefined`, an operator as written): the string handed to `eval`. */
  function Joined(t: seq<Token>): string {
    if t == [] then [] else ValueText(t[0].value) + Joined(t[1..])
  }

  /** What JavaScript's lexer makes of the string: numbers (and the identifiers `NaN` and
      `undefined`) and punctuators. */
  datatype Sym = Number(x: Num) | Punct(o: Op)

  function At(s: string, i: nat): char { if i < |s| then s[i] else ' ' }

  /** A character that may continue an identifier (ASCII). */
  predicate IsIdentPart(c: char) { IsWordChar(c) || c == '$' }

  /** The length of the longest ECMAScript punctuator at the start of `s` among those
      written with the characters of `( ) + - * / & | ^ ~ ! = < >`; 0 when there is none. */
  function PunctLength(s: string): (n: nat)
    ensures n <= |s| && n <= 4
  {
    if s == [] then 0
    else
      var c, c1, c2, c3 := s[0], At(s, 1), At(s, 2), At(s, 3);
      if c == '(' || c == ')' || c == '~' then 1
      else if c == '+' || c == '-' then (if c1 == c || c1 == '=' then 2 else 1)
      else if c == '&' || c == '|' || c == '*' then
        (if c1 == c then (if c2 == '=' then 3 else 2) else if c1 == '=' then 2 else 1)
      else if c == '/' || c == '^' then (if c1 == '=' then 2 else 1)
      else if c == '!' then (if c1 == '=' then (if c2 == '=' then 3 else 2) else 1)
      else if c == '=' then
        (if c1 == '=' then (if c2 == '=' then 3 else 2) else if c1 == '>' then 2 else 1)
      else if c == '<' then
        (if c1 == '<' then (if c2 == '=' then 3 else 2) else if c1 == '=' then 2 else 1)
      else if c == '>' then
        (if c1 == '>' then (if c2 == '>' then (if c3 == '=' then 4 else 3) else if c2 == '=' then 3 else 2)
         else if c1 == '=' then 2 else 1)
      else 0
  }

  /** The end of the run of digits from `i`. */
  function DigitEnd(s: string, i: nat): (n: nat)
    requires i <= |s|
    ensures i <= n <= |s| && forall j :: i <= j < n ==> IsDigit(s[j])
    ensures n < |s| ==> !IsDigit(s[n])
    decreases |s| - i
  {
    if i < |s| && IsDigit(s[i]) then DigitEnd(s, i + 1) else i
  }

  /** The end of the run of identifier characters from `i`. */
  function WordEnd(s: string, i: nat): (n: nat)
    requires i <= |s|
    ensures i <= n <= |s|
    decreases |s| - i
  {
    if i < |s| && IsIdentPart(s[i]) then WordEnd(s, i + 1) else i
  }

  /** The position just after the first `*` `/` from `i`, which closes a block comment. */
  function CommentEnd(s: string, i: nat): (r: Option<nat>)
    requires i <= |s|
    ensures r.Some? ==> i + 2 <= r.value <= |s|
    decreases |s| - i
  {
    if i + 1 >= |s| then None
    else if s[i] == '*' && s[i + 1] == '/' then Some(i + 2)
    else CommentEnd(s, i + 1)
  }

  /** `//` and the browsers' `<!--` comment out the rest of the line. */
  predicate LineComment(s: string) {
    s != [] && ((s[0] == '/' && At(s, 1) == '/') || (s[0] == '<' && At(s, 1) == '!' && At(s, 2) == '-' && At(s, 3) == '-'))
  }

  predicate BlockComment(s: string) { s != [] && s[0] == '/' && At(s, 1) == '*' }

  function Then(u: seq<Sym>, r: Option<seq<Sym>>): Option<seq<Sym>> {
    match r
    case None => None
    case Some(w) => Some(u + w)
  }

  /** The string as JavaScript's lexer reads it, or `None` for a syntax error (or an
      unknown name): a numeral is a maximal run of digits, which strict-mode code refuses
      to start with `0` unless it is `0` itself and which no letter may follow; a name must
      be `NaN`; comments vanish; a punctuator is the longest that matches. */
  function Scan(s: string): Option<seq<Sym>>
    decreases |s|, 1
  {
    if s == [] then Some([])
    else if IsDigit(s[0]) then ScanNumeral(s)
    else ScanOther(s)
  }

  /** A numeral at the start of `s`: no leading zero, and no letter right after it. */
  function ScanNumeral(s: string): Option<seq<Sym>>
    requires s != []
    decreases |s|, 0
  {
    var n := DigitEnd(s, 1);
    if n > 1 && s[0] == '0' then None
    else if n < |s| && IsIdentPart(s[n]) then None
    else Then([Number(FromInt(DigitsValue(s[..n], 10)))], Scan(s[n..]))
  }

  /** A word, a comment or a punctuator at the start of `s`. */
  function ScanOther(s: string): Option<seq<Sym>>
    requires s != []
    decreases |s|, 0
  {
    if IsLetter(s[0]) then
      var n := WordEnd(s, 1);
      if s[..n] == "NaN" then Then([Number(NaN)], Scan(s[n..]))
      else if s[..n] == "undefined" then Then([Number(Undef)], Scan(s[n..]))
      else None
    else if LineComment(s) then Some([])
    else if BlockComment(s) then
      match CommentEnd(s, 2)
      case None => None
      case Some(e) => Scan(s[e..])
    else
      var n := PunctLength(s);
      if n == 0 then None else Then([Punct(OpOf(s[..n]))], Scan(s[n..]))
  }

  // ---------------------------------------------------------------------------
  // the grammar, by precedence climbing

  /** The binary precedence level of a symbol, tightest first, as JavaScript's grammar
      nests them: multiplicative, additive, shift, relational, equality, `&`, `^`, `|`,
      `&&`, `||`; 0 when it is not a binary operator of these levels (`**` is read by
      `Power`). */
  function Prec(s: Sym): (p: nat)
    ensures p <= 10
  {
    if !s.Punct? then 0
    else match s.o
      case Star => 1 case Slash => 1
      case Plus => 2 case Dash => 2
      case LtLt => 3 case GtGt => 3 case GtGtGt => 3
      case Lt => 4 case Gt => 4 case LtEq => 4 case GtEq => 4
      case EqEq => 5 case NotEq => 5 case EqEqEq => 5 case NotEqEq => 5
      case Amp => 6
      case Caret => 7
      case Bar => 8
      case AndAnd => 9
      case OrOr => 10
      case _ => 0
  }

  predicate IsPrefix(s: Sym) { s.Punct? && (s.o == Dash || s.o == Plus || s.o == Tilde || s.o == Bang) }

  /** A primary expression from `pos`: a number, or an expression in brackets. */
  function Primary(t: seq<Sym>, pos: nat): (r: Option<(Num, nat)>)
    requires pos <= |t|
    ensures r.Some? ==> pos < r.value.1 <= |t|
    decreases |t| - pos, 0, 0
  {
    if pos == |t| then None
    else if t[pos].Number? then Some((t[pos].x, pos + 1))
    else if t[pos] == Punct(LParen) then
      match Level(t, pos + 1, 10)
      case None => None
      case Some((x, p)) => if p < |t| && t[p] == Punct(RParen) then Some((x, p + 1)) else None
    else None
  }

  /** A unary expression: prefix operators, then a primary expression. */
  function Prefixed(t: seq<Sym>, pos: nat): (r: Option<(Num, nat)>)
    requires pos <= |t|
    ensures r.Some? ==> pos < r.value.1 <= |t|
    decreases |t| - pos, 0, 1
  {
    if pos < |t| && IsPrefix(t[pos]) then
      match Prefixed(t, pos + 1)
      case None => None
      case Some((x, p)) => Some((Unary(t[pos].o, x), p))
    else Primary(t, pos)
  }

  /** An exponentiation: `**` groups to the right, and its left operand may not carry a
      prefix operator (`-2 ** 2` is a syntax error, which leaves the `**` unread). */
  function Power(t: seq<Sym>, pos: nat): (r: Option<(Num, nat)>)
    requires pos <= |t|
    ensures r.Some? ==> pos < r.value.1 <= |t|
    decreases |t| - pos, 0, 2
  {
    if pos < |t| && IsPrefix(t[pos]) then Prefixed(t, pos)
    else match Primary(t, pos)
      case None => None
      case Some((x, p)) =>
        if p < |t| && t[p] == Punct(StarStar) then
          match Power(t, p + 1)
          case None => None
          case Some((y, q)) => Some((Binary(StarStar, x, y), q))
        else Some((x, p))
  }

  /** An expression whose binary operators all bind at least as tightly as `lvl`. */
  function Level(t: seq<Sym>, pos: nat, lvl: nat): (r: Option<(Num, nat)>)
    requires pos <= |t| && lvl <= 10
    ensures r.Some? ==> pos < r.value.1 <= |t|
    decreases |t| - pos, lvl, 4
  {
    if lvl == 0 then Power(t, pos)
    else match Level(t, pos, lvl - 1)
      case None => None
      case Some((x, p)) => Chain(t, p, lvl, x)
  }

  /** The left-associative chain of operators of precedence `lvl` after the value `acc`. */
  function Chain(t: seq<Sym>, pos: nat, lvl: nat, acc: Num): (r: Option<(Num, nat)>)
    requires pos <= |t| && 1 <= lvl <= 10
    ensures r.Some? ==> pos <= r.value.1 <= |t|
    decreases |t| - pos, lvl, 3
  {
    if pos < |t| && Prec(t[pos]) == lvl then
      match Level(t, pos + 1, lvl - 1)
      case None => None
      case Some((y, p)) => Chain(t, p, lvl, Binary(t[pos].o, acc, y))
    else Some((acc, pos))
  }

  /** `eval` of a string: a program of one expression statement, whose value is the
      expression's; an empty program (nothing but comments) is `undefined`, which floors to
      `NaN`. */
  function Read(s: string): Option<Num> {
    match Scan(s)
    case None => None
    case Some(u) =>
      if u == [] then Some(Undef)
      else match Level(u, 0, 10)
        case None => None
        case Some((x, p)) => if p == |u| then Some(x) else None
  }

  /** The run read as `eval` reads it: through its concatenated text. */
  function Parse(t: seq<Token>): Option<Num> { Read(Joined(t)) }

  /** `Math.floor` of the value, with `true` already 1 (and `false` 0): a number token's
      value. */
  function Floor(x: Num): Value {
    var y := Numeric(x);
    if y.Fin? then VInt(y.r.Floor) else VNaN
  }

  /** `eval` of a run, floored; a run that does not read as an expression is an error. */
  function EvalRun(t: seq<Token>, line: int): Result<Value> {
    match Parse(t)
    case None => Err(Error(EvalError, line))
    case Some(x) => Ok(Floor(x))
  }

  // ---------------------------------------------------------------------------
  // the splice

  /** The number of `MATH` tokens at the start of `t`. */
  function RunLength(t: seq<Token>): (n: nat)
    ensures n <= |t|
    ensures forall j :: 0 <= j < n ==> IsMath(t[j].kind)
    ensures n < |t| ==> !IsMath(t[n].kind)
  {
    if t == [] || !IsMath(t[0].kind) then 0 else 1 + RunLength(t[1..])
  }

  function Cons(toks: seq<Token>, r: Result<seq<Token>>): Result<seq<Token>> {
    match r
    case Ok(rest) => Ok(toks + rest)
    case Err(e) => Err(e)
  }

  /** `evaluateExpression`: every maximal run of `MATH` tokens replaced by one `INT` token
      holding its value; the first run that fails to evaluate is the error. */
  function Collapse(t: seq<Token>, line: int): Result<seq<Token>>
    decreases |t|
  {
    if t == [] then Ok([])
    else if !IsMath(t[0].kind) then Cons([t[0]], Collapse(t[1..], line))
    else
      var n := RunLength(t);
      match EvalRun(t[..n], line)
      case Err(e) => Err(e)
      case Ok(v) => Cons([Token(INT, v)], Collapse(t[n..], line))
  }

  /** The tokens that are not part of an expression. */
  function Others(t: seq<Token>): seq<Token> {
    if t == [] then [] else (if IsMath(t[0].kind) then [] else [t[0]]) + Others(t[1..])
  }

  /** After the splice no two `MATH` tokens are neighbours, and every one left is an `INT`. */
  predicate Collapsed(t: seq<Token>) {
    && (forall i :: 0 <= i < |t| && IsMath(t[i].kind) ==> t[i].kind == INT)
    && (forall i :: 0 <= i < |t| - 1 && IsMath(t[i].kind) ==> !IsMath(t[i + 1].kind))
  }

  lemma OthersAppend(a: seq<Token>, b: seq<Token>)
    ensures Others(a + b) == Others(a) + Others(b)
  {
    if a != [] {
      assert (a + b)[0] == a[0];
      assert (a + b)[1..] == a[1..] + b;
      OthersAppend(a[1..], b);
    } else {
      assert a + b == b;
    }
  }

  lemma {:induction false} OthersOfRun(t: seq<Token>, n: nat)
    requires n <= |t| && forall j :: 0 <= j < n ==> IsMath(t[j].kind)
    ensures Others(t[..n]) == []
    decreases n
  {
    if n > 0 {
      assert t[..n][1..] == t[1..][..n - 1];
      OthersOfRun(t[1..], n - 1);
    }
  }

  /** The splice keeps every token that is not part of an expression, in order, and leaves
      the line collapsed. */
  lemma {:induction false} CollapseKeepsOthers(t: seq<Token>, line: int)
    ensures Collapse(t, line).Ok? ==>
              Others(Collapse(t, line).value) == Others(t) && Collapsed(Collapse(t, line).value)
    ensures Collapse(t, line).Ok? && t != [] ==> Collapse(t, line).value != []
    decreases |t|
  {
    if t != [] && Collapse(t, line).Ok? {
      var u := Collapse(t, line).value;
      if !IsMath(t[0].kind) {
        CollapseKeepsOthers(t[1..], line);
        KeepOther(t, Collapse(t[1..], line).value);
      } else {
        var n := RunLength(t);
        CollapseKeepsOthers(t[n..], line);
        var rest := Collapse(t[n..], line).value;
        if n < |t| {
          assert rest[0] == t[n];
        } else {
          assert t[n..] == [];
        }
        KeepRun(t, n, EvalRun(t[..n], line).value, rest);
      }
    }
  }

  /** A token outside any expression stays in front of the rest of the splice. */
  lemma KeepOther(t: seq<Token>, rest: seq<Token>)
    requires t != [] && !IsMath(t[0].kind)
    requires Others(rest) == Others(t[1..]) && Collapsed(rest)
    ensures Others([t[0]] + rest) == Others(t) && Collapsed([t[0]] + rest)
  {
    OthersAppend([t[0]], rest);
    assert t == [t[0]] + t[1..];
    OthersAppend([t[0]], t[1..]);
    CollapsedCons(t[0], rest);
  }

  /** A run of `n` expression tokens becomes one `INT` token in front of the rest. */
  lemma KeepRun(t: seq<Token>, n: nat, v: Value, rest: seq<Token>)
    requires 0 < n <= |t| && forall j :: 0 <= j < n ==> IsMath(t[j].kind)
    requires n < |t| ==> !IsMath(t[n].kind) && rest != [] && rest[0] == t[n]
    requires n == |t| ==> rest == []
    requires Others(rest) == Others(t[n..]) && Collapsed(rest)
    ensures Others([Token(INT, v)] + rest) == Others(t) && Collapsed([Token(INT, v)] + rest)
  {
    OthersAppend([Token(INT, v)], rest);
    assert t == t[..n] + t[n..];
    OthersAppend(t[..n], t[n..]);
    OthersOfRun(t, n);
    assert rest != [] ==> !IsMath(rest[0].kind);
    CollapsedCons(Token(INT, v), rest);
  }

  lemma {:induction false} CollapseFront(t: seq<Token>, line: int)
    requires Collapse(t, line).Ok? && t != []
    ensures IsMath(Collapse(t, line).value[0].kind) ==> IsMath(t[0].kind)
  {
    CollapseKeepsOthers(t, line);
    if t != [] && !IsMath(t[0].kind) {
      assert Collapse(t, line).value[0] == t[0];
    }
  }

  lemma CollapsedCons(x: Token, rest: seq<Token>)
    requires Collapsed(rest)
    requires IsMath(x.kind) ==> x.kind == INT && (rest != [] ==> !IsMath(rest[0].kind))
    ensures Collapsed([x] + rest)
  {
    var u := [x] + rest;
    forall i | 0 <= i < |u| - 1 && IsMath(u[i].kind)
      ensures !IsMath(u[i + 1].kind)
    {
      if i > 0 { assert u[i] == rest[i - 1] && u[i + 1] == rest[i]; }
    }
  }

  /** `evaluateExpression`: the in-place splice loop over the line. */
  method EvaluateExpression(line: seq<Token>, number: int) returns (r: Result<seq<Token>>)
    ensures r == Collapse(line, number)
  {
    var toks := line;
    var i := 0;
    var inRun := false;
    var start := 0;
    assert toks[..0] == [] && toks[0..] == line;
    ConsNothing(Collapse(line, number));
    while i < |toks|
      invariant i <= |toks|
      invariant !inRun ==> Collapse(line, number) == Cons(toks[..i], Collapse(toks[i..], number))
      invariant inRun ==> start < i && Collapse(line, number) == Cons(toks[..start], Collapse(toks[start..], number))
      invariant inRun ==> forall j :: start <= j < i ==> IsMath(toks[j].kind)
      decreases |toks| - i, if inRun then 1 else 0
    {
      if IsMath(toks[i].kind) {
        if !inRun {
          start := i;
          inRun := true;
        }
        i := i + 1;
      } else if inRun {
        var v := EvalRun(toks[start..i], number);
        SpliceRun(toks, start, i, number);
        if v.Err? {
          return Err(v.error);
        }
        toks := toks[..start] + [Token(INT, v.value)] + toks[i..];
        inRun := false;
        i := start + 1;
      } else {
        StepOver(toks, i, number);
        i := i + 1;
      }
    }
    if inRun {
      var v := EvalRun(toks[start..], number);
      SpliceLastRun(toks, start, number);
      if v.Err? {
        return Err(v.error);
      }
      toks := toks[..start] + [Token(INT, v.value)];
    } else {
      assert toks[i..] == [] && toks[..i] == toks;
      assert toks + [] == toks;
    }
    return Ok(toks);
  }

  /** Passing a token that is not part of an expression. */
  lemma StepOver(toks: seq<Token>, i: nat, number: int)
    requires i < |toks| && !IsMath(toks[i].kind)
    ensures Cons(toks[..i], Collapse(toks[i..], number)) == Cons(toks[..i + 1], Collapse(toks[i + 1..], number))
  {
    assert toks[..i + 1] == toks[..i] + [toks[i]];
    assert toks[i..][1..] == toks[i + 1..];
    ConsTwice(toks[..i], [toks[i]], Collapse(toks[i + 1..], number));
  }

  /** Replacing the run `toks[start..i]`, which a non-expression token ends, by its value. */
  lemma SpliceRun(toks: seq<Token>, start: nat, i: nat, number: int)
    requires start < i < |toks| && !IsMath(toks[i].kind)
    requires forall j :: start <= j < i ==> IsMath(toks[j].kind)
    ensures EvalRun(toks[start..i], number).Err? ==>
              Cons(toks[..start], Collapse(toks[start..], number)) == Err(EvalRun(toks[start..i], number).error)
    ensures EvalRun(toks[start..i], number).Ok? ==>
              var u := toks[..start] + [Token(INT, EvalRun(toks[start..i], number).value)] + toks[i..];
              Cons(toks[..start], Collapse(toks[start..], number)) == Cons(u[..start + 1], Collapse(u[start + 1..], number))
  {
    RunIs(toks[start..], i - start);
    assert toks[start..][..i - start] == toks[start..i];
    assert toks[start..][i - start..] == toks[i..];
    var v := EvalRun(toks[start..i], number);
    if v.Ok? {
      var u := toks[..start] + [Token(INT, v.value)] + toks[i..];
      assert u[..start + 1] == toks[..start] + [Token(INT, v.value)];
      assert u[start + 1..] == toks[i..];
      ConsTwice(toks[..start], [Token(INT, v.value)], Collapse(toks[i..], number));
    }
  }

  /** Replacing the run that reaches the end of the line by its value. */
  lemma SpliceLastRun(toks: seq<Token>, start: nat, number: int)
    requires start < |toks|
    requires forall j :: start <= j < |toks| ==> IsMath(toks[j].kind)
    ensures EvalRun(toks[start..], number).Err? ==>
              Cons(toks[..start], Collapse(toks[start..], number)) == Err(EvalRun(toks[start..], number).error)
    ensures EvalRun(toks[start..], number).Ok? ==>
              Cons(toks[..start], Collapse(toks[start..], number)) == Ok(toks[..start] + [Token(INT, EvalRun(toks[start..], number).value)])
  {
    RunIs(toks[start..], |toks| - start);
    assert toks[start..][..|toks| - start] == toks[start..];
    assert toks[start..][|toks| - start..] == [];
    var v := EvalRun(toks[start..], number);
    assert toks[start..][0] == toks[start];
    if v.Ok? {
      assert Collapse(toks[start..], number) == Ok([Token(INT, v.value)] + []);
      assert [Token(INT, v.value)] + [] == [Token(INT, v.value)];
    }
  }

  lemma {:induction false} RunIs(t: seq<Token>, n: nat)
    requires n <= |t| && (forall j :: 0 <= j < n ==> IsMath(t[j].kind))
    requires n < |t| ==> !IsMath(t[n].kind)
    ensures RunLength(t) == n
    decreases n
  {
    if n > 0 {
      RunIs(t[1..], n - 1);
    }
  }

  lemma ConsNothing(r: Result<seq<Token>>)
    ensures Cons([], r) == r
  {
    if r.Ok? { assert [] + r.value == r.value; }
  }

  lemma ConsTwice(a: seq<Token>, b: seq<Token>, r: Result<seq<Token>>)
    ensures Cons(a, Cons(b, r)) == Cons(a + b, r)
  {
    if r.Ok? { assert a + (b + r.value) == (a + b) + r.value; }
  }


  // ---------------------------------------------------------------------------
  // reading the text

  /** A number token, as a run holds it. */
  function NumberToken(n: int): Token { Token(INT, VInt(n)) }

  /** An operator token, with the text the lexer gives it. */
  function OperatorToken(k: Kind): Token { Token(k, VStr(OperatorText(k))) }

  /** The run's text is the texts of its parts, in order. */
  lemma {:induction false} JoinedAppend(a: seq<Token>, b: seq<Token>)
    ensures Joined(a + b) == Joined(a) + Joined(b)
    decreases |a|
  {
    if a == [] {
      assert a + b == b;
    } else {
      assert (a + b)[1..] == a[1..] + b;
      JoinedAppend(a[1..], b);
    }
  }

  lemma JoinedOne(x: Token)
    ensures Joined([x]) == ValueText(x.value)
  {
    assert [x][1..] == [];
  }

  /** The text of a number, two tokens and a number. */
  lemma JoinedFour(a: int, x: Token, y: Token, b: int)
    ensures Joined([NumberToken(a), x, y, NumberToken(b)])
            == IntToString(a) + (ValueText(x.value) + ValueText(y.value)) + IntToString(b)
  {
    assert [NumberToken(a), x, y, NumberToken(b)] == [NumberToken(a)] + [x] + [y] + [NumberToken(b)];
    JoinedAppend([NumberToken(a)] + [x] + [y], [NumberToken(b)]);
    JoinedAppend([NumberToken(a)] + [x], [y]);
    JoinedAppend([NumberToken(a)], [x]);
    JoinedOne(NumberToken(a));
    JoinedOne(x);
    JoinedOne(y);
    JoinedOne(NumberToken(b));
  }

  /** The text of a number, a token and a number. */
  lemma JoinedThree(a: int, x: Token, b: int)
    ensures Joined([NumberToken(a), x, NumberToken(b)]) == IntToString(a) + ValueText(x.value) + IntToString(b)
  {
    assert [NumberToken(a), x, NumberToken(b)] == [NumberToken(a)] + [x] + [NumberToken(b)];
    JoinedAppend([NumberToken(a)] + [x], [NumberToken(b)]);
    JoinedAppend([NumberToken(a)], [x]);
    JoinedOne(NumberToken(a));
    JoinedOne(x);
    JoinedOne(NumberToken(b));
  }

  lemma ThenThen(u: seq<Sym>, v: seq<Sym>, r: Option<seq<Sym>>)
    ensures Then(u, Then(v, r)) == Then(u + v, r)
  {
    if r.Some? {
      assert u + (v + r.value) == (u + v) + r.value;
    }
  }

  lemma {:induction false} DigitEndOf(d: string, rest: string, i: nat)
    requires i <= |d| && forall j :: 0 <= j < |d| ==> IsDigit(d[j])
    requires rest == [] || !IsDigit(rest[0])
    ensures DigitEnd(d + rest, i) == |d|
    decreases |d| - i
  {
    if i < |d| {
      assert (d + rest)[i] == d[i];
      DigitEndOf(d, rest, i + 1);
    } else if rest != [] {
      assert (d + rest)[|d|] == rest[0];
    }
  }

  /** A run of digits that does not start with `0` (unless it is `0` alone), with no
      identifier character after it, scans as the number it denotes. */
  lemma ScanDigits(d: string, rest: string)
    requires d != [] && (forall j :: 0 <= j < |d| ==> IsDigit(d[j])) && (d[0] != '0' || |d| == 1)
    requires rest == [] || !IsIdentPart(rest[0])
    ensures Scan(d + rest) == Then([Number(FromInt(DigitsValue(d, 10)))], Scan(rest))
  {
    var s := d + rest;
    DigitEndOf(d, rest, 1);
    assert s[..|d|] == d && s[|d|..] == rest;
    assert s[0] == d[0];
  }

  /** A punctuator that starts no comment scans as itself. */
  lemma ScanPunct(s: string)
    requires s != [] && !IsDigit(s[0]) && !IsLetter(s[0]) && !LineComment(s) && !BlockComment(s)
    requires PunctLength(s) > 0
    ensures Scan(s) == Then([Punct(OpOf(s[..PunctLength(s)]))], Scan(s[PunctLength(s)..]))
  {
  }

  /** The symbols a number's text reads as: its digits, after a `-` when it is negative. */
  function IntSyms(n: int): (u: seq<Sym>)
    ensures |u| == if n < 0 then 2 else 1
  {
    if n < 0 then [Punct(Dash), Number(FromInt(-n))] else [Number(FromInt(n))]
  }

  /** A natural number's printed text scans back as the number. */
  lemma ScanNat(k: nat, rest: string)
    requires rest == [] || !IsIdentPart(rest[0])
    ensures Scan(NatToString(k) + rest) == Then([Number(FromInt(k))], Scan(rest))
  {
    if k == 0 {
      assert NatToString(k) == "0";
    }
    ScanDigits(NatToString(k), rest);
  }

  /** A `-` before a digit scans as the minus sign. */
  lemma ScanDash(s: string)
    requires |s| >= 2 && s[0] == '-' && IsDigit(s[1])
    ensures Scan(s) == Then([Punct(Dash)], Scan(s[1..]))
  {
    assert At(s, 1) == s[1];
    assert PunctLength(s) == 1;
    assert OpOf(s[..1]) == Dash by {
      assert s[..1] == "-";
    }
    ScanPunct(s);
  }

  /** A negative number's printed text scans as `-` and the number's magnitude. */
  lemma ScanNegative(k: nat, rest: string)
    requires k > 0 && (rest == [] || !IsIdentPart(rest[0]))
    ensures Scan("-" + (NatToString(k) + rest)) == Then([Punct(Dash), Number(FromInt(k))], Scan(rest))
  {
    var d := NatToString(k);
    var s := "-" + (d + rest);
    assert IsDigit(d[0]);
    assert s[1] == d[0] && s[1..] == d + rest;
    ScanDash(s);
    ScanNat(k, rest);
    assert Scan(s) == Then([Punct(Dash)], Then([Number(FromInt(k))], Scan(rest)));
    ThenThen([Punct(Dash)], [Number(FromInt(k))], Scan(rest));
    assert [Punct(Dash)] + [Number(FromInt(k))] == [Punct(Dash), Number(FromInt(k))];
  }

  lemma Associative(x: string, y: string, z: string)
    ensures (x + y) + z == x + (y + z)
  {
  }

  /** A number's printed text scans back as the number, when no identifier character
      follows it. */
  lemma ScanInt(n: int, rest: string)
    requires rest == [] || !IsIdentPart(rest[0])
    ensures Scan(IntToString(n) + rest) == Then(IntSyms(n), Scan(rest))
  {
    if n < 0 {
      ScanNegativeInt(n, rest);
    } else {
      ScanNat(n, rest);
    }
  }

  lemma SameScan(s1: string, s2: string)
    requires s1 == s2
    ensures Scan(s1) == Scan(s2)
  {
  }

  lemma NegativeIntText(n: int, rest: string)
    requires n < 0
    ensures IntToString(n) + rest == "-" + (NatToString(-n) + rest)
  {
    var d := NatToString(-n);
    assert IntToString(n) == "-" + d;
    Associative("-", d, rest);
  }

  lemma ScanNegativeInt(n: int, rest: string)
    requires n < 0 && (rest == [] || !IsIdentPart(rest[0]))
    ensures Scan(IntToString(n) + rest) == Then(IntSyms(n), Scan(rest))
  {
    var s := "-" + (NatToString(-n) + rest);
    var u := [Punct(Dash), Number(FromInt(-n))];
    NegativeIntText(n, rest);
    ScanNegative(-n, rest);
    assert IntSyms(n) == u;
    ScanTransfer(IntToString(n) + rest, s, IntSyms(n), u, Scan(rest));
  }

  lemma ScanTransfer(s1: string, s2: string, u1: seq<Sym>, u2: seq<Sym>, r: Option<seq<Sym>>)
    requires s1 == s2 && u1 == u2 && Scan(s2) == Then(u2, r)
    ensures Scan(s1) == Then(u1, r)
  {
  }

  /** The binary operators' texts: each starts with a character that is neither a digit nor
      a letter, and each names an operator with a precedence level. */
  lemma OperatorShape(op: string)
    requires op in BinaryTexts || op == "**"
    ensures op != [] && !IsIdentPart(op[0]) && !IsDigit(op[0]) && !IsLetter(op[0])
    ensures op in BinaryTexts ==> 1 <= Prec(Punct(OpOf(op)))
    ensures op == "**" ==> OpOf(op) == StarStar
  {
  }

  /** The longest punctuator at the start of an operator's text and a number's is the
      operator, and it starts no comment. */
  lemma OperatorLength(op: string, rest: string)
    requires op in BinaryTexts || op == "**"
    requires rest != [] && (IsDigit(rest[0]) || (rest[0] == '-' && op != "-"))
    ensures PunctLength(op + rest) == |op| && !LineComment(op + rest) && !BlockComment(op + rest)
  {
    var s := op + rest;
    var c := rest[0];
    assert s[0] == op[0];
    if |op| == 1 {
      assert At(s, 1) == c;
    } else if |op| == 2 {
      assert At(s, 1) == op[1] && At(s, 2) == c;
    } else {
      assert At(s, 1) == op[1] && At(s, 2) == op[2] && At(s, 3) == c;
    }
  }

  /** An operator's text before a number's text scans as that one punctuator, unless a `-`
      meets a negative number (which makes `--`). */
  lemma ScanOperator(op: string, rest: string)
    requires op in BinaryTexts || op == "**"
    requires rest != [] && (IsDigit(rest[0]) || (rest[0] == '-' && op != "-"))
    ensures Scan(op + rest) == Then([Punct(OpOf(op))], Scan(rest))
  {
    var s := op + rest;
    OperatorShape(op);
    OperatorLength(op, rest);
    assert s[0] == op[0];
    assert s[..|op|] == op && s[|op|..] == rest;
    ScanPunct(s);
  }

  /** The first character of a number's text is a digit or `-`. */
  lemma IntTextStart(n: int)
    ensures IntToString(n) != [] && (IsDigit(IntToString(n)[0]) || IntToString(n)[0] == '-')
    ensures IntToString(n)[0] == '-' <==> n < 0
  {
  }

  /** `a op b` as text scans as the two numbers around the operator. */
  lemma ScanBinary(a: int, op: string, b: int)
    requires (op in BinaryTexts || op == "**") && !(op == "-" && b < 0)
    ensures Scan(IntToString(a) + op + IntToString(b)) == Some(IntSyms(a) + [Punct(OpOf(op))] + IntSyms(b))
  {
    var sb := IntToString(b);
    ScanOperand(op, b);
    OperatorShape(op);
    assert (op + sb)[0] == op[0];
    ScanInt(a, op + sb);
    Associative(IntToString(a), op, sb);
    SameScan(IntToString(a) + op + sb, IntToString(a) + (op + sb));
    assert IntSyms(a) + ([Punct(OpOf(op))] + IntSyms(b)) == IntSyms(a) + [Punct(OpOf(op))] + IntSyms(b);
  }

  /** An operator's text and a number's scan as the operator and the number. */
  lemma ScanOperand(op: string, b: int)
    requires (op in BinaryTexts || op == "**") && !(op == "-" && b < 0)
    ensures Scan(op + IntToString(b)) == Some([Punct(OpOf(op))] + IntSyms(b))
  {
    var sb := IntToString(b);
    IntTextStart(b);
    ScanLoneInt(b);
    ScanOperator(op, sb);
  }

  /** A number's text alone scans as its symbols. */
  lemma ScanLoneInt(b: int)
    ensures Scan(IntToString(b)) == Some(IntSyms(b))
  {
    var sb := IntToString(b);
    ScanInt(b, []);
    assert sb + [] == sb;
    SameScan(sb + [], sb);
    assert IntSyms(b) + [] == IntSyms(b);
  }

  // ---------------------------------------------------------------------------
  // reading the grammar

  /** A number, negated or not, that no operator of level `lvl` or tighter follows (and no
      `**` after a number that is not negated) reads as itself at level `lvl`. */
  lemma {:induction false} LevelOfInt(u: seq<Sym>, pos: nat, lvl: nat, n: int)
    requires lvl <= 10 && pos + |IntSyms(n)| <= |u| && u[pos..pos + |IntSyms(n)|] == IntSyms(n)
    requires var q := pos + |IntSyms(n)|;
             q == |u| || ((Prec(u[q]) == 0 || Prec(u[q]) > lvl) && (n < 0 || u[q] != Punct(StarStar)))
    ensures Level(u, pos, lvl) == Some((FromInt(n), pos + |IntSyms(n)|))
    decreases lvl
  {
    var q := pos + |IntSyms(n)|;
    if lvl > 0 {
      LevelOfInt(u, pos, lvl - 1, n);
      assert Chain(u, q, lvl, FromInt(n)) == Some((FromInt(n), q));
    } else if n < 0 {
      assert u[pos] == u[pos..q][0] == Punct(Dash);
      assert u[pos + 1] == u[pos..q][1] == Number(FromInt(-n));
      assert Primary(u, pos + 1) == Some((FromInt(-n), q));
      assert Prefixed(u, pos + 1) == Some((FromInt(-n), q));
      assert Unary(Dash, FromInt(-n)) == FromInt(n);
      assert Prefixed(u, pos) == Some((FromInt(n), q));
      assert Power(u, pos) == Some((FromInt(n), q));
    } else {
      assert u[pos] == u[pos..q][0] == Number(FromInt(n));
      assert Primary(u, pos) == Some((FromInt(n), q));
      assert Power(u, pos) == Some((FromInt(n), q));
    }
  }

  lemma ChainOnce(u: seq<Sym>, i: nat, p: nat, a: Num, b: Num)
    requires i < |u| && 1 <= p <= 10 && Prec(u[i]) == p
    requires Level(u, 0, p - 1) == Some((a, i)) && Level(u, i + 1, p - 1) == Some((b, |u|))
    ensures Level(u, 0, p) == Some((Binary(u[i].o, a, b), |u|))
  {
    assert Chain(u, |u|, p, Binary(u[i].o, a, b)) == Some((Binary(u[i].o, a, b), |u|));
  }

  /** A reading at level `p` that stops at the end, before a symbol that is no binary
      operator, or before an operator looser than `l`, is also the reading at every level
      from `p` to `l`. */
  lemma {:induction false} LevelsClose(u: seq<Sym>, pos: nat, p: nat, l: nat, x: Num, q: nat)
    requires pos <= |u| && p <= l <= 10 && Level(u, pos, p) == Some((x, q))
    requires q == |u| || Prec(u[q]) <= p || Prec(u[q]) > l
    ensures Level(u, pos, l) == Some((x, q))
    decreases l - p
  {
    if l > p {
      LevelsClose(u, pos, p, l - 1, x, q);
    }
  }

  /** What `a o1 b o2 c` reads as: the tighter operator groups first, and two operators of
      one level group to the left. */
  function Grouped(o1: Op, o2: Op, a: Num, b: Num, c: Num): Num {
    if Prec(Punct(o2)) < Prec(Punct(o1)) then Binary(o1, a, Binary(o2, b, c))
    else Binary(o2, Binary(o1, a, b), c)
  }

  /** Where the parts of `a o1 b o2 c` sit in its symbols. */
  lemma FivePieces(a: int, o1: Op, b: int, o2: Op, c: int)
    ensures var u := IntSyms(a) + [Punct(o1)] + IntSyms(b) + [Punct(o2)] + IntSyms(c);
            var i := |IntSyms(a)|;
            var j := i + 1 + |IntSyms(b)|;
            && |u| == j + 1 + |IntSyms(c)| && u[i] == Punct(o1) && u[j] == Punct(o2)
            && u[0..i] == IntSyms(a) && u[i + 1..j] == IntSyms(b) && u[j + 1..|u|] == IntSyms(c)
  {
    var u := IntSyms(a) + [Punct(o1)] + IntSyms(b) + [Punct(o2)] + IntSyms(c);
    var i := |IntSyms(a)|;
    var j := i + 1 + |IntSyms(b)|;
    var front := IntSyms(a) + [Punct(o1)] + IntSyms(b);
    assert u == front + ([Punct(o2)] + IntSyms(c));
    assert u[..j] == front && u[j..] == [Punct(o2)] + IntSyms(c);
    assert u[i] == front[i];
    assert u[0..i] == front[0..i];
    assert u[i + 1..j] == front[i + 1..];
    assert u[j + 1..|u|] == u[j..][1..];
  }

  /** A chain stops before a symbol that is not an operator of its level. */
  lemma ChainStop(u: seq<Sym>, pos: nat, lvl: nat, acc: Num)
    requires pos <= |u| && 1 <= lvl <= 10 && (pos == |u| || Prec(u[pos]) != lvl)
    ensures Chain(u, pos, lvl, acc) == Some((acc, pos))
  {
  }

  /** A chain applies an operator of its level to the operand read after it. */
  lemma ChainStep(u: seq<Sym>, pos: nat, lvl: nat, acc: Num, y: Num, p: nat)
    requires pos < |u| && 1 <= lvl <= 10 && Prec(u[pos]) == lvl
    requires Level(u, pos + 1, lvl - 1) == Some((y, p))
    ensures Chain(u, pos, lvl, acc) == Chain(u, p, lvl, Binary(u[pos].o, acc, y))
  {
  }

  /** A level reads the next tighter level and then its own chain. */
  lemma LevelStep(u: seq<Sym>, pos: nat, lvl: nat, x: Num, p: nat)
    requires pos <= |u| && 1 <= lvl <= 10 && Level(u, pos, lvl - 1) == Some((x, p))
    ensures Level(u, pos, lvl) == Chain(u, p, lvl, x)
  {
  }

  /** The second operator binds tighter: `x o1 (y o2 z)`. */
  lemma GroupRight(u: seq<Sym>, i: nat, j: nat, x: Num, y: Num, z: Num)
    requires i < j < |u| && 1 <= Prec(u[j]) < Prec(u[i])
    requires Level(u, 0, Prec(u[i]) - 1) == Some((x, i))
    requires Level(u, i + 1, Prec(u[j]) - 1) == Some((y, j))
    requires Level(u, j + 1, Prec(u[j]) - 1) == Some((z, |u|))
    ensures Level(u, 0, 10) == Some((Binary(u[i].o, x, Binary(u[j].o, y, z)), |u|))
  {
    var p1 := Prec(u[i]);
    var yz := Binary(u[j].o, y, z);
    RightOperand(u, j, y, z, i + 1, p1 - 1);
    ChainOnce(u, i, p1, x, yz);
    LevelsClose(u, 0, p1, 10, Binary(u[i].o, x, yz), |u|);
  }

  /** `y o z` from `pos` to the end, with `o` no looser than `l`, reads as `y o z` at level
      `l`. */
  lemma RightOperand(u: seq<Sym>, j: nat, y: Num, z: Num, pos: nat, l: nat)
    requires pos < j < |u| && 1 <= Prec(u[j]) <= l <= 10
    requires Level(u, pos, Prec(u[j]) - 1) == Some((y, j))
    requires Level(u, j + 1, Prec(u[j]) - 1) == Some((z, |u|))
    ensures Level(u, pos, l) == Some((Binary(u[j].o, y, z), |u|))
  {
    var p := Prec(u[j]);
    var yz := Binary(u[j].o, y, z);
    ChainStop(u, |u|, p, yz);
    ChainStep(u, j, p, y, z, |u|);
    LevelStep(u, pos, p, y, j);
    LevelsClose(u, pos, p, l, yz, |u|);
  }

  /** The first operator binds at least as tightly: `(x o1 y) o2 z`. */
  lemma GroupLeft(u: seq<Sym>, i: nat, j: nat, x: Num, y: Num, z: Num)
    requires i < j < |u| && 1 <= Prec(u[i]) <= Prec(u[j])
    requires Level(u, 0, Prec(u[i]) - 1) == Some((x, i))
    requires Level(u, i + 1, Prec(u[i]) - 1) == Some((y, j))
    requires Level(u, j + 1, Prec(u[j]) - 1) == Some((z, |u|))
    ensures Level(u, 0, 10) == Some((Binary(u[j].o, Binary(u[i].o, x, y), z), |u|))
  {
    var p1, p2 := Prec(u[i]), Prec(u[j]);
    var xy := Binary(u[i].o, x, y);
    var r := Binary(u[j].o, xy, z);
    ChainStop(u, |u|, p2, r);
    if p1 == p2 {
      ChainStep(u, j, p1, xy, z, |u|);
      ChainStep(u, i, p1, x, y, j);
      LevelStep(u, 0, p1, x, i);
      LevelsClose(u, 0, p1, 10, r, |u|);
    } else {
      ChainStop(u, j, p1, xy);
      ChainStep(u, i, p1, x, y, j);
      LevelStep(u, 0, p1, x, i);
      LevelsClose(u, 0, p1, p2 - 1, xy, j);
      ChainStep(u, j, p2, xy, z, |u|);
      LevelStep(u, 0, p2, xy, j);
      LevelsClose(u, 0, p2, 10, r, |u|);
    }
  }

  /** Three numbers around two binary operators read by JavaScript's precedence and
      left associativity. */
  lemma TwoOperators(a: int, o1: Op, b: int, o2: Op, c: int)
    requires 1 <= Prec(Punct(o1)) && 1 <= Prec(Punct(o2))
    ensures var u := IntSyms(a) + [Punct(o1)] + IntSyms(b) + [Punct(o2)] + IntSyms(c);
            Level(u, 0, 10) == Some((Grouped(o1, o2, FromInt(a), FromInt(b), FromInt(c)), |u|))
  {
    var u := IntSyms(a) + [Punct(o1)] + IntSyms(b) + [Punct(o2)] + IntSyms(c);
    var i := |IntSyms(a)|;
    var j := i + 1 + |IntSyms(b)|;
    FivePieces(a, o1, b, o2, c);
    if Prec(Punct(o2)) < Prec(Punct(o1)) {
      IntsGroupRight(u, i, j, a, b, c);
    } else {
      IntsGroupLeft(u, i, j, a, b, c);
    }
  }

  lemma IntsGroupRight(u: seq<Sym>, i: nat, j: nat, a: int, b: int, c: int)
    requires i < j < |u| && 1 <= Prec(u[j]) < Prec(u[i])
    requires u[0..i] == IntSyms(a) && u[i + 1..j] == IntSyms(b) && u[j + 1..|u|] == IntSyms(c)
    ensures Level(u, 0, 10) == Some((Binary(u[i].o, FromInt(a), Binary(u[j].o, FromInt(b), FromInt(c))), |u|))
  {
    IntOperand(u, 0, i, Prec(u[i]) - 1, a);
    IntOperand(u, i + 1, j, Prec(u[j]) - 1, b);
    IntOperand(u, j + 1, |u|, Prec(u[j]) - 1, c);
    GroupRight(u, i, j, FromInt(a), FromInt(b), FromInt(c));
  }

  lemma IntsGroupLeft(u: seq<Sym>, i: nat, j: nat, a: int, b: int, c: int)
    requires i < j < |u| && 1 <= Prec(u[i]) <= Prec(u[j])
    requires u[0..i] == IntSyms(a) && u[i + 1..j] == IntSyms(b) && u[j + 1..|u|] == IntSyms(c)
    ensures Level(u, 0, 10) == Some((Binary(u[j].o, Binary(u[i].o, FromInt(a), FromInt(b)), FromInt(c)), |u|))
  {
    IntOperand(u, 0, i, Prec(u[i]) - 1, a);
    IntOperand(u, i + 1, j, Prec(u[i]) - 1, b);
    IntOperand(u, j + 1, |u|, Prec(u[j]) - 1, c);
    GroupLeft(u, i, j, FromInt(a), FromInt(b), FromInt(c));
  }

  /** A number from `pos` to `q` that the end or a binary operator looser than `lvl`
      follows reads as itself at level `lvl`. */
  lemma IntOperand(u: seq<Sym>, pos: nat, q: nat, lvl: nat, n: int)
    requires pos <= q <= |u| && lvl <= 10 && u[pos..q] == IntSyms(n)
    requires q == |u| || Prec(u[q]) > lvl
    ensures Level(u, pos, lvl) == Some((FromInt(n), q))
  {
    assert q == pos + |IntSyms(n)|;
    assert q < |u| ==> u[q] != Punct(StarStar);
    LevelOfInt(u, pos, lvl, n);
  }

  /** Two numbers around a binary operator read as the operator applied to them. */
  lemma ParseBinary(a: int, o: Op, b: int)
    requires 1 <= Prec(Punct(o))
    ensures var u := IntSyms(a) + [Punct(o)] + IntSyms(b);
            Level(u, 0, 10) == Some((Binary(o, FromInt(a), FromInt(b)), |u|))
  {
    var u := IntSyms(a) + [Punct(o)] + IntSyms(b);
    var i := |IntSyms(a)|;
    var p := Prec(Punct(o));
    var front := IntSyms(a) + [Punct(o)];
    assert u == front + IntSyms(b);
    assert u[..i + 1] == front && u[i + 1..] == IntSyms(b);
    assert u[i] == front[i] == Punct(o);
    assert u[0..i] == front[..i] == IntSyms(a);
    assert u[i + 1..|u|] == u[i + 1..];
    IntOperand(u, 0, i, p - 1, a);
    IntOperand(u, i + 1, |u|, p - 1, b);
    ChainOnce(u, i, p, FromInt(a), FromInt(b));
    LevelsClose(u, 0, p, 10, Binary(o, FromInt(a), FromInt(b)), |u|);
  }

  /** `a op b` as text: the operator applied to the two numbers. */
  lemma ReadBinary(a: int, op: string, b: int)
    requires op in BinaryTexts && !(op == "-" && b < 0)
    ensures Read(IntToString(a) + op + IntToString(b)) == Some(Binary(OpOf(op), FromInt(a), FromInt(b)))
  {
    ScanBinary(a, op, b);
    OperatorShape(op);
    ParseBinary(a, OpOf(op), b);
  }

  // ---------------------------------------------------------------------------
  // what an expression means

  /** Only the concatenated text matters: two runs that spell the same string evaluate
      alike, however the tokens divide it. */
  lemma SameTextSameValue(t1: seq<Token>, t2: seq<Token>, line: int)
    requires Joined(t1) == Joined(t2)
    ensures EvalRun(t1, line) == EvalRun(t2, line)
  {
  }

  /** A lone number is its own value. */
  lemma LoneNumber(n: int, line: int)
    ensures EvalRun([NumberToken(n)], line) == Ok(VInt(n))
  {
    JoinedOne(NumberToken(n));
    ScanInt(n, []);
    assert IntToString(n) + [] == IntToString(n);
    var u := IntSyms(n) + [];
    assert u[0..|u|] == IntSyms(n);
    LevelOfInt(u, 0, 10, n);
  }

  /** Two numbers around one binary operator combine by that operator: `a op b`, floored;
      `a` `-` `b` needs `b` not negative (otherwise the text holds `--`). */
  lemma OperatorApplies(a: int, k: Kind, b: int, line: int)
    requires OperatorText(k) in BinaryTexts && !(k == MINUS && b < 0)
    ensures EvalRun([NumberToken(a), OperatorToken(k), NumberToken(b)], line)
            == Ok(Floor(Binary(OpOf(OperatorText(k)), FromInt(a), FromInt(b))))
  {
    assert OperatorText(k) == "-" ==> k == MINUS;
    JoinedThree(a, OperatorToken(k), b);
    ReadBinary(a, OperatorText(k), b);
  }

  /** A number and an operator in front of a scanned text that starts a number. */
  lemma ScanInFront(a: int, op: string, r: string, w: seq<Sym>)
    requires op in BinaryTexts && Scan(r) == Some(w)
    requires r != [] && (IsDigit(r[0]) || (r[0] == '-' && op != "-"))
    ensures Scan(IntToString(a) + op + r) == Some(IntSyms(a) + [Punct(OpOf(op))] + w)
  {
    var sa := IntToString(a);
    ScanOperator(op, r);
    OperatorShape(op);
    assert (op + r)[0] == op[0];
    ScanInt(a, op + r);
    Associative(sa, op, r);
    SameScan(sa + op + r, sa + (op + r));
    assert IntSyms(a) + ([Punct(OpOf(op))] + w) == IntSyms(a) + [Punct(OpOf(op))] + w;
  }

  /** `a op1 b op2 c` as text scans as the three numbers and the two operators. */
  lemma ScanTwo(a: int, op1: string, b: int, op2: string, c: int)
    requires op1 in BinaryTexts && op2 in BinaryTexts
    requires !(op1 == "-" && b < 0) && !(op2 == "-" && c < 0)
    ensures Scan(IntToString(a) + op1 + IntToString(b) + op2 + IntToString(c))
            == Some(IntSyms(a) + [Punct(OpOf(op1))] + IntSyms(b) + [Punct(OpOf(op2))] + IntSyms(c))
  {
    var sa, sb, sc := IntToString(a), IntToString(b), IntToString(c);
    var r := sb + op2 + sc;
    var w := IntSyms(b) + [Punct(OpOf(op2))] + IntSyms(c);
    ScanBinary(b, op2, c);
    IntTextStart(b);
    assert r[0] == sb[0];
    ScanInFront(a, op1, r, w);
    Regroup(sa + op1, sb, op2, sc);
    SameScan(sa + op1 + sb + op2 + sc, sa + op1 + r);
    Regroup(IntSyms(a) + [Punct(OpOf(op1))], IntSyms(b), [Punct(OpOf(op2))], IntSyms(c));
  }

  lemma Regroup<T>(x: seq<T>, y: seq<T>, z: seq<T>, v: seq<T>)
    ensures x + y + z + v == x + (y + z + v)
  {
  }

  /** The text of three numbers between two tokens. */
  lemma JoinedFive(a: int, x: Token, b: int, y: Token, c: int)
    ensures Joined([NumberToken(a), x, NumberToken(b), y, NumberToken(c)])
            == IntToString(a) + ValueText(x.value) + IntToString(b) + ValueText(y.value) + IntToString(c)
  {
    var na, nb, nc := NumberToken(a), NumberToken(b), NumberToken(c);
    assert [na, x, nb, y, nc] == [na] + [x] + [nb] + [y] + [nc];
    JoinedAppend([na] + [x] + [nb] + [y], [nc]);
    JoinedAppend([na] + [x] + [nb], [y]);
    JoinedAppend([na] + [x], [nb]);
    JoinedAppend([na], [x]);
    JoinedOne(na);
    JoinedOne(x);
    JoinedOne(nb);
    JoinedOne(y);
    JoinedOne(nc);
  }

  /** A run of three numbers and two binary operators evaluates by JavaScript's
      precedence: `a + b * c` is `a + (b * c)`, `a * b + c` is `(a * b) + c`,
      `a | b << c` is `a | (b << c)` and `a || b && c` is `a || (b && c)`; operators of one
      level group to the left. */
  lemma MixedOperators(a: int, k1: Kind, b: int, k2: Kind, c: int, line: int)
    requires OperatorText(k1) in BinaryTexts && OperatorText(k2) in BinaryTexts
    requires !(k1 == MINUS && b < 0) && !(k2 == MINUS && c < 0)
    ensures EvalRun([NumberToken(a), OperatorToken(k1), NumberToken(b), OperatorToken(k2), NumberToken(c)], line)
            == Ok(Floor(Grouped(OpOf(OperatorText(k1)), OpOf(OperatorText(k2)), FromInt(a), FromInt(b), FromInt(c))))
  {
    var op1, op2 := OperatorText(k1), OperatorText(k2);
    MinusText(k1);
    MinusText(k2);
    var t := [NumberToken(a), OperatorToken(k1), NumberToken(b), OperatorToken(k2), NumberToken(c)];
    JoinedFive(a, OperatorToken(k1), b, OperatorToken(k2), c);
    ReadTwo(a, op1, b, op2, c);
    ReadsAs(t, IntToString(a) + op1 + IntToString(b) + op2 + IntToString(c),
            Grouped(OpOf(op1), OpOf(op2), FromInt(a), FromInt(b), FromInt(c)), line);
  }

  /** `a op1 b op2 c` as text reads by precedence. */
  lemma ReadTwo(a: int, op1: string, b: int, op2: string, c: int)
    requires op1 in BinaryTexts && op2 in BinaryTexts
    requires !(op1 == "-" && b < 0) && !(op2 == "-" && c < 0)
    ensures Read(IntToString(a) + op1 + IntToString(b) + op2 + IntToString(c))
            == Some(Grouped(OpOf(op1), OpOf(op2), FromInt(a), FromInt(b), FromInt(c)))
  {
    ScanTwo(a, op1, b, op2, c);
    OperatorShape(op1);
    OperatorShape(op2);
    TwoOperators(a, OpOf(op1), b, OpOf(op2), c);
  }

  /** A whole number floors to itself. */
  lemma FloorInt(n: int)
    ensures Floor(FromInt(n)) == VInt(n)
  {
  }

  /** `Grouped` floors to `n` when its two steps, in the order the precedence gives, reach
      the whole number `n`. */
  lemma FloorGrouped(o1: Op, o2: Op, a: Num, b: Num, c: Num, m: Num, n: int)
    requires if Prec(Punct(o2)) < Prec(Punct(o1))
             then Binary(o2, b, c) == m && Binary(o1, a, m) == FromInt(n)
             else Binary(o1, a, b) == m && Binary(o2, m, c) == FromInt(n)
    ensures Floor(Grouped(o1, o2, a, b, c)) == VInt(n)
  {
    FloorInt(n);
  }

  /** Sums, differences and products of whole numbers are whole numbers. */
  lemma SumInts(a: int, b: int)
    ensures Binary(Plus, FromInt(a), FromInt(b)) == FromInt(a + b)
    ensures Binary(Dash, FromInt(a), FromInt(b)) == FromInt(a - b)
  {
  }

  lemma ProductInts(a: int, b: int)
    ensures Binary(Star, FromInt(a), FromInt(b)) == FromInt(a * b)
  {
    assert (a * b) as real == a as real * b as real;
  }

  lemma SumOfProductValue(a: int, b: int, c: int)
    ensures Floor(Grouped(Plus, Star, FromInt(a), FromInt(b), FromInt(c))) == VInt(a + b * c)
  {
    ProductInts(b, c);
    SumInts(a, b * c);
    FloorGrouped(Plus, Star, FromInt(a), FromInt(b), FromInt(c), FromInt(b * c), a + b * c);
  }

  lemma ProductThenSumValue(a: int, b: int, c: int)
    ensures Floor(Grouped(Star, Plus, FromInt(a), FromInt(b), FromInt(c))) == VInt(a * b + c)
  {
    ProductInts(a, b);
    SumInts(a * b, c);
    FloorGrouped(Star, Plus, FromInt(a), FromInt(b), FromInt(c), FromInt(a * b), a * b + c);
  }

  lemma DifferencesValue(a: int, b: int, c: int)
    ensures Floor(Grouped(Dash, Dash, FromInt(a), FromInt(b), FromInt(c))) == VInt(a - b - c)
  {
    SumInts(a, b);
    SumInts(a - b, c);
    FloorGrouped(Dash, Dash, FromInt(a), FromInt(b), FromInt(c), FromInt(a - b), a - b - c);
  }

  lemma ShiftBeforeOrValue()
    ensures Floor(Grouped(LtLt, Bar, FromInt(1), FromInt(2), FromInt(1))) == VInt(5)
  {
    ShiftFour();
    OrFive();
    FloorGrouped(LtLt, Bar, FromInt(1), FromInt(2), FromInt(1), FromInt(4), 5);
  }

  lemma ShiftFour()
    ensures Binary(LtLt, FromInt(1), FromInt(2)) == FromInt(4)
  {
    assert Int32Of(FromInt(2)) == 2 && Int32Of(FromInt(1)) == 1;
  }

  lemma OrFive()
    ensures Binary(Bar, FromInt(4), FromInt(1)) == FromInt(5)
  {
    assert Int32Of(FromInt(4)) == 4 && Int32Of(FromInt(1)) == 1;
    assert Bits(4) | Bits(1) == 5;
  }

  /** Multiplication binds tighter than a preceding addition: `a + b * c`. */
  lemma SumOfProduct(a: int, b: int, c: int, line: int)
    ensures EvalRun([NumberToken(a), OperatorToken(PLUS), NumberToken(b), OperatorToken(TIMES), NumberToken(c)], line)
            == Ok(VInt(a + b * c))
  {
    assert OpOf(OperatorText(PLUS)) == Plus && OpOf(OperatorText(TIMES)) == Star;
    SumOfProductValue(a, b, c);
    MixedOperators(a, PLUS, b, TIMES, c, line);
  }

  /** Multiplication binds tighter than a following addition: `a * b + c`. */
  lemma ProductThenSum(a: int, b: int, c: int, line: int)
    ensures EvalRun([NumberToken(a), OperatorToken(TIMES), NumberToken(b), OperatorToken(PLUS), NumberToken(c)], line)
            == Ok(VInt(a * b + c))
  {
    assert OpOf(OperatorText(PLUS)) == Plus && OpOf(OperatorText(TIMES)) == Star;
    ProductThenSumValue(a, b, c);
    MixedOperators(a, TIMES, b, PLUS, c, line);
  }

  /** Subtraction groups to the left: `a - b - c` is `(a - b) - c`. */
  lemma DifferencesLeft(a: int, b: int, c: int, line: int)
    requires b >= 0 && c >= 0
    ensures EvalRun([NumberToken(a), OperatorToken(MINUS), NumberToken(b), OperatorToken(MINUS), NumberToken(c)], line)
            == Ok(VInt(a - b - c))
  {
    assert OpOf(OperatorText(MINUS)) == Dash;
    DifferencesValue(a, b, c);
    MixedOperators(a, MINUS, b, MINUS, c, line);
  }

  /** A shift binds tighter than `|`: `1<<2|1` is 5. */
  lemma ShiftBeforeOr(line: int)
    ensures EvalRun([NumberToken(1), OperatorToken(LSHIFT), NumberToken(2), OperatorToken(BITOR), NumberToken(1)], line)
            == Ok(VInt(5))
  {
    assert OpOf(OperatorText(LSHIFT)) == LtLt && OpOf(OperatorText(BITOR)) == Bar;
    ShiftBeforeOrValue();
    MixedOperators(1, LSHIFT, 2, BITOR, 1, line);
  }

  /** The worked cases: `1+2*3` is 7 and `2*4+1` is 9. */
  lemma PrecedenceExamples(line: int)
    ensures EvalRun([NumberToken(1), OperatorToken(PLUS), NumberToken(2), OperatorToken(TIMES), NumberToken(3)], line)
            == Ok(VInt(7))
    ensures EvalRun([NumberToken(2), OperatorToken(TIMES), NumberToken(4), OperatorToken(PLUS), NumberToken(1)], line)
            == Ok(VInt(9))
  {
    SumOfProduct(1, 2, 3, line);
    ProductThenSum(2, 4, 1, line);
  }

  /** `a` followed by the negative literal `-b` subtracts: `10` `-1` is the text `10-1`,
      which is 9. */
  lemma NegativeLiteralSubtracts(a: int, b: int, line: int)
    requires b > 0
    ensures EvalRun([NumberToken(a), NumberToken(-b)], line) == Ok(VInt(a - b))
  {
    var t := [NumberToken(a), NumberToken(-b)];
    var s := IntToString(a) + "-" + IntToString(b);
    NegativeText(a, b);
    DashText();
    ReadBinary(a, "-", b);
    ReadsAs(t, s, Binary(Dash, FromInt(a), FromInt(b)), line);
    assert Binary(Dash, FromInt(a), FromInt(b)) == Fin((a - b) as real);
  }

  /** The text of a number and a negative one: the minus sign between them. */
  lemma NegativeText(a: int, b: int)
    requires b > 0
    ensures Joined([NumberToken(a), NumberToken(-b)]) == IntToString(a) + "-" + IntToString(b)
  {
    JoinedTwo(a, -b);
    NegativeString(b);
    Associative(IntToString(a), "-", IntToString(b));
  }

  lemma NegativeString(b: int)
    requires b > 0
    ensures IntToString(-b) == "-" + IntToString(b)
  {
  }

  lemma DashText()
    ensures "-" in BinaryTexts && OpOf("-") == Dash
  {
  }

  /** Only `MINUS` is spelled `-`. */
  lemma MinusText(k: Kind)
    ensures OperatorText(k) == "-" ==> k == MINUS
  {
  }

  /** A run whose text reads as `x` evaluates to `x` floored. */
  lemma ReadsAs(t: seq<Token>, s: string, x: Num, line: int)
    requires Joined(t) == s && Read(s) == Some(x)
    ensures EvalRun(t, line) == Ok(Floor(x))
  {
  }

  lemma {:induction false} DigitsAppend(x: string, y: string)
    ensures DigitsValue(x + y, 10) == DigitsValue(x, 10) * IntPow(10, |y|) + DigitsValue(y, 10)
    decreases |y|
  {
    if y == [] {
      assert x + y == x;
    } else {
      var y0 := y[..|y| - 1];
      var c := DigitValue(y[|y| - 1]);
      assert (x + y)[..|x + y| - 1] == x + y0;
      assert (x + y)[|x + y| - 1] == y[|y| - 1];
      assert DigitsValue(x + y, 10) == DigitsValue(x + y0, 10) * 10 + c;
      assert DigitsValue(y, 10) == DigitsValue(y0, 10) * 10 + c;
      DigitsAppend(x, y0);
      assert IntPow(10, |y|) == IntPow(10, |y0|) * 10;
      Shift(DigitsValue(x, 10), IntPow(10, |y0|), DigitsValue(y0, 10), c);
    }
  }

  lemma Shift(x: int, p: int, y: int, c: int)
    ensures (x * p + y) * 10 + c == x * (p * 10) + (y * 10 + c)
  {
  }

  lemma {:induction false} PowPositive(k: nat)
    ensures IntPow(10, k) >= 1
  {
    if k > 0 {
      PowPositive(k - 1);
    }
  }

  /** The text of two numbers. */
  lemma JoinedTwo(a: int, b: int)
    ensures Joined([NumberToken(a), NumberToken(b)]) == IntToString(a) + IntToString(b)
  {
    assert [NumberToken(a), NumberToken(b)] == [NumberToken(a)] + [NumberToken(b)];
    JoinedAppend([NumberToken(a)], [NumberToken(b)]);
    JoinedOne(NumberToken(a));
    JoinedOne(NumberToken(b));
  }

  /** A numeral without a leading zero reads as the number its digits denote. */
  lemma ReadDigits(d: string)
    requires d != [] && (forall j :: 0 <= j < |d| ==> IsDigit(d[j])) && (d[0] != '0' || |d| == 1)
    ensures Read(d) == Some(FromInt(DigitsValue(d, 10)))
  {
    var v := DigitsValue(d, 10);
    assert d + [] == d;
    ScanDigits(d, []);
    assert [Number(FromInt(v))] + [] == IntSyms(v);
    ReadsInt(d, v);
  }

  /** Two numbers side by side join into one numeral: `1` then `2` is the text `12`. */
  lemma AdjacentNumbersJoin(a: int, b: int, line: int)
    requires a > 0 && b >= 0
    ensures EvalRun([NumberToken(a), NumberToken(b)], line)
            == Ok(VInt(a * IntPow(10, |NatToString(b)|) + b))
  {
    var v := a * IntPow(10, |NatToString(b)|) + b;
    AdjacentText(a, b);
    ReadJoinedDigits(a, b);
    ReadsAs([NumberToken(a), NumberToken(b)], NatToString(a) + NatToString(b), FromInt(v), line);
  }

  /** The text of two numbers that are not negative: their digits one after the other. */
  lemma AdjacentText(a: nat, b: nat)
    ensures Joined([NumberToken(a), NumberToken(b)]) == NatToString(a) + NatToString(b)
  {
    JoinedTwo(a, b);
    assert IntToString(a) == NatToString(a) && IntToString(b) == NatToString(b);
  }

  /** The digits of two numbers, the first not 0, read as one number. */
  lemma ReadJoinedDigits(a: nat, b: nat)
    requires a > 0
    ensures Read(NatToString(a) + NatToString(b)) == Some(FromInt(a * IntPow(10, |NatToString(b)|) + b))
  {
    var d := NatToString(a) + NatToString(b);
    assert d[0] == NatToString(a)[0];
    ReadDigits(d);
    DigitsAppend(NatToString(a), NatToString(b));
  }

  /** A text that scans as a number's symbols reads as the number. */
  lemma ReadsInt(s: string, n: int)
    requires Scan(s) == Some(IntSyms(n))
    ensures Read(s) == Some(FromInt(n))
  {
    var u := IntSyms(n);
    assert u[0..|u|] == u;
    LevelOfInt(u, 0, 10, n);
  }

  /** `0` followed by another number spells a numeral with a leading zero, which
      strict-mode code refuses. */
  lemma LeadingZeroFails(b: int, line: int)
    requires b >= 0
    ensures EvalRun([NumberToken(0), NumberToken(b)], line).Err?
  {
    JoinedTwo(0, b);
    var s := "0" + NatToString(b);
    assert IntToString(0) == "0";
    assert Joined([NumberToken(0), NumberToken(b)]) == s;
    assert s[0] == '0' && IsDigit(s[1]);
    assert DigitEnd(s, 1) > 1;
    assert ScanNumeral(s) == None;
    assert Scan(s) == None;
    FailsAs([NumberToken(0), NumberToken(b)], s, line);
  }

  /** A number, two operator tokens whose texts join into `op`, and a number. */
  lemma JoinedPair(a: int, k1: Kind, k2: Kind, op: string, b: int, line: int)
    requires OperatorText(k1) + OperatorText(k2) == op && op in BinaryTexts && op != "-"
    ensures EvalRun([NumberToken(a), OperatorToken(k1), OperatorToken(k2), NumberToken(b)], line)
            == Ok(Floor(Binary(OpOf(op), FromInt(a), FromInt(b))))
  {
    JoinedFour(a, OperatorToken(k1), OperatorToken(k2), b);
    ReadBinary(a, op, b);
  }

  /** The texts that split shift tokens spell together, and the operators they name. */
  lemma ShiftTexts()
    ensures OperatorText(LT) + OperatorText(LT) == "<<" && "<<" in BinaryTexts && OpOf("<<") == LtLt
    ensures OperatorText(GT) + OperatorText(GT) == ">>" && ">>" in BinaryTexts && OpOf(">>") == GtGt
  {
  }

  /** The unsigned shift is spelt by `>` and `>>` in either order. */
  lemma UnsignedShiftTexts()
    ensures OperatorText(GT) + OperatorText(RSHIFT) == ">>>" && OperatorText(RSHIFT) + OperatorText(GT) == ">>>"
    ensures ">>>" in BinaryTexts && OpOf(">>>") == GtGtGt
  {
  }

  /** The texts that split logical tokens spell together, and the operators they name. */
  lemma LogicTexts()
    ensures OperatorText(BITAND) + OperatorText(BITAND) == "&&" && "&&" in BinaryTexts && OpOf("&&") == AndAnd
    ensures OperatorText(BITOR) + OperatorText(BITOR) == "||" && "||" in BinaryTexts && OpOf("||") == OrOr
    ensures OperatorText(LOGNOT) + OperatorText(DEQ) == "!==" && "!==" in BinaryTexts && OpOf("!==") == NotEqEq
  {
  }

  /** Split comparison tokens join into shifts: `<` `<` is `<<`, `>` `>` is `>>`, and `>`
      `>>` or `>>` `>` is the unsigned shift `>>>`. */
  lemma SplitShiftsJoin(a: int, b: int, line: int)
    ensures EvalRun([NumberToken(a), OperatorToken(LT), OperatorToken(LT), NumberToken(b)], line)
            == Ok(Floor(Binary(LtLt, FromInt(a), FromInt(b))))
    ensures EvalRun([NumberToken(a), OperatorToken(GT), OperatorToken(GT), NumberToken(b)], line)
            == Ok(Floor(Binary(GtGt, FromInt(a), FromInt(b))))
    ensures EvalRun([NumberToken(a), OperatorToken(GT), OperatorToken(RSHIFT), NumberToken(b)], line)
            == Ok(Floor(Binary(GtGtGt, FromInt(a), FromInt(b))))
    ensures EvalRun([NumberToken(a), OperatorToken(RSHIFT), OperatorToken(GT), NumberToken(b)], line)
            == Ok(Floor(Binary(GtGtGt, FromInt(a), FromInt(b))))
  {
    ShiftTexts();
    UnsignedShiftTexts();
    JoinedPair(a, LT, LT, "<<", b, line);
    JoinedPair(a, GT, GT, ">>", b, line);
    JoinedPair(a, GT, RSHIFT, ">>>", b, line);
    JoinedPair(a, RSHIFT, GT, ">>>", b, line);
  }

  /** `&` `&` is `&&`, `|` `|` is `||`, and `!` `==` is the strict `!==`. */
  lemma SplitLogicJoins(a: int, b: int, line: int)
    ensures EvalRun([NumberToken(a), OperatorToken(BITAND), OperatorToken(BITAND), NumberToken(b)], line)
            == Ok(Floor(Binary(AndAnd, FromInt(a), FromInt(b))))
    ensures EvalRun([NumberToken(a), OperatorToken(BITOR), OperatorToken(BITOR), NumberToken(b)], line)
            == Ok(Floor(Binary(OrOr, FromInt(a), FromInt(b))))
    ensures EvalRun([NumberToken(a), OperatorToken(LOGNOT), OperatorToken(DEQ), NumberToken(b)], line)
            == Ok(Floor(Binary(NotEqEq, FromInt(a), FromInt(b))))
  {
    LogicTexts();
    JoinedPair(a, BITAND, BITAND, "&&", b, line);
    JoinedPair(a, BITOR, BITOR, "||", b, line);
    JoinedPair(a, LOGNOT, DEQ, "!==", b, line);
  }

  /** `!==` tells a comparison's boolean from the number 1, where `!=` does not. */
  lemma StrictSeesBooleans()
    ensures Binary(NotEqEq, Truth(true), FromInt(1)) == Truth(true)
    ensures Binary(NotEq, Truth(true), FromInt(1)) == Truth(false)
  {
  }

  lemma {:induction false} RealPowInt(a: int, k: nat)
    ensures RealPow(a as real, k) == IntPow(a, k) as real
    decreases k
  {
    if k > 0 {
      RealPowInt(a, k - 1);
    }
  }

  /** The symbols of `a ** b` with `a` not negative read as the power. */
  lemma ParsePower(a: int, b: int)
    requires a >= 0
    ensures var u := IntSyms(a) + [Punct(StarStar)] + IntSyms(b);
            Level(u, 0, 10) == Some((Binary(StarStar, FromInt(a), FromInt(b)), |u|))
  {
    var u := IntSyms(a) + [Punct(StarStar)] + IntSyms(b);
    var x := Binary(StarStar, FromInt(a), FromInt(b));
    assert u[0] == Number(FromInt(a)) && u[1] == Punct(StarStar);
    assert Primary(u, 0) == Some((FromInt(a), 1));
    if b < 0 {
      assert u[2] == Punct(Dash) && u[3] == Number(FromInt(-b)) && |u| == 4;
      assert Primary(u, 3) == Some((FromInt(-b), 4));
      assert Prefixed(u, 3) == Some((FromInt(-b), 4));
      assert Unary(Dash, FromInt(-b)) == FromInt(b);
      assert Prefixed(u, 2) == Some((FromInt(b), 4));
      assert Power(u, 2) == Some((FromInt(b), 4));
    } else {
      assert u[2] == Number(FromInt(b)) && |u| == 3;
      assert Primary(u, 2) == Some((FromInt(b), 3));
      assert Power(u, 2) == Some((FromInt(b), 3));
    }
    assert Power(u, 0) == Some((x, |u|));
    LevelsClose(u, 0, 0, 10, x, |u|);
  }

  /** `a ** b` as text, with `a` not negative, is the power. */
  lemma ReadPower(a: int, b: int)
    requires a >= 0
    ensures Read(IntToString(a) + "**" + IntToString(b)) == Some(Binary(StarStar, FromInt(a), FromInt(b)))
  {
    ScanBinary(a, "**", b);
    OperatorShape("**");
    ParsePower(a, b);
  }

  /** A power of integers with an exponent that is not negative is the integer power. */
  lemma PowerOfInts(a: int, b: int)
    requires b >= 0
    ensures Floor(Binary(StarStar, FromInt(a), FromInt(b))) == VInt(IntPow(a, b))
  {
    RealPowInt(a, b);
    if b != 0 {
      assert FromInt(b) != Fin(0.0);
    }
  }

  /** `*` `*` is exponentiation: a base that is not negative raised to the other number,
      which for a power that is not negative is the integer power. */
  lemma StarsRaise(a: int, b: int, line: int)
    requires a >= 0
    ensures EvalRun([NumberToken(a), OperatorToken(TIMES), OperatorToken(TIMES), NumberToken(b)], line)
            == Ok(Floor(Binary(StarStar, FromInt(a), FromInt(b))))
    ensures b >= 0 ==>
              EvalRun([NumberToken(a), OperatorToken(TIMES), OperatorToken(TIMES), NumberToken(b)], line)
              == Ok(VInt(IntPow(a, b)))
  {
    JoinedFour(a, OperatorToken(TIMES), OperatorToken(TIMES), b);
    assert OperatorText(TIMES) + OperatorText(TIMES) == "**";
    ReadPower(a, b);
    if b >= 0 {
      PowerOfInts(a, b);
    }
  }

  /** A negative number before `*` `*` is a syntax error: `-2**2` does not read. */
  lemma NegatedBaseFails(a: int, b: int, line: int)
    requires a < 0
    ensures EvalRun([NumberToken(a), OperatorToken(TIMES), OperatorToken(TIMES), NumberToken(b)], line).Err?
  {
    JoinedFour(a, OperatorToken(TIMES), OperatorToken(TIMES), b);
    assert OperatorText(TIMES) + OperatorText(TIMES) == "**";
    ReadNegatedBase(a, b);
    FailsAs([NumberToken(a), OperatorToken(TIMES), OperatorToken(TIMES), NumberToken(b)],
            IntToString(a) + "**" + IntToString(b), line);
  }

  /** The text `-a**b` does not read. */
  lemma ReadNegatedBase(a: int, b: int)
    requires a < 0
    ensures Read(IntToString(a) + "**" + IntToString(b)).None?
  {
    ScanPower(a, b);
    var u := IntSyms(a) + [Punct(StarStar)] + IntSyms(b);
    assert u[0..2] == IntSyms(a) && u[2] == Punct(StarStar);
    LevelOfInt(u, 0, 10, a);
    ReadStopsShort(IntToString(a) + "**" + IntToString(b), u, FromInt(a), 2);
  }

  /** `a**b` as text scans as the two numbers around `**`. */
  lemma ScanPower(a: int, b: int)
    ensures Scan(IntToString(a) + "**" + IntToString(b)) == Some(IntSyms(a) + [Punct(StarStar)] + IntSyms(b))
  {
    OperatorShape("**");
    ScanBinary(a, "**", b);
  }

  /** A text whose expression ends before its last symbol does not read. */
  lemma ReadStopsShort(s: string, u: seq<Sym>, x: Num, p: nat)
    requires Scan(s) == Some(u) && p < |u| && Level(u, 0, 10) == Some((x, p))
    ensures Read(s).None?
  {
  }

  /** A run whose text does not read is an error. */
  lemma FailsAs(t: seq<Token>, s: string, line: int)
    requires Joined(t) == s && Read(s).None?
    ensures EvalRun(t, line).Err?
  {
  }

  /** `-` then `-` spells `--`, a syntax error on a number. */
  lemma DoubleMinusFails(a: int, b: int, line: int)
    ensures EvalRun([NumberToken(a), OperatorToken(MINUS), OperatorToken(MINUS), NumberToken(b)], line).Err?
  {
    JoinedFour(a, OperatorToken(MINUS), OperatorToken(MINUS), b);
    MinusTexts();
    MinusMinusText(a, IntToString(b));
  }

  /** `-` then a negative number spells `--` as well. */
  lemma MinusNegativeFails(a: int, b: int, line: int)
    requires b < 0
    ensures EvalRun([NumberToken(a), OperatorToken(MINUS), NumberToken(b)], line).Err?
  {
    JoinedThree(a, OperatorToken(MINUS), b);
    MinusNegativeText(a, b);
    MinusMinusText(a, NatToString(-b));
  }

  /** `a` `-` `b` with `b` negative: the text holds `--` before the magnitude of `b`. */
  lemma MinusNegativeText(a: int, b: int)
    requires b < 0
    ensures IntToString(a) + ValueText(OperatorToken(MINUS).value) + IntToString(b)
            == IntToString(a) + "--" + NatToString(-b)
  {
    var x := IntToString(a);
    var d := NatToString(-b);
    assert ValueText(OperatorToken(MINUS).value) == "-";
    assert IntToString(b) == "-" + d;
    Associative(x, "-", "-" + d);
    Associative("-", "-", d);
    Associative(x, "--", d);
    assert "-" + "-" == "--";
  }

  lemma MinusTexts()
    ensures OperatorText(MINUS) + OperatorText(MINUS) == "--" && OperatorText(MINUS) == "-"
  {
  }

  lemma MinusMinusText(a: int, x: string)
    ensures Read(IntToString(a) + "--" + x) == None
  {
    var s := "--" + x;
    ScanDoubleDash(x);
    ScanInt(a, s);
    Associative(IntToString(a), "--", x);
    ThenThen(IntSyms(a), [Punct(OtherPunct)], Scan(x));
    ReadAfterOther(IntToString(a) + s, a, Scan(x));
  }

  /** `--` scans as a punctuator the grammar has no use for. */
  lemma ScanDoubleDash(x: string)
    ensures ("--" + x)[0] == '-'
    ensures Scan("--" + x) == Then([Punct(OtherPunct)], Scan(x))
  {
    var s := "--" + x;
    assert s[0] == '-' && At(s, 1) == '-';
    assert PunctLength(s) == 2 && s[..2] == "--" && s[2..] == x;
    assert OpOf("--") == OtherPunct;
    ScanPunct(s);
  }

  /** A number followed by a punctuator the grammar has no use for does not read. */
  lemma ReadAfterOther(s: string, a: int, r: Option<seq<Sym>>)
    requires Scan(s) == Then(IntSyms(a) + [Punct(OtherPunct)], r)
    ensures Read(s) == None
  {
    if r.Some? {
      var u := IntSyms(a) + [Punct(OtherPunct)] + r.value;
      var i := |IntSyms(a)|;
      assert u[0..i] == IntSyms(a) && u[i] == Punct(OtherPunct);
      LevelOfInt(u, 0, 10, a);
      ReadStopsShort(s, u, FromInt(a), i);
    }
  }

  /** `/` `/` starts a comment: whatever follows in the run is ignored. */
  lemma SlashesComment(a: int, rest: seq<Token>, line: int)
    ensures EvalRun([NumberToken(a), OperatorToken(DIV), OperatorToken(DIV)] + rest, line) == Ok(VInt(a))
  {
    var s := IntToString(a) + ("//" + Joined(rest));
    SlashesText(a, rest);
    ScanSlashes(a, Joined(rest));
    ReadsInt(s, a);
    ReadsAs([NumberToken(a), OperatorToken(DIV), OperatorToken(DIV)] + rest, s, FromInt(a), line);
  }

  /** The text of a number, two `/` tokens and the rest. */
  lemma SlashesText(a: int, rest: seq<Token>)
    ensures Joined([NumberToken(a), OperatorToken(DIV), OperatorToken(DIV)] + rest)
            == IntToString(a) + ("//" + Joined(rest))
  {
    var x, d := NumberToken(a), OperatorToken(DIV);
    assert [x, d, d] + rest == [x] + ([d] + ([d] + rest));
    JoinedOne(x);
    JoinedOne(d);
    JoinedAppend([d], rest);
    JoinedAppend([d], [d] + rest);
    JoinedAppend([x], [d] + ([d] + rest));
    Associative("/", "/", Joined(rest));
    assert "/" + "/" == "//";
  }

  /** A number then `//` scans as the number alone. */
  lemma ScanSlashes(a: int, r: string)
    ensures Scan(IntToString(a) + ("//" + r)) == Some(IntSyms(a))
  {
    var s := "//" + r;
    assert s[0] == '/' && At(s, 1) == '/';
    assert LineComment(s);
    assert Scan(s) == Some([]);
    ScanInt(a, s);
    assert IntSyms(a) + [] == IntSyms(a);
  }

  // ---------------------------------------------------------------------------
  // `undefined` and `NaN`

  /** A run of identifier characters from `i` to `n` ends the word at `n`. */
  lemma {:induction false} WordEndAt(s: string, i: nat, n: nat)
    requires i <= n <= |s| && (n == |s| || !IsIdentPart(s[n]))
    requires forall k :: i <= k < n ==> IsIdentPart(s[k])
    ensures WordEnd(s, i) == n
    decreases n - i
  {
    if i < n {
      WordEndAt(s, i + 1, n);
    }
  }

  /** The word `undefined` or `NaN`, with no identifier character after it, scans as that
      value. */
  lemma ScanWord(w: string, x: Num, rest: string)
    requires (w == "undefined" && x == Undef) || (w == "NaN" && x == NaN)
    requires rest == [] || !IsIdentPart(rest[0])
    ensures Scan(w + rest) == Then([Number(x)], Scan(rest))
  {
    var s := w + rest;
    assert s[..|w|] == w && s[|w|..] == rest;
    assert forall k :: 1 <= k < |w| ==> s[k] == w[k];
    WordEndAt(s, 1, |w|);
  }

  /** A value that no tighter operator and no `**` follows reads as itself. */
  lemma {:induction false} LevelOfSym(u: seq<Sym>, pos: nat, lvl: nat)
    requires lvl <= 10 && pos < |u| && u[pos].Number?
    requires pos + 1 == |u| || ((Prec(u[pos + 1]) == 0 || Prec(u[pos + 1]) > lvl) && u[pos + 1] != Punct(StarStar))
    ensures Level(u, pos, lvl) == Some((u[pos].x, pos + 1))
    decreases lvl
  {
    if lvl > 0 {
      LevelOfSym(u, pos, lvl - 1);
      ChainStop(u, pos + 1, lvl, u[pos].x);
    } else {
      assert Primary(u, pos) == Some((u[pos].x, pos + 1));
    }
  }

  /** A value, a binary operator and a value read as the operator applied to them. */
  lemma ReadThreeSyms(x: Num, o: Op, y: Num)
    requires 1 <= Prec(Punct(o))
    ensures Level([Number(x), Punct(o), Number(y)], 0, 10) == Some((Binary(o, x, y), 3))
  {
    var u := [Number(x), Punct(o), Number(y)];
    var p := Prec(Punct(o));
    LevelOfSym(u, 0, p - 1);
    LevelOfSym(u, 2, p - 1);
    ChainOnce(u, 1, p, x, y);
    LevelsClose(u, 0, p, 10, Binary(o, x, y), 3);
  }

  /** Two tokens whose value is `undefined` (or two whose value is `NaN`) compared with `==`:
      the text is `undefined==undefined` (`NaN==NaN`), read as the comparison of the two
      values. */
  lemma WordsCompared(v: Value, w: string, x: Num, line: int)
    requires (v == VUndef && w == "undefined" && x == Undef) || (v == VNaN && w == "NaN" && x == NaN)
    ensures EvalRun([Token(INT, v), OperatorToken(DEQ), Token(INT, v)], line) == Ok(Floor(Binary(EqEq, x, x)))
  {
    var t := [Token(INT, v), OperatorToken(DEQ), Token(INT, v)];
    JoinedCompared(v, w);
    ScanCompared(w, x);
    ReadThreeSyms(x, EqEq, x);
    ReadsAs(t, w + ("==" + w), Binary(EqEq, x, x), line);
  }

  /** The text of two tokens of one value around `==`. */
  lemma JoinedCompared(v: Value, w: string)
    requires ValueText(v) == w
    ensures Joined([Token(INT, v), OperatorToken(DEQ), Token(INT, v)]) == w + ("==" + w)
  {
    var a, e := Token(INT, v), OperatorToken(DEQ);
    assert [a, e, a] == [a] + [e] + [a];
    JoinedAppend([a] + [e], [a]);
    JoinedAppend([a], [e]);
    JoinedOne(a);
    JoinedOne(e);
    Associative(w, "==", w);
  }

  /** `undefined==undefined` (`NaN==NaN`) scans as the two values around `==`. */
  lemma ScanCompared(w: string, x: Num)
    requires (w == "undefined" && x == Undef) || (w == "NaN" && x == NaN)
    ensures Scan(w + ("==" + w)) == Some([Number(x), Punct(EqEq), Number(x)])
  {
    var r := "==" + w;
    ScanWord(w, x, r);
    assert r[0] == '=' && At(r, 1) == '=' && At(r, 2) == w[0];
    assert PunctLength(r) == 2;
    assert r[..2] == "==" && r[2..] == w;
    ScanPunct(r);
    ScanWord(w, x, []);
    assert w + [] == w;
    assert Scan([]) == Some([]) && [Number(x)] + [] == [Number(x)];
    assert OpOf("==") == EqEq;
    assert Scan(r) == Then([Punct(EqEq)], Scan(w));
    assert [Punct(EqEq)] + [Number(x)] == [Punct(EqEq), Number(x)];
    assert [Number(x)] + [Punct(EqEq), Number(x)] == [Number(x), Punct(EqEq), Number(x)];
  }

  /** `undefined` equals itself, unlike `NaN`: two undefined labels compared with `==`
      give 1, two failed literals give 0. */
  lemma UndefinedEquality(line: int)
    ensures EvalRun([Token(INT, VUndef), OperatorToken(DEQ), Token(INT, VUndef)], line) == Ok(VInt(1))
    ensures EvalRun([Token(INT, VNaN), OperatorToken(DEQ), Token(INT, VNaN)], line) == Ok(VInt(0))
  {
    WordsCompared(VUndef, "undefined", Undef, line);
    WordsCompared(VNaN, "NaN", NaN, line);
    LooseEquality();
  }

  /** `undefined == undefined` is true and `NaN == NaN` false; floored, 1 and 0. */
  lemma LooseEquality()
    ensures Floor(Binary(EqEq, Undef, Undef)) == VInt(1)
    ensures Floor(Binary(EqEq, NaN, NaN)) == VInt(0)
  {
    assert LooseEqual(Undef, Undef) && !LooseEqual(NaN, NaN);
    assert Floor(Truth(true)) == VInt(1) && Floor(Truth(false)) == VInt(0);
  }
}
