/** The lexer: `Lexer.tokenize` (simulator.js:422-562). Each line of the program, with a
    space appended, is cut into tokens by trying the patterns of the pattern table in order
    and taking the first that matches (not the longest); comments and white space produce
    no token. A second pass over the line then rewrites the tokens in place: register names
    become their number, instruction names that cannot be instructions become references,
    directives are upper-cased and checked, and a reference absorbs every token after it
    that is not a comma, a symbol or an operator. Lines that end up empty are dropped; the
    others keep their 1-based line number. */
module Lexer {
  import opened Base
  import opened Tokens
  import opened Isa

  // ---------------------------------------------------------------------------
  // the patterns, one hand matcher each

  /** What one pattern matched: the token type (none for comments and white space) and
      the number of characters consumed. */
  datatype Lexeme = Lexeme(tag: Option<Kind>, len: nat)

  /** The end of the longest run of characters satisfying `p` from `k` on: a greedy
      repetition of a character class. */
  function Run(s: string, k: nat, p: char -> bool): (e: nat)
    requires k <= |s|
    ensures k <= e <= |s|
    ensures forall i :: k <= i < e ==> p(s[i])
    ensures e < |s| ==> !p(s[e])
    decreases |s| - k
  {
    if k < |s| && p(s[k]) then Run(s, k + 1, p) else k
  }

  predicate IsBlank(c: char) { c == ' ' || c == '\t' }

  predicate IsPointer(c: char) { c == 'X' || c == 'Y' || c == 'Z' }

  predicate IsYZ(c: char) { c == 'Y' || c == 'Z' }

  predicate IsX(c: char) { c == 'X' }

  predicate InComment(c: char) { !IsLineTerminator(c) }

  predicate NotSemicolon(c: char) { c != ';' }

  predicate InDirective(c: char) { IsWordChar(c) || c == '.' }

  /** `[^\w\s;]` */
  predicate IsSymbolChar(c: char) { !IsWordChar(c) && !IsSpace(c) && c != ';' }

  /** The last ':' in `s[lo..hi]`. */
  function LastColon(s: string, lo: nat, hi: nat): (r: Option<nat>)
    requires lo <= hi <= |s|
    ensures r.Some? ==> lo <= r.value < hi && s[r.value] == ':'
    ensures r.Some? ==> forall j :: r.value < j < hi ==> s[j] != ':'
    ensures r.None? ==> forall j :: lo <= j < hi ==> s[j] != ':'
    decreases hi - lo
  {
    if hi == lo then None else if s[hi - 1] == ':' then Some(hi - 1) else LastColon(s, lo, hi - 1)
  }

  /** `^;.*$`: a semicolon and the whole rest of the line. `.` does not match a line
      terminator, so a carriage return before the end makes the pattern fail. */
  function MatchComment(s: string): (r: Option<nat>)
    ensures r.Some? <==> s != [] && s[0] == ';' && forall i :: 1 <= i < |s| ==> !IsLineTerminator(s[i])
    ensures r.Some? ==> r.value == |s|
  {
    if s != [] && s[0] == ';' && Run(s, 1, InComment) == |s| then Some(|s|) else None
  }

  /** `^\s+` */
  function MatchSpace(s: string): (r: Option<nat>)
    ensures r.Some? <==> s != [] && IsSpace(s[0])
    ensures r.Some? ==> 0 < r.value <= |s| && forall i :: 0 <= i < r.value ==> IsSpace(s[i])
  {
    if s != [] && IsSpace(s[0]) then Some(Run(s, 0, IsSpace)) else None
  }

  /** `^[\w_]{1}[^;]*:`: a word character, then through the last ':' before the first ';'. */
  function MatchLabel(s: string): (r: Option<nat>)
    ensures r.Some? ==> 2 <= r.value <= |s| && IsWordChar(s[0]) && s[r.value - 1] == ':'
    ensures r.Some? ==> forall i :: 0 <= i < r.value ==> s[i] != ';'
  {
    if s != [] && IsWordChar(s[0]) then
      match LastColon(s, 1, Run(s, 1, NotSemicolon))
      case Some(j) => Some(j + 1)
      case None => None
    else None
  }

  /** `^lo8(?=[(])` and its three siblings: the word `w`, when an opening bracket follows. */
  function MatchBefore(s: string, w: string): (r: Option<nat>)
    requires |w| > 0
    ensures r.Some? <==> |s| > |w| && s[..|w|] == w && s[|w|] == '('
    ensures r.Some? ==> r.value == |w|
  {
    if |s| > |w| && s[..|w|] == w && s[|w|] == '(' then Some(|w|) else None
  }

  /** `^[rR]\d+(?=[,;\s])`: the digits must be followed by a comma, a semicolon or white
      space (greedy digits, so a trailing letter or bracket defeats the pattern). */
  function MatchRegister(s: string): (r: Option<nat>)
    ensures r.Some? ==> 2 <= r.value < |s| && (s[0] == 'r' || s[0] == 'R')
    ensures r.Some? ==> forall i :: 1 <= i < r.value ==> IsDigit(s[i])
    ensures r.Some? ==> s[r.value] == ',' || s[r.value] == ';' || IsSpace(s[r.value])
  {
    if s != [] && (s[0] == 'r' || s[0] == 'R') then
      var e := Run(s, 1, IsDigit);
      if e > 1 && e < |s| && (s[e] == ',' || s[e] == ';' || IsSpace(s[e])) then Some(e) else None
    else None
  }

  /** The optional leading minus sign `-{0,1}` of the number patterns. */
  function Sign(s: string): (k: nat)
    ensures k <= 1 && k <= |s|
  {
    if s != [] && s[0] == '-' then 1 else 0
  }

  /** `^-{0,1}0[xX][\dA-Fa-f]+`, `^-{0,1}0[oO][0-7]+` and `^-{0,1}0[bB][01]+`. */
  function MatchRadix(s: string, lower: char, upper: char, digit: char -> bool): (r: Option<nat>)
    ensures r.Some? ==> Sign(s) + 3 <= r.value <= |s| && s[Sign(s)] == '0'
    ensures r.Some? ==> s[Sign(s) + 1] == lower || s[Sign(s) + 1] == upper
  {
    var k := Sign(s);
    if k + 2 <= |s| && s[k] == '0' && (s[k + 1] == lower || s[k + 1] == upper) then
      var e := Run(s, k + 2, digit);
      if e > k + 2 then Some(e) else None
    else None
  }

  /** `^-{0,1}\$[\dA-Fa-f]+` */
  function MatchDollar(s: string): (r: Option<nat>)
    ensures r.Some? ==> Sign(s) + 2 <= r.value <= |s| && s[Sign(s)] == '$'
  {
    var k := Sign(s);
    if k < |s| && s[k] == '$' then
      var e := Run(s, k + 1, IsHexDigit);
      if e > k + 1 then Some(e) else None
    else None
  }

  /** `^-{0,1}\d+` */
  function MatchDecimal(s: string): (r: Option<nat>)
    ensures r.Some? <==> Sign(s) < |s| && IsDigit(s[Sign(s)])
    ensures r.Some? ==> Sign(s) < r.value <= |s| && forall i :: Sign(s) <= i < r.value ==> IsDigit(s[i])
  {
    var k := Sign(s);
    var e := Run(s, k, IsDigit);
    if e > k then Some(e) else None
  }

  /** `^[a-zA-Z]{2,6}`: two to six letters, as many as there are. */
  function MatchInstruction(s: string): (r: Option<nat>)
    ensures r.Some? ==> 2 <= r.value <= 6 && r.value <= |s|
    ensures r.Some? ==> forall i :: 0 <= i < r.value ==> IsLetter(s[i])
    ensures r.Some? && r.value < 6 ==> r.value == |s| || !IsLetter(s[r.value])
  {
    var e := Run(s, 0, IsLetter);
    if e >= 2 then Some(if e > 6 then 6 else e) else None
  }

  /** `^\".*?\"` and `^\'.*?\'`: up to the next quote `q`, within the line. */
  function MatchString(s: string, q: char): (r: Option<nat>)
    ensures r.Some? ==> 2 <= r.value <= |s| && s[0] == q && s[r.value - 1] == q
    ensures r.Some? ==> forall i :: 1 <= i < r.value - 1 ==> s[i] != q && !IsLineTerminator(s[i])
  {
    if s != [] && s[0] == q then
      var e := Run(s, 1, c => c != q && !IsLineTerminator(c));
      if e < |s| && s[e] == q then Some(e + 1) else None
    else None
  }

  /** `^\.[\w\.]+(?=[;\s])` */
  function MatchDirective(s: string): (r: Option<nat>)
    ensures r.Some? ==> 2 <= r.value < |s| && s[0] == '.'
    ensures r.Some? ==> s[r.value] == ';' || IsSpace(s[r.value])
  {
    if s != [] && s[0] == '.' then
      var e := Run(s, 1, InDirective);
      if e > 1 && e < |s| && (s[e] == ';' || IsSpace(s[e])) then Some(e) else None
    else None
  }

  /** `^[YZ][ \t]*\+[ \t]*\d{1,2}` (with `base` = Y or Z) and `^[X][ \t]*\+[ \t]*\d{1,2}`:
      a pointer, a plus sign between blanks, and one or two digits. */
  function MatchDisplacement(s: string, base: char -> bool): (r: Option<nat>)
    ensures r.Some? ==> 3 <= r.value <= |s| && base(s[0]) && IsDigit(s[r.value - 1])
  {
    if s != [] && base(s[0]) then
      var a := Run(s, 1, IsBlank);
      if a < |s| && s[a] == '+' then
        var b := Run(s, a + 1, IsBlank);
        var d := Run(s, b, IsDigit);
        if d > b then Some(if d > b + 2 then b + 2 else d) else None
      else None
    else None
  }

  /** `^[^\w\s;]+` */
  function MatchSymbol(s: string): (r: Option<nat>)
    ensures r.Some? <==> s != [] && IsSymbolChar(s[0])
    ensures r.Some? ==> 0 < r.value <= |s| && forall i :: 0 <= i < r.value ==> IsSymbolChar(s[i])
  {
    if s != [] && IsSymbolChar(s[0]) then Some(Run(s, 0, IsSymbolChar)) else None
  }

  /** `^[^\s\d]{1}[\w\d_]*`: any character but white space or a digit, then word characters. */
  function MatchReference(s: string): (r: Option<nat>)
    ensures r.Some? <==> s != [] && !IsSpace(s[0]) && !IsDigit(s[0])
    ensures r.Some? ==> 0 < r.value <= |s| && forall i :: 1 <= i < r.value ==> IsWordChar(s[i])
  {
    if s != [] && !IsSpace(s[0]) && !IsDigit(s[0]) then Some(Run(s, 1, IsWordChar)) else None
  }

  /** `^[XYZ]\+` */
  function MatchPointerPlus(s: string): (r: Option<nat>)
    ensures r.Some? ==> r.value == 2 <= |s|
  {
    if |s| >= 2 && IsPointer(s[0]) && s[1] == '+' then Some(2) else None
  }

  /** `^-[XYZ]` */
  function MatchMinusPointer(s: string): (r: Option<nat>)
    ensures r.Some? ==> r.value == 2 <= |s|
  {
    if |s| >= 2 && s[0] == '-' && IsPointer(s[1]) then Some(2) else None
  }

  /** `^[XYZ]` */
  function MatchPointer(s: string): (r: Option<nat>)
    ensures r.Some? ==> r.value == 1 <= |s|
  {
    if s != [] && IsPointer(s[0]) then Some(1) else None
  }

  /** An operator or bracket written out, such as `^,` or `^&&`. */
  function MatchLiteral(s: string, w: string): (r: Option<nat>)
    requires |w| > 0
    ensures r.Some? <==> |s| >= |w| && s[..|w|] == w
    ensures r.Some? ==> r.value == |w|
  {
    if |s| >= |w| && s[..|w|] == w then Some(|w|) else None
  }

  // ---------------------------------------------------------------------------
  // the pattern table, tried in order

  /** The digit class of a radix prefix: `[\\dA-Fa-f]`, `[0-7]` or `[01]`. */
  predicate InRadix(base: nat, c: char) {
    if base == 16 then IsHexDigit(c) else if base == 8 then IsOctDigit(c) else IsBinDigit(c)
  }

  /** The regular expressions of the pattern table, one constructor per shape. */
  datatype Rule =
    | Comment | Space | LabelRule | FunctionName(w: string) | Register
    | Radix(lower: char, upper: char, base: nat) | Dollar | Decimal | Instruction
    | Quoted(q: char) | Directive | Displacement(yz: bool)
    | PointerPlus | MinusPointer | PointerRule | Literal(w: string) | Symbol | Reference

  /** The length of the match of `r` at the start of `s`; a match is never empty and never
      runs past the end. */
  function Matches(r: Rule, s: string): (m: Option<nat>)
    ensures m.Some? ==> 0 < m.value <= |s|
  {
    match r
    case Comment => MatchComment(s)
    case Space => MatchSpace(s)
    case LabelRule => MatchLabel(s)
    case FunctionName(w) => if |w| > 0 then MatchBefore(s, w) else None
    case Register => MatchRegister(s)
    case Radix(lower, upper, base) => MatchRadix(s, lower, upper, c => InRadix(base, c))
    case Dollar => MatchDollar(s)
    case Decimal => MatchDecimal(s)
    case Instruction => MatchInstruction(s)
    case Quoted(q) => MatchString(s, q)
    case Directive => MatchDirective(s)
    case Displacement(yz) => MatchDisplacement(s, if yz then IsYZ else IsX)
    case PointerPlus => MatchPointerPlus(s)
    case MinusPointer => MatchMinusPointer(s)
    case PointerRule => MatchPointer(s)
    case Literal(w) => if |w| > 0 then MatchLiteral(s, w) else None
    case Symbol => MatchSymbol(s)
    case Reference => MatchReference(s)
  }

  /** `[regex, tag]`: a pattern and the token type it produces (none for comments and
      white space). */
  datatype Pattern = Pattern(rule: Rule, tag: Option<Kind>)

  /** The number of entries in the pattern table. */
  const PatternCount: nat := 47

  /** Entry `i` of the pattern table, in the table's order: entry 1 is white space,
      entry 12 decimal numbers and the last entry references. */
  function PatternAt(i: nat): Pattern
    requires i < PatternCount
  {
    if i < 23 then PatternsToComma(i) else PatternsFromLpar(i)
  }

  function PatternsToComma(i: nat): Pattern
    requires i < 23
  {
    if i == 0 then Pattern(Comment, None)
    else if i == 1 then Pattern(Space, None)
    else if i == 2 then Pattern(LabelRule, Some(LABEL))
    else if i == 3 then Pattern(FunctionName("lo8"), Some(LO8))
    else if i == 4 then Pattern(FunctionName("LO8"), Some(LO8))
    else if i == 5 then Pattern(FunctionName("hi8"), Some(HI8))
    else if i == 6 then Pattern(FunctionName("HI8"), Some(HI8))
    else if i == 7 then Pattern(Register, Some(REG))
    else if i == 8 then Pattern(Radix('x', 'X', 16), Some(INT))
    else if i == 9 then Pattern(Dollar, Some(INT))
    else if i == 10 then Pattern(Radix('o', 'O', 8), Some(INT))
    else if i == 11 then Pattern(Radix('b', 'B', 2), Some(INT))
    else if i == 12 then Pattern(Decimal, Some(INT))
    else if i == 13 then Pattern(Instruction, Some(INST))
    else if i == 14 then Pattern(Quoted('"'), Some(STR))
    else if i == 15 then Pattern(Quoted('\''), Some(STR))
    else if i == 16 then Pattern(Directive, Some(DIR))
    else if i == 17 then Pattern(Displacement(true), Some(WORDPLUSQ))
    else if i == 18 then Pattern(Displacement(false), Some(XPLUSQ))
    else if i == 19 then Pattern(PointerPlus, Some(WORDPLUS))
    else if i == 20 then Pattern(MinusPointer, Some(MINUSWORD))
    else if i == 21 then Pattern(PointerRule, Some(WORD))
    else Pattern(Literal(","), Some(COMMA))
  }

  function PatternsFromLpar(i: nat): Pattern
    requires 23 <= i < PatternCount
  {
    if i == 23 then Pattern(Literal("("), Some(LPAR))
    else if i == 24 then Pattern(Literal(")"), Some(RPAR))
    else if i == 25 then Pattern(Literal("+"), Some(PLUS))
    else if i == 26 then Pattern(Literal("-"), Some(MINUS))
    else if i == 27 then Pattern(Literal("*"), Some(TIMES))
    else if i == 28 then Pattern(Literal("/"), Some(DIV))
    else if i == 29 then Pattern(Literal("&&"), Some(LOGAND))
    else if i == 30 then Pattern(Literal("&"), Some(BITAND))
    else if i == 31 then Pattern(Literal("||"), Some(LOGOR))
    else if i == 32 then Pattern(Literal("|"), Some(BITOR))
    else if i == 33 then Pattern(Literal("^"), Some(BITXOR))
    else if i == 34 then Pattern(Literal("~"), Some(BITNOT))
    else if i == 35 then Pattern(Literal("!="), Some(NEQ))
    else if i == 36 then Pattern(Literal("!"), Some(LOGNOT))
    else if i == 37 then Pattern(Literal(">="), Some(GEQ))
    else if i == 38 then Pattern(Literal("<="), Some(LEQ))
    else if i == 39 then Pattern(Literal("=="), Some(DEQ))
    else if i == 40 then Pattern(Literal(">>"), Some(RSHIFT))
    else if i == 41 then Pattern(Literal("<<"), Some(LSHIFT))
    else if i == 42 then Pattern(Literal(">"), Some(GT))
    else if i == 43 then Pattern(Literal("<"), Some(LT))
    else if i == 44 then Pattern(Literal("="), Some(EQ))
    else if i == 45 then Pattern(Symbol, Some(SYMBOL))
    else Pattern(Reference, Some(REF))
  }

  /** The first entry from `i` on that matches: the source's `for` loop over the table,
      which stops at the first match. */
  function FirstMatch(s: string, i: nat): (r: Option<Lexeme>)
    ensures r.Some? ==> 0 < r.value.len <= |s|
    decreases PatternCount - i
  {
    if i >= PatternCount then None
    else match Matches(PatternAt(i).rule, s)
      case Some(n) => Some(Lexeme(PatternAt(i).tag, n))
      case None => FirstMatch(s, i + 1)
  }

  /** The lexeme at the start of `s`. */
  function NextLexeme(s: string): (r: Option<Lexeme>)
    ensures r.Some? ==> 0 < r.value.len <= |s|
  {
    FirstMatch(s, 0)
  }

  /** A later entry that matches is reached unless an earlier one matches first. */
  lemma {:induction false} LaterEntryMatches(s: string, i: nat, j: nat)
    requires i <= j < PatternCount && Matches(PatternAt(j).rule, s).Some?
    ensures FirstMatch(s, i).Some?
    decreases j - i
  {
    if i < j && Matches(PatternAt(i).rule, s).None? {
      LaterEntryMatches(s, i + 1, j);
    }
  }

  /** Some pattern matches at every position: white space, a digit (a decimal number) or
      any other character (a reference). The source's "Invalid syntax" error cannot occur. */
  lemma EveryPositionMatches(s: string)
    requires s != []
    ensures NextLexeme(s).Some?
  {
    if IsSpace(s[0]) {
      assert PatternAt(1).rule == Space;
      LaterEntryMatches(s, 0, 1);
    } else if IsDigit(s[0]) {
      assert Sign(s) == 0;
      assert PatternAt(12).rule == Decimal;
      LaterEntryMatches(s, 0, 12);
    } else {
      assert PatternAt(46).rule == Reference;
      LaterEntryMatches(s, 0, 46);
    }
  }

  // ---------------------------------------------------------------------------
  // the match loop

  /** How the match loop finds the lexeme at the start of the rest of the line. The loop
      runs `NextLexeme`; it is stated over any search whose matches are never empty and
      never run past the end, which is all it relies on. */
  type Search = string -> Option<Lexeme>

  ghost predicate Sound(lex: Search) {
    forall s :: lex(s).Some? ==> 0 < lex(s).value.len <= |s|
  }

  /** A search that finds a lexeme wherever some text is left. */
  ghost predicate Covering(lex: Search) {
    forall s :: s != [] ==> lex(s).Some?
  }

  /** The pattern table is a sound search that covers every position. */
  lemma TableSearch()
    ensures Sound(NextLexeme) && Covering(NextLexeme)
  {
    forall s | s != []
      ensures NextLexeme(s).Some?
    {
      EveryPositionMatches(s);
    }
  }

  /** The tokens one lexeme contributes: none for a comment or white space. */
  function Emitted(line: string, pos: nat, x: Lexeme): seq<Token>
    requires pos + x.len <= |line|
  {
    if x.tag.Some? then [Token(x.tag.value, VStr(line[pos..pos + x.len]))] else []
  }

  /** The tokens the match loop produces for `line[pos..]`, after the tokens `acc` already
      produced: the text of every match that has a token type, in order. */
  function ScanFrom(lex: Search, line: string, pos: nat, number: int, acc: seq<Token>): Result<seq<Token>>
    requires Sound(lex) && pos <= |line|
    decreases |line| - pos
  {
    if pos == |line| then Ok(acc)
    else match lex(line[pos..])
      case None => Err(Error(InvalidSyntax, number))
      case Some(x) => ScanFrom(lex, line, pos + x.len, number, acc + Emitted(line, pos, x))
  }

  /** Every token has a string value. */
  predicate Textual(toks: seq<Token>) {
    forall i :: 0 <= i < |toks| ==> toks[i].value.VStr?
  }

  lemma EmittedTextual(line: string, pos: nat, x: Lexeme, acc: seq<Token>)
    requires pos + x.len <= |line| && Textual(acc)
    ensures Textual(acc + Emitted(line, pos, x))
  {
    var a := acc + Emitted(line, pos, x);
    forall i | 0 <= i < |a|
      ensures a[i].value.VStr?
    {
      if i >= |acc| { assert a[i] == Emitted(line, pos, x)[i - |acc|]; }
    }
  }

  /** With a covering search, scanning never fails, and every token it produces has a
      string value. */
  lemma {:induction false} ScanSucceeds(lex: Search, line: string, pos: nat, number: int, acc: seq<Token>)
    requires Sound(lex) && Covering(lex) && pos <= |line| && Textual(acc)
    ensures ScanFrom(lex, line, pos, number, acc).Ok? && Textual(ScanFrom(lex, line, pos, number, acc).value)
    decreases |line| - pos
  {
    if pos < |line| {
      var x := lex(line[pos..]).value;
      EmittedTextual(line, pos, x, acc);
      ScanSucceeds(lex, line, pos + x.len, number, acc + Emitted(line, pos, x));
    }
  }

  /** The match loop of `tokenize` over one line. */
  method ScanLine(lex: Search, line: string, number: int) returns (r: Result<seq<Token>>)
    requires Sound(lex)
    ensures r == ScanFrom(lex, line, 0, number, [])
  {
    var pos := 0;
    var toks: seq<Token> := [];
    while pos < |line|
      invariant pos <= |line| && ScanFrom(lex, line, 0, number, []) == ScanFrom(lex, line, pos, number, toks)
      decreases |line| - pos
    {
      var m := lex(line[pos..]);
      if m.None? {
        return Err(Error(InvalidSyntax, number));
      }
      var x := m.value;
      toks := toks + Emitted(line, pos, x);
      pos := pos + x.len;
    }
    return Ok(toks);
  }

  // ---------------------------------------------------------------------------
  // the fixing pass

  /** `parseInt` of a register name's digits (`substring(1)` drops the `r`). */
  function RegisterNumber(v: Value): Value {
    match v
    case VStr(s) =>
      (match ParseInt(if s == [] then [] else s[1..], 10)
       case Some(n) => VInt(n)
       case None => VNaN)
    case _ => v
  }

  /** The two in-place rewrites of a token at position `|acc|`, after `acc`: a register
      gets its number; an instruction name becomes a reference unless it is first on the
      line or second after a label. */
  function Rewritten(t: Token, acc: seq<Token>): (u: Token)
    ensures u.kind == DIR <==> t.kind == DIR
    ensures u.kind == DIR ==> u == t
    ensures u.kind == INST ==> |acc| == 0 || (|acc| == 1 && acc[0].kind == LABEL)
    ensures t.kind == INST && |acc| > 0 && !(|acc| == 1 && acc[0].kind == LABEL) ==> u.kind == REF
  {
    if t.kind == REG then Token(REG, RegisterNumber(t.value))
    else if |acc| > 0 && t.kind == INST && !(|acc| == 1 && acc[0].kind == LABEL) then Token(REF, t.value)
    else t
  }

  /** A directive whose upper-cased spelling is not in `DIRECTIVES`. */
  predicate UnknownDirective(t: Token) {
    t.kind == DIR && Upper(ValueText(t.value)) !in Directives
  }

  /** The kinds a reference does not absorb: commas, symbols and the operators and brackets
      of `MATH[1..]`. */
  predicate Separates(k: Kind) { k == COMMA || k == SYMBOL || IsMathOp(k) }

  /** A reference with the text of the token after it appended, as JavaScript's `+` makes it. */
  function Joined(p: Token, t: Token): (u: Token)
    ensures u.kind == REF && u.value.VStr?
  {
    Token(REF, VStr(ValueText(p.value) + ValueText(t.value)))
  }

  /** The fixing pass as a fold: `acc` holds the tokens already fixed, `rest` those still to
      come. A directive is upper-cased (or fails); a token a reference may absorb is appended
      to the reference before it. */
  function Normalise(acc: seq<Token>, rest: seq<Token>): Result<seq<Token>>
    decreases |rest|
  {
    if rest == [] then Ok(acc)
    else
      var t := Rewritten(rest[0], acc);
      if UnknownDirective(t) then Err(Error(InvalidDirective, 0))
      else
        var u := if t.kind == DIR then Token(DIR, VStr(Upper(ValueText(t.value)))) else t;
        if |acc| > 0 && !Separates(u.kind) && acc[|acc| - 1].kind == REF then
          Normalise(acc[..|acc| - 1] + [Joined(acc[|acc| - 1], u)], rest[1..])
        else Normalise(acc + [u], rest[1..])
  }

  /** An instruction name appears only first on a line, or second after a label. */
  predicate InstructionsPlaced(toks: seq<Token>) {
    forall i :: 0 <= i < |toks| && toks[i].kind == INST ==> i == 0 || (i == 1 && toks[0].kind == LABEL)
  }

  /** A reference is followed only by a comma, a symbol or an operator. */
  predicate ReferencesSeparated(toks: seq<Token>) {
    forall i :: 0 <= i < |toks| - 1 && toks[i].kind == REF ==> Separates(toks[i + 1].kind)
  }

  /** Every directive left is one of `DIRECTIVES`, upper-cased. */
  predicate DirectivesKnown(toks: seq<Token>) {
    forall i :: 0 <= i < |toks| && toks[i].kind == DIR ==> toks[i].value.VStr? && toks[i].value.s in Directives
  }

  predicate WellFormedLine(toks: seq<Token>) {
    InstructionsPlaced(toks) && ReferencesSeparated(toks) && DirectivesKnown(toks)
  }

  lemma AppendKeeps(acc: seq<Token>, u: Token)
    requires WellFormedLine(acc)
    requires u.kind == INST ==> |acc| == 0 || (|acc| == 1 && acc[0].kind == LABEL)
    requires |acc| > 0 && acc[|acc| - 1].kind == REF ==> Separates(u.kind)
    requires u.kind == DIR ==> u.value.VStr? && u.value.s in Directives
    ensures WellFormedLine(acc + [u])
  {
    var a := acc + [u];
    forall i | 0 <= i < |a| - 1 && a[i].kind == REF
      ensures Separates(a[i + 1].kind)
    {
      if i + 1 < |acc| { assert a[i] == acc[i] && a[i + 1] == acc[i + 1]; }
    }
  }

  lemma JoinKeeps(acc: seq<Token>, u: Token)
    requires WellFormedLine(acc) && |acc| > 0 && acc[|acc| - 1].kind == REF
    ensures WellFormedLine(acc[..|acc| - 1] + [Joined(acc[|acc| - 1], u)])
  {
    var a := acc[..|acc| - 1] + [Joined(acc[|acc| - 1], u)];
    assert |a| == |acc|;
    assert forall i :: 0 <= i < |acc| - 1 ==> a[i] == acc[i];
    assert a[0].kind == LABEL ==> acc[0].kind == LABEL;
  }

  /** The fixing pass establishes the three line invariants, and fails exactly when some
      token is a directive missing from `DIRECTIVES`. */
  lemma {:induction false} NormaliseWellFormed(acc: seq<Token>, rest: seq<Token>)
    requires WellFormedLine(acc)
    ensures Normalise(acc, rest).Ok? ==> WellFormedLine(Normalise(acc, rest).value)
    ensures Normalise(acc, rest).Ok? ==> |Normalise(acc, rest).value| >= |acc| && (|rest| > 0 ==> |Normalise(acc, rest).value| > 0)
    ensures Normalise(acc, rest).Err? <==> exists i :: 0 <= i < |rest| && UnknownDirective(rest[i])
    decreases |rest|
  {
    if rest != [] {
      var t := Rewritten(rest[0], acc);
      assert UnknownDirective(t) <==> UnknownDirective(rest[0]);
      if !UnknownDirective(t) {
        var u := if t.kind == DIR then Token(DIR, VStr(Upper(ValueText(t.value)))) else t;
        var next := if |acc| > 0 && !Separates(u.kind) && acc[|acc| - 1].kind == REF
                    then acc[..|acc| - 1] + [Joined(acc[|acc| - 1], u)] else acc + [u];
        if |acc| > 0 && !Separates(u.kind) && acc[|acc| - 1].kind == REF {
          JoinKeeps(acc, u);
        } else {
          AppendKeeps(acc, u);
        }
        NormaliseWellFormed(next, rest[1..]);
        assert (exists i :: 0 <= i < |rest| && UnknownDirective(rest[i])) <==>
               (exists i :: 0 <= i < |rest[1..]| && UnknownDirective(rest[1..][i])) by {
          forall i | 0 <= i < |rest| && UnknownDirective(rest[i])
            ensures exists j :: 0 <= j < |rest[1..]| && UnknownDirective(rest[1..][j])
          {
            assert i > 0 && rest[1..][i - 1] == rest[i];
          }
        }
      }
    }
  }

  /** One turn of the fixing pass over a token that is not an unknown directive. */
  lemma NormaliseStep(acc: seq<Token>, rest: seq<Token>)
    requires rest != [] && !UnknownDirective(Rewritten(rest[0], acc))
    ensures var t := Rewritten(rest[0], acc);
            var u := if t.kind == DIR then Token(DIR, VStr(Upper(ValueText(t.value)))) else t;
            Normalise(acc, rest) == if |acc| > 0 && !Separates(u.kind) && acc[|acc| - 1].kind == REF
                                    then Normalise(acc[..|acc| - 1] + [Joined(acc[|acc| - 1], u)], rest[1..])
                                    else Normalise(acc + [u], rest[1..])
  {
  }

  /** The fixing pass of `tokenize`, splicing the line in place. */
  method NormaliseLine(raw: seq<Token>) returns (r: Result<seq<Token>>)
    ensures r == Normalise([], raw)
  {
    var toks := raw;
    var i := 0;
    while i < |toks|
      invariant i <= |toks|
      invariant Normalise(toks[..i], toks[i..]) == Normalise([], raw)
      decreases |toks| - i
    {
      var t := Rewritten(toks[i], toks[..i]);
      if UnknownDirective(t) {
        return Err(Error(InvalidDirective, 0));
      }
      if t.kind == DIR {
        t := Token(DIR, VStr(Upper(ValueText(t.value))));
      }
      NormaliseSplice(toks, i);
      if i > 0 && !Separates(t.kind) && toks[i - 1].kind == REF {
        toks := toks[..i - 1] + [Joined(toks[i - 1], t)] + toks[i + 1..];
      } else {
        toks := toks[..i] + [t] + toks[i + 1..];
        i := i + 1;
      }
    }
    assert toks[..i] == toks && toks[i..] == [];
    return Ok(toks);
  }

  /** One turn of the in-place fixing pass: the token at `i` fixed and either joined to
      the `REF` before it or put back in its place; what the pass then yields is unchanged. */
  lemma NormaliseSplice(toks: seq<Token>, i: int)
    requires 0 <= i < |toks| && !UnknownDirective(Rewritten(toks[i], toks[..i]))
    ensures var t0 := Rewritten(toks[i], toks[..i]);
            var t := if t0.kind == DIR then Token(DIR, VStr(Upper(ValueText(t0.value)))) else t0;
            if i > 0 && !Separates(t.kind) && toks[i - 1].kind == REF then
              var n := toks[..i - 1] + [Joined(toks[i - 1], t)] + toks[i + 1..];
              Normalise(n[..i], n[i..]) == Normalise(toks[..i], toks[i..])
            else
              var n := toks[..i] + [t] + toks[i + 1..];
              Normalise(n[..i + 1], n[i + 1..]) == Normalise(toks[..i], toks[i..])
  {
    var t0 := Rewritten(toks[i], toks[..i]);
    var t := if t0.kind == DIR then Token(DIR, VStr(Upper(ValueText(t0.value)))) else t0;
    NormaliseStep(toks[..i], toks[i..]);
    if i > 0 && !Separates(t.kind) && toks[i - 1].kind == REF {
      var n := toks[..i - 1] + [Joined(toks[i - 1], t)] + toks[i + 1..];
      assert n[..i] == toks[..i][..i - 1] + [Joined(toks[..i][i - 1], t)];
      assert n[i..] == toks[i..][1..];
    } else {
      var n := toks[..i] + [t] + toks[i + 1..];
      assert n[..i + 1] == toks[..i] + [t];
      assert n[i + 1..] == toks[i..][1..];
    }
  }

  // ---------------------------------------------------------------------------
  // tokenize

  /** `code.split('\n')`: the pieces between line feeds, always at least one. */
  function SplitLines(s: string): (ls: seq<string>)
    ensures |ls| >= 1
    ensures forall i :: 0 <= i < |ls| ==> '\n' !in ls[i]
    decreases |s|
  {
    if s == [] then [""]
    else
      var rest := SplitLines(s[1..]);
      if s[0] == '\n' then [""] + rest else [[s[0]] + rest[0]] + rest[1..]
  }

  /** The pieces put back together with a line feed between neighbours. */
  function JoinLines(ls: seq<string>): string
    requires |ls| >= 1
    decreases |ls|
  {
    if |ls| == 1 then ls[0] else ls[0] + "\n" + JoinLines(ls[1..])
  }

  /** Splitting loses nothing: joining the lines gives back the text. */
  lemma {:induction false} SplitJoin(s: string)
    ensures JoinLines(SplitLines(s)) == s
    decreases |s|
  {
    if s != [] {
      var rest := SplitLines(s[1..]);
      SplitJoin(s[1..]);
      if s[0] == '\n' {
        assert ([""] + rest)[1..] == rest;
        assert s == [s[0]] + s[1..];
      } else {
        var ls := [[s[0]] + rest[0]] + rest[1..];
        if |rest| == 1 {
          assert s == [s[0]] + s[1..];
        } else {
          assert ls[1..] == rest[1..];
          assert JoinLines(rest) == rest[0] + "\n" + JoinLines(rest[1..]);
          assert s == [s[0]] + s[1..];
        }
      }
    }
  }

  /** One line of code, with the blank the source appends, scanned and fixed. */
  function LexLine(text: string, number: int): Result<seq<Token>> {
    TableSearch();
    match ScanFrom(NextLexeme, text + " ", 0, number, [])
    case Err(e) => Err(e)
    case Ok(raw) => Normalise([], raw)
  }

  /** A lexed line satisfies the three line invariants of the fixing pass. */
  lemma LexLineWellFormed(text: string, number: int)
    ensures LexLine(text, number).Ok? ==> WellFormedLine(LexLine(text, number).value)
  {
    TableSearch();
    ScanSucceeds(NextLexeme, text + " ", 0, number, []);
    NormaliseWellFormed([], ScanFrom(NextLexeme, text + " ", 0, number, []).value);
  }

  /** The two lists `tokenize` returns: the token lines and their 1-based line numbers. */
  datatype TokenLines = TokenLines(lines: seq<seq<Token>>, numbers: seq<int>)

  /** The result with `acc` in front of the lines of `r`. */
  function Glue(acc: TokenLines, r: Result<TokenLines>): Result<TokenLines> {
    match r
    case Ok(t) => Ok(TokenLines(acc.lines + t.lines, acc.numbers + t.numbers))
    case Err(e) => Err(e)
  }

  /** The lexing of every line of the code, numbered from 1. */
  function LexAll(ls: seq<string>): (rs: seq<Result<seq<Token>>>)
    ensures |rs| == |ls|
  {
    seq(|ls|, i requires 0 <= i < |ls| => LexLine(ls[i], i + 1))
  }

  lemma LexAllAt(ls: seq<string>, i: nat)
    requires i < |ls|
    ensures LexAll(ls)[i] == LexLine(ls[i], i + 1)
  {
  }

  /** `tokenize` from line `k` on, given the lexing `rs` of each line: lines are taken in
      order, the first failure is the result, and lines without tokens are dropped. */
  function Collect(rs: seq<Result<seq<Token>>>, k: nat): Result<TokenLines>
    requires k <= |rs|
    decreases |rs| - k
  {
    if k == |rs| then Ok(TokenLines([], []))
    else match rs[k]
      case Err(e) => Err(e)
      case Ok(toks) =>
        Glue(if toks == [] then TokenLines([], []) else TokenLines([toks], [k + 1]),
             Collect(rs, k + 1))
  }

  function Tokenized(code: string): Result<TokenLines> {
    Collect(LexAll(SplitLines(code)), 0)
  }

  /** What `tokenize` returns, given the lexing `rs` of the lines: two lists of equal length;
      every token line is non-empty and is the lexing of the line its number names; the
      numbers increase strictly and stay within the text. */
  predicate Numbered(rs: seq<Result<seq<Token>>>, k: nat, t: TokenLines)
  {
    && |t.lines| == |t.numbers|
    && (forall i :: 0 <= i < |t.numbers| ==>
          k < t.numbers[i] <= |rs| && t.lines[i] != [] && rs[t.numbers[i] - 1] == Ok(t.lines[i]))
    && (forall i, j :: 0 <= i < j < |t.numbers| ==> t.numbers[i] < t.numbers[j])
  }

  lemma NumberedCons(rs: seq<Result<seq<Token>>>, k: nat, toks: seq<Token>, rest: TokenLines)
    requires k < |rs| && Numbered(rs, k + 1, rest)
    requires toks != [] && rs[k] == Ok(toks)
    ensures Numbered(rs, k, TokenLines([toks] + rest.lines, [k + 1] + rest.numbers))
  {
    var t := TokenLines([toks] + rest.lines, [k + 1] + rest.numbers);
    forall i | 0 <= i < |t.numbers|
      ensures k < t.numbers[i] <= |rs| && t.lines[i] != [] && rs[t.numbers[i] - 1] == Ok(t.lines[i])
    {
      if i > 0 { assert t.numbers[i] == rest.numbers[i - 1] && t.lines[i] == rest.lines[i - 1]; }
    }
    forall i, j | 0 <= i < j < |t.numbers|
      ensures t.numbers[i] < t.numbers[j]
    {
      assert t.numbers[j] == rest.numbers[j - 1];
      if i > 0 { assert t.numbers[i] == rest.numbers[i - 1]; }
    }
  }

  lemma NumberedFrom(rs: seq<Result<seq<Token>>>, k: nat, t: TokenLines)
    requires Numbered(rs, k + 1, t)
    ensures Numbered(rs, k, t)
  {
  }

  lemma {:induction false} CollectNumbered(rs: seq<Result<seq<Token>>>, k: nat)
    requires k <= |rs|
    ensures Collect(rs, k).Ok? ==> Numbered(rs, k, Collect(rs, k).value)
    decreases |rs| - k
  {
    if k < |rs| && Collect(rs, k).Ok? {
      CollectNumbered(rs, k + 1);
      var toks := rs[k].value;
      var rest := Collect(rs, k + 1).value;
      if toks != [] {
        assert Collect(rs, k).value == TokenLines([toks] + rest.lines, [k + 1] + rest.numbers);
        NumberedCons(rs, k, toks, rest);
      } else {
        assert Collect(rs, k).value == TokenLines([] + rest.lines, [] + rest.numbers);
        assert [] + rest.lines == rest.lines && [] + rest.numbers == rest.numbers;
        NumberedFrom(rs, k, rest);
      }
    }
  }

  /** Collecting fails exactly with the first failing line. */
  lemma {:induction false} CollectFails(rs: seq<Result<seq<Token>>>, k: nat)
    requires k <= |rs|
    ensures Collect(rs, k).Err? <==> exists i :: k <= i < |rs| && rs[i].Err?
    ensures Collect(rs, k).Err? ==> exists i :: k <= i < |rs| && rs[i].Err? && rs[i].error == Collect(rs, k).error
                                     && forall j :: k <= j < i ==> rs[j].Ok?
    decreases |rs| - k
  {
    if k < |rs| {
      CollectFails(rs, k + 1);
      if rs[k].Ok? && Collect(rs, k).Err? {
        assert Collect(rs, k) == Collect(rs, k + 1);
      }
    }
  }

  /** The result of `tokenize`: every token line is non-empty, well formed and the lexing of
      the source line its number names; the numbers increase strictly from 1 on; and it fails
      only on a directive missing from `DIRECTIVES`. */
  lemma TokenizedShape(code: string)
    ensures Tokenized(code).Ok? ==>
              var t := Tokenized(code).value;
              && Numbered(LexAll(SplitLines(code)), 0, t)
              && forall i :: 0 <= i < |t.lines| ==> WellFormedLine(t.lines[i])
    ensures Tokenized(code).Err? ==> Tokenized(code).error == Error(InvalidDirective, 0)
  {
    var ls := SplitLines(code);
    LexAllShape(ls);
    CollectShape(LexAll(ls));
  }

  /** What every line's lexing gives: well-formed tokens, or the unknown directive error. */
  ghost predicate LinesShaped(rs: seq<Result<seq<Token>>>) {
    forall i :: 0 <= i < |rs| ==>
      (rs[i].Ok? ==> WellFormedLine(rs[i].value)) && (rs[i].Err? ==> rs[i].error == Error(InvalidDirective, 0))
  }

  lemma LexAllShape(ls: seq<string>)
    ensures LinesShaped(LexAll(ls))
  {
    forall i | 0 <= i < |ls|
      ensures LexAll(ls)[i].Ok? ==> WellFormedLine(LexAll(ls)[i].value)
      ensures LexAll(ls)[i].Err? ==> LexAll(ls)[i].error == Error(InvalidDirective, 0)
    {
      LexAllAt(ls, i);
      LineShaped(LexAll(ls)[i], ls[i], i + 1);
    }
  }

  lemma LineShaped(r: Result<seq<Token>>, text: string, number: int)
    requires r == LexLine(text, number)
    ensures r.Ok? ==> WellFormedLine(r.value)
    ensures r.Err? ==> r.error == Error(InvalidDirective, 0)
  {
    LexLineWellFormed(text, number);
    LexLineFails(text, number);
  }

  lemma CollectShape(rs: seq<Result<seq<Token>>>)
    requires LinesShaped(rs)
    ensures Collect(rs, 0).Ok? ==>
              var t := Collect(rs, 0).value;
              Numbered(rs, 0, t) && forall i :: 0 <= i < |t.lines| ==> WellFormedLine(t.lines[i])
    ensures Collect(rs, 0).Err? ==> Collect(rs, 0).error == Error(InvalidDirective, 0)
  {
    CollectNumbered(rs, 0);
    CollectFails(rs, 0);
    if Collect(rs, 0).Ok? {
      var t := Collect(rs, 0).value;
      forall i | 0 <= i < |t.lines|
        ensures WellFormedLine(t.lines[i])
      {
        assert rs[t.numbers[i] - 1] == Ok(t.lines[i]);
      }
    }
  }

  /** A line fails to lex only on an unknown directive. */
  lemma LexLineFails(text: string, number: int)
    ensures LexLine(text, number).Err? ==> LexLine(text, number).error == Error(InvalidDirective, 0)
  {
    TableSearch();
    ScanSucceeds(NextLexeme, text + " ", 0, number, []);
    NormaliseFailsOnDirective([], ScanFrom(NextLexeme, text + " ", 0, number, []).value);
  }

  lemma {:induction false} NormaliseFailsOnDirective(acc: seq<Token>, rest: seq<Token>)
    ensures Normalise(acc, rest).Err? ==> Normalise(acc, rest).error == Error(InvalidDirective, 0)
    decreases |rest|
  {
    if rest != [] {
      var t := Rewritten(rest[0], acc);
      var u := if t.kind == DIR then Token(DIR, VStr(Upper(ValueText(t.value)))) else t;
      if |acc| > 0 && !Separates(u.kind) && acc[|acc| - 1].kind == REF {
        NormaliseFailsOnDirective(acc[..|acc| - 1] + [Joined(acc[|acc| - 1], u)], rest[1..]);
      } else {
        NormaliseFailsOnDirective(acc + [u], rest[1..]);
      }
    }
  }

  lemma GlueNothing(r: Result<TokenLines>)
    ensures Glue(TokenLines([], []), r) == r
  {
    if r.Ok? {
      assert [] + r.value.lines == r.value.lines;
      assert [] + r.value.numbers == r.value.numbers;
    }
  }

  lemma GlueTwice(a: TokenLines, b: TokenLines, r: Result<TokenLines>)
    ensures Glue(a, Glue(b, r)) == Glue(TokenLines(a.lines + b.lines, a.numbers + b.numbers), r)
  {
    if r.Ok? {
      assert a.lines + (b.lines + r.value.lines) == (a.lines + b.lines) + r.value.lines;
      assert a.numbers + (b.numbers + r.value.numbers) == (a.numbers + b.numbers) + r.value.numbers;
    }
  }

  /** The lines collected so far, with the tokens of line `n` added when there are any. */
  function Added(acc: TokenLines, toks: seq<Token>, n: int): TokenLines {
    if toks == [] then acc else TokenLines(acc.lines + [toks], acc.numbers + [n])
  }

  /** One turn of the line loop of `tokenize`: a line that fails is the result, and a line
      that lexes is added to the lines collected so far when it has tokens. */
  lemma CollectStep(rs: seq<Result<seq<Token>>>, k: nat, acc: TokenLines)
    requires k < |rs|
    ensures rs[k].Err? ==> Glue(acc, Collect(rs, k)) == Err(rs[k].error)
    ensures rs[k].Ok? ==> Glue(acc, Collect(rs, k)) == Glue(Added(acc, rs[k].value, k + 1), Collect(rs, k + 1))
  {
    if rs[k].Ok? {
      var toks := rs[k].value;
      var step := if toks == [] then TokenLines([], []) else TokenLines([toks], [k + 1]);
      GlueTwice(acc, step, Collect(rs, k + 1));
      if toks == [] {
        assert acc.lines + [] == acc.lines && acc.numbers + [] == acc.numbers;
      }
    }
  }

  /** The body of `tokenize`'s line loop: the match loop, then the fixing pass. */
  method LexOneLine(text: string, number: int) returns (r: Result<seq<Token>>)
    ensures r == LexLine(text, number)
  {
    TableSearch();
    var scanned := ScanLine(NextLexeme, text + " ", number);
    if scanned.Err? {
      return Err(scanned.error);
    }
    r := NormaliseLine(scanned.value);
  }

  /** `tokenize`: the loop over the lines of the code. */
  method Tokenize(code: string) returns (r: Result<TokenLines>)
    ensures r == Tokenized(code)
  {
    var codeArr := SplitLines(code);
    var tokens: seq<seq<Token>> := [];
    var lineNums: seq<int> := [];
    ghost var rs := LexAll(codeArr);
    GlueNothing(Collect(rs, 0));
    var lineNumber := 0;
    while lineNumber < |codeArr|
      invariant lineNumber <= |codeArr|
      invariant Tokenized(code) == Glue(TokenLines(tokens, lineNums), Collect(rs, lineNumber))
      decreases |codeArr| - lineNumber
    {
      var lineToks := LexOneLine(codeArr[lineNumber], lineNumber + 1);
      LexAllAt(codeArr, lineNumber);
      CollectStep(rs, lineNumber, TokenLines(tokens, lineNums));
      if lineToks.Err? {
        return Err(lineToks.error);
      }
      if lineToks.value != [] {
        tokens := tokens + [lineToks.value];
        lineNums := lineNums + [lineNumber + 1];
      }
      lineNumber := lineNumber + 1;
    }
    assert tokens + [] == tokens && lineNums + [] == lineNums;
    return Ok(TokenLines(tokens, lineNums));
  }

  /** The `Lexer` object: the text it was given and the two lists `tokenize` made of it. */
  class Lexer {
    var text: string
    var tokenLines: seq<seq<Token>>
    var lineNumbers: seq<int>

    constructor()
      ensures text == [] && tokenLines == [] && lineNumbers == []
    {
      text := [];
      tokenLines := [];
      lineNumbers := [];
    }

    /** `newData`: keep the text and tokenize it; on failure the token lists are untouched. */
    method NewData(code: string) returns (r: Outcome)
      modifies this
      ensures text == code
      ensures Tokenized(code).Ok? ==> r == Pass && tokenLines == Tokenized(code).value.lines
                                      && lineNumbers == Tokenized(code).value.numbers
      ensures Tokenized(code).Err? ==> r == Fail(Tokenized(code).error)
                                       && tokenLines == old(tokenLines) && lineNumbers == old(lineNumbers)
    {
      text := code;
      var toks := Tokenize(code);
      if toks.Err? {
        return Fail(toks.error);
      }
      tokenLines := toks.value.lines;
      lineNumbers := toks.value.numbers;
      return Pass;
    }
  }
}
