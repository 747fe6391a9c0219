/** The operand validator: `Argument.isLegalToken` and the `INST_OPERANDS` table. */
module Operand {
  import opened Base
  import opened Tokens
  import opened Isa

  /** The legal token types of an operand. The source gives most of them as an array and a
      few as a bare string; on a string `includes` tests for a substring, so `'WORDPLUSQ'`
      also admits `WORD` and `WORDPLUS` tokens. */
  datatype TypeSpec = Types(kinds: seq<Kind>) | TypeName(name: string)

  /** `new Argument(token_type, min_val, max_val, options_list, exact_value)` */
  datatype Argument = Argument(
    types: TypeSpec,
    min: Option<int>,
    max: Option<int>,
    options: Option<seq<Value>>,
    exact: Option<Value>)

  predicate IsPrefix(p: string, s: string) {
    p == [] || (s != [] && p[0] == s[0] && IsPrefix(p[1..], s[1..]))
  }

  /** `s.includes(p)` for strings. */
  predicate Contains(s: string, p: string)
    decreases |s|
  {
    IsPrefix(p, s) || (s != [] && Contains(s[1..], p))
  }

  /** `legal_token_types.includes(tok.getType())` */
  predicate Admits(t: TypeSpec, k: Kind) {
    match t
    case Types(ks) => k in ks
    case TypeName(n) => Contains(n, KindName(k))
  }

  /** The value the range check compares: a `WORDPLUSQ` token (`Y+q`, `Z+q`) is cut to the
      `parseInt` of what follows its first two characters. */
  function RangeValue(tok: Token): Value {
    if tok.kind == WORDPLUSQ then
      match tok.value
      case VStr(s) =>
        var q := if |s| >= 2 then ParseInt(s[2..], 10) else None;
        if q.Some? then VInt(q.value) else VNaN
      case _ => VNaN
    else tok.value
  }

  /** `min <= val && val <= max`. Only numbers can pass: `undefined` and `NaN` compare false,
      and no string a token carries reads as a number. */
  predicate InRange(v: Value, lo: int, hi: int) {
    v.VInt? && lo <= v.n <= hi
  }

  /** `isLegalToken`: the token type, then the range (skipped for `REF`), then the options list
      (an `INT` outside it passes), then the exact value; the first failing check decides. */
  function IsLegalToken(arg: Argument, tok: Token, line: int): Outcome {
    if !Admits(arg.types, tok.kind) then Fail(Error(IllegalToken, line))
    else if arg.min.Some? && arg.max.Some? && tok.kind != REF
         && !InRange(RangeValue(tok), arg.min.value, arg.max.value)
    then Fail(Error(IllegalArgument, line))
    else if arg.options.Some? && tok.value !in arg.options.value && tok.kind != INT
    then Fail(Error(IllegalArgument, line))
    else if arg.exact.Some? && tok.value != arg.exact.value
    then Fail(Error(IllegalArgument, line))
    else Pass
  }

  /** The operand loop of the final pass: every given operand from `k` on against the
      expected one, in order, stopping at the first failure. */
  function CheckOperands(expected: seq<Argument>, given: seq<Token>, line: int, k: nat): (r: Outcome)
    requires |expected| == |given|
    ensures r == Pass <==> forall i :: k <= i < |given| ==> IsLegalToken(expected[i], given[i], line) == Pass
    ensures r.Fail? ==> exists i :: k <= i < |given| && r == IsLegalToken(expected[i], given[i], line)
                                && (forall j :: k <= j < i ==> IsLegalToken(expected[j], given[j], line) == Pass)
    decreases |given| - k
  {
    if k >= |given| then Pass
    else
      var first := IsLegalToken(expected[k], given[k], line);
      if first.Fail? then first else CheckOperands(expected, given, line, k + 1)
  }

  // ---------------------------------------------------------------------------
  // what the validator accepts

  lemma {:induction false} ContainsLength(s: string, p: string)
    ensures Contains(s, p) ==> |p| <= |s|
    decreases |s|
  {
    PrefixLength(p, s);
    if s != [] { ContainsLength(s[1..], p); }
  }

  lemma {:induction false} PrefixOfConcat(p: string, q: string)
    ensures IsPrefix(p, p + q)
    decreases |p|
  {
    if p != [] {
      assert (p + q)[1..] == p[1..] + q;
      PrefixOfConcat(p[1..], q);
    }
  }

  lemma KindNames()
    ensures KindName(WORD) == "WORD" && KindName(WORDPLUS) == "WORDPLUS"
    ensures KindName(WORDPLUSQ) == "WORDPLUSQ"
  {
  }

  lemma NameSplits()
    ensures "WORD" + "PLUSQ" == "WORDPLUSQ" && "WORDPLUS" + "Q" == "WORDPLUSQ"
    ensures "WORDPLUSQ" + [] == "WORDPLUSQ"
  {
  }

  /** `'WORDPLUSQ'.includes` holds for `WORD`, `WORDPLUS` and `WORDPLUSQ`. */
  lemma DisplacementTypes()
    ensures Admits(WordPlusQ0To63.types, WORD) && Admits(WordPlusQ0To63.types, WORDPLUS)
    ensures Admits(WordPlusQ0To63.types, WORDPLUSQ)
  {
    KindNames();
    NameSplits();
    PrefixOfConcat("WORD", "PLUSQ");
    PrefixOfConcat("WORDPLUS", "Q");
    PrefixOfConcat("WORDPLUSQ", []);
  }

  lemma {:induction false} PrefixLength(p: string, s: string)
    ensures IsPrefix(p, s) ==> |p| <= |s|
    decreases |p|
  {
    if p != [] && s != [] { PrefixLength(p[1..], s[1..]); }
  }

  /** A bare `'INT'` admits only `INT` tokens, and a bare `'WORD'` only `WORD` tokens. */
  lemma SingleNameAdmits(k: Kind)
    ensures Admits(TypeName("INT"), k) <==> k == INT
    ensures Admits(TypeName("WORD"), k) <==> k == WORD
  {
    if k in {LABEL, LO8, HI8, REG, INT, INST, STR, DIR} { SingleNameAdmits0(k); }
    else if k in {WORDPLUSQ, XPLUSQ, WORDPLUS, MINUSWORD, WORD, COMMA, LPAR, RPAR} { SingleNameAdmits1(k); }
    else if k in {PLUS, MINUS, TIMES, DIV, LOGAND, BITAND, LOGOR, BITOR} { SingleNameAdmits2(k); }
    else if k in {BITXOR, BITNOT, NEQ, LOGNOT, GEQ, LEQ, DEQ, RSHIFT} { SingleNameAdmits3(k); }
    else if k in {LSHIFT, GT, LT, EQ, SYMBOL, REF} { SingleNameAdmits4(k); }
  }

  lemma SingleNameAdmits0(k: Kind)
    requires k in {LABEL, LO8, HI8, REG, INT, INST, STR, DIR}
    ensures Contains("INT", KindName(k)) <==> k == INT
    ensures Contains("WORD", KindName(k)) <==> k == WORD
  {
    var n := KindName(k);
    ContainsLength("INT", n); ContainsLength("NT", n); ContainsLength("T", n);
    ContainsLength("WORD", n);
    ContainsLength("ORD", n); ContainsLength("RD", n); ContainsLength("D", n);
    match k
    case LABEL =>
    case LO8 =>
    case HI8 =>
    case REG =>
    case INT =>
    case INST =>
    case STR =>
    case DIR =>
  }

  lemma SingleNameAdmits1(k: Kind)
    requires k in {WORDPLUSQ, XPLUSQ, WORDPLUS, MINUSWORD, WORD, COMMA, LPAR, RPAR}
    ensures Contains("INT", KindName(k)) <==> k == INT
    ensures Contains("WORD", KindName(k)) <==> k == WORD
  {
    var n := KindName(k);
    ContainsLength("INT", n); ContainsLength("NT", n); ContainsLength("T", n);
    ContainsLength("WORD", n);
    ContainsLength("ORD", n); ContainsLength("RD", n); ContainsLength("D", n);
    match k
    case WORDPLUSQ =>
    case XPLUSQ =>
    case WORDPLUS =>
    case MINUSWORD =>
    case WORD =>
    case COMMA =>
    case LPAR =>
    case RPAR =>
  }

  lemma SingleNameAdmits2(k: Kind)
    requires k in {PLUS, MINUS, TIMES, DIV, LOGAND, BITAND, LOGOR, BITOR}
    ensures Contains("INT", KindName(k)) <==> k == INT
    ensures Contains("WORD", KindName(k)) <==> k == WORD
  {
    var n := KindName(k);
    ContainsLength("INT", n); ContainsLength("NT", n); ContainsLength("T", n);
    ContainsLength("WORD", n);
    ContainsLength("ORD", n); ContainsLength("RD", n); ContainsLength("D", n);
    match k
    case PLUS =>
    case MINUS =>
    case TIMES =>
    case DIV =>
    case LOGAND =>
    case BITAND =>
    case LOGOR =>
    case BITOR =>
  }

  lemma SingleNameAdmits3(k: Kind)
    requires k in {BITXOR, BITNOT, NEQ, LOGNOT, GEQ, LEQ, DEQ, RSHIFT}
    ensures Contains("INT", KindName(k)) <==> k == INT
    ensures Contains("WORD", KindName(k)) <==> k == WORD
  {
    var n := KindName(k);
    ContainsLength("INT", n); ContainsLength("NT", n); ContainsLength("T", n);
    ContainsLength("WORD", n);
    ContainsLength("ORD", n); ContainsLength("RD", n); ContainsLength("D", n);
    match k
    case BITXOR =>
    case BITNOT =>
    case NEQ =>
    case LOGNOT =>
    case GEQ =>
    case LEQ =>
    case DEQ =>
    case RSHIFT =>
  }

  lemma SingleNameAdmits4(k: Kind)
    requires k in {LSHIFT, GT, LT, EQ, SYMBOL, REF}
    ensures Contains("INT", KindName(k)) <==> k == INT
    ensures Contains("WORD", KindName(k)) <==> k == WORD
  {
    var n := KindName(k);
    ContainsLength("INT", n); ContainsLength("NT", n); ContainsLength("T", n);
    ContainsLength("WORD", n);
    ContainsLength("ORD", n); ContainsLength("RD", n); ContainsLength("D", n);
    match k
    case LSHIFT =>
    case GT =>
    case LT =>
    case EQ =>
    case SYMBOL =>
    case REF =>
  }

  /** The substring test lets `WORD` and `WORDPLUS` tokens through the type check of an
      `LDD`/`STD` displacement, and the range check rejects them. */
  lemma DisplacementAdmitsPointers(s: string, line: int)
    ensures Admits(WordPlusQ0To63.types, WORD) && Admits(WordPlusQ0To63.types, WORDPLUS)
    ensures IsLegalToken(WordPlusQ0To63, Token(WORD, VStr(s)), line) == Fail(Error(IllegalArgument, line))
    ensures IsLegalToken(WordPlusQ0To63, Token(WORDPLUS, VStr(s)), line) == Fail(Error(IllegalArgument, line))
  {
    DisplacementTypes();
  }

  /** A displacement `Y+q`/`Z+q` is legal exactly when the digits after its first two
      characters read as a number from 0 to 63. */
  lemma DisplacementRange(s: string, line: int)
    requires |s| >= 2
    ensures IsLegalToken(WordPlusQ0To63, Token(WORDPLUSQ, VStr(s)), line) == Pass <==>
              ParseInt(s[2..], 10).Some? && 0 <= ParseInt(s[2..], 10).value <= 63
  {
    DisplacementTypes();
  }

  /** Register operands: the bounds of `reg_0_31` and `reg_16_31`, and the even pairs of
      `reg_word_low` and `word_wxyz`. */
  lemma RegisterRanges(n: int, line: int)
    ensures IsLegalToken(Reg0To31, Token(REG, VInt(n)), line) == Pass <==> 0 <= n <= 31
    ensures IsLegalToken(Reg16To31, Token(REG, VInt(n)), line) == Pass <==> 16 <= n <= 31
  {
  }

  lemma WordLowOptions()
    ensures |RegWordLow.options.value| == 16
    ensures forall i :: 0 <= i < 16 ==> RegWordLow.options.value[i] == VInt(2 * i)
  {
  }

  lemma RegisterPairs(n: int, line: int)
    ensures IsLegalToken(RegWordPair, Token(REG, VInt(n)), line) == Pass <==> n in {24, 26, 28, 30}
    ensures IsLegalToken(RegWordLow, Token(REG, VInt(n)), line) == Pass <==>
              0 <= n <= 30 && n % 2 == 0
  {
    WordLowOptions();
    if 0 <= n <= 30 && n % 2 == 0 {
      assert RegWordLow.options.value[n / 2] == VInt(n);
    }
  }

  /** An `INT` operand outside an options list is not rejected: `ADIW 25, 1` and `MOVW 3, 5`
      pass the validator, and so does every integer call target in range. */
  lemma IntSkipsOptions(n: int, line: int)
    ensures IsLegalToken(RegWordPair, Token(INT, VInt(n)), line) == Pass
    ensures IsLegalToken(RegWordLow, Token(INT, VInt(n)), line) == Pass
    ensures IsLegalToken(CallTarget, Token(INT, VInt(n)), line) == Pass <==> 0 <= n <= 4194303
  {
  }

  /** A `REF` skips the range check: the only name a call accepts is `printf`. */
  lemma CallByName(v: Value, line: int)
    ensures IsLegalToken(CallTarget, Token(REF, v), line) == Pass <==> v == VStr("printf")
  {
  }

  /** The relative jump field takes integers from -2048 to 2047 and nothing else. */
  lemma RelativeTarget(tok: Token, line: int)
    ensures IsLegalToken(RelTarget, tok, line) == Pass <==>
              tok.kind == INT && tok.value.VInt? && -2048 <= tok.value.n <= 2047
  {
    SingleNameAdmits(tok.kind);
  }

  /** `XCH` takes the pointer `Z` and nothing else. */
  lemma ExchangePointer(tok: Token, line: int)
    ensures IsLegalToken(ZOnly, tok, line) == Pass <==> tok == Token(WORD, VStr("Z"))
  {
    SingleNameAdmits(tok.kind);
  }

  // ---------------------------------------------------------------------------
  // the operand kinds of INST_OPERANDS

  const Reg0To31 := Argument(Types([REG, INT]), Some(0), Some(31), None, None)
  const Reg16To31 := Argument(Types([REG, INT]), Some(16), Some(31), None, None)
  const RegWordLow := Argument(Types([REG, INT]), None, None,
    Some([VInt(0), VInt(2), VInt(4), VInt(6), VInt(8), VInt(10), VInt(12), VInt(14), VInt(16),
          VInt(18), VInt(20), VInt(22), VInt(24), VInt(26), VInt(28), VInt(30)]), None)
  const Int0To7 := Argument(TypeName("INT"), Some(0), Some(7), None, None)
  const Int0To31 := Argument(TypeName("INT"), Some(0), Some(31), None, None)
  const Int0To63 := Argument(TypeName("INT"), Some(0), Some(63), None, None)
  const Int0To255 := Argument(TypeName("INT"), Some(0), Some(255), None, None)
  const IntN64To63 := Argument(TypeName("INT"), Some(-64), Some(63), None, None)
  const WordPlusQ0To63 := Argument(TypeName("WORDPLUSQ"), Some(0), Some(63), None, None)
  const RegWordPair := Argument(Types([REG, INT]), None, None,
    Some([VInt(24), VInt(26), VInt(28), VInt(30)]), None)
  const CallTarget := Argument(Types([INT, REF]), Some(0), Some(4194303), Some([VStr("printf")]), None)
  const JumpTarget := Argument(TypeName("INT"), Some(0), Some(4194303), None, None)
  const Pointer := Argument(Types([WORD, MINUSWORD, WORDPLUS]), None, None, None, None)
  const DataAddress := Argument(TypeName("INT"), Some(256), Some(65535), None, None)
  const ZPointer := Argument(Types([WORD, WORDPLUS]), None, None, None, None)
  const Reg16To23 := Argument(Types([REG, INT]), Some(16), Some(23), None, None)
  const RelTarget := Argument(TypeName("INT"), Some(-2048), Some(2047), None, None)
  const ZOnly := Argument(TypeName("WORD"), None, None, None, Some(VStr("Z")))

  /** `INST_OPERANDS`: the operands each mnemonic expects; `None` for the ones that take
      none. The mnemonics are grouped by the operand list they share. */
  function OperandTable(m: Mnemonic): Option<seq<Argument>> {
    if m in {ADC, ADD, AND, CP, CPC, CPSE, EOR, MOV, MUL, OR, SBC, SUB} then Some([Reg0To31, Reg0To31])
    else if m in {ASR, CLR, COM, DEC, INC, LSL, LSR, NEG, POP, PUSH, ROL, ROR, SER, SWAP, TST} then Some([Reg0To31])
    else if BRCC <= m <= BRVS then Some([IntN64To63])
    else if m in {CLC, CLH, CLI, CLN, CLS, CLT, CLV, CLZ, ICALL, IJMP, NOP, RET, SEC, SEH, SEI, SEN, SES, SET, SEV, SEZ} then None
    else if m in {ANDI, CBR, CPI, LDI, ORI, SBCI, SBR, SUBI} then Some([Reg16To31, Int0To255])
    else if m in {BLD, BST, SBRC, SBRS} then Some([Reg0To31, Int0To7])
    else if m in {ADIW, SBIW} then Some([RegWordPair, Int0To63])
    else if m in {BCLR, BSET} then Some([Int0To7])
    else if m in {BRBC, BRBS} then Some([Int0To7, IntN64To63])
    else if m in {CBI, SBI} then Some([Int0To31, Int0To7])
    else if m in {RCALL, RJMP} then Some([RelTarget])
    else if m == CALL then Some([CallTarget])
    else if m == JMP then Some([JumpTarget])
    else if m == IN then Some([Reg0To31, Int0To63])
    else if m == OUT then Some([Int0To63, Reg0To31])
    else if m == LD then Some([Reg0To31, Pointer])
    else if m == ST then Some([Pointer, Reg0To31])
    else if m == LDD then Some([Reg0To31, WordPlusQ0To63])
    else if m == STD then Some([WordPlusQ0To63, Reg0To31])
    else if m == LDS then Some([Reg0To31, DataAddress])
    else if m == STS then Some([DataAddress, Reg0To31])
    else if m == LPM then Some([Reg0To31, ZPointer])
    else if m == MOVW then Some([RegWordLow, RegWordLow])
    else if m == MULS then Some([Reg16To31, Reg16To31])
    else if m == MULSU then Some([Reg16To23, Reg16To23])
    else Some([ZOnly, Reg0To31])
  }
}
