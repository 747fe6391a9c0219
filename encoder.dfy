/** The instruction encoder: `Instruction.binLenDigits`, `twosComp`, `countElements` and
    `makeOpcode` over the `INST_OPCODES` table. Opcodes are strings of '0'/'1' characters,
    most significant bit first, as the source builds them. */
module Encoder {
  import opened Base
  import opened Tokens
  import opened Isa
  import Operand

  // ---------------------------------------------------------------------------
  // binary strings

  /** `n.toString(2)` for a natural number. */
  function Bin(n: nat): (s: string)
    ensures s != [] && forall i :: 0 <= i < |s| ==> IsBinDigit(s[i])
    decreases n
  {
    if n < 2 then [if n == 0 then '0' else '1'] else Bin(n / 2) + [if n % 2 == 0 then '0' else '1']
  }

  /** The characters `toString(2)` and the padding can produce (the point only for the
      halves of the hand-built opcodes). */
  predicate IsCodeChar(c: char) { c == '0' || c == '1' || c == '-' || c == '.' }

  predicate AllCodeChars(s: string) { forall i :: 0 <= i < |s| ==> IsCodeChar(s[i]) }

  /** `n.toString(2)`: a negative number prints as a minus sign and its magnitude. */
  function ToBinary(n: int): (s: string)
    ensures AllCodeChars(s)
  {
    if n < 0 then "-" + Bin(-n) else Bin(n)
  }

  function Repeat(c: char, k: nat): (s: string)
    ensures |s| == k && forall i :: 0 <= i < k ==> s[i] == c
  {
    if k == 0 then [] else [c] + Repeat(c, k - 1)
  }

  /** The source's fitting of a digit string to `w` characters: cut from the front when it
      is long enough, padded in front with `pad` otherwise. */
  function Fit(b: string, w: nat, pad: char): (r: string)
    ensures |r| == w
    ensures AllCodeChars(b) && IsCodeChar(pad) ==> AllCodeChars(r)
  {
    if |b| >= w then b[|b| - w..] else Repeat(pad, w - |b|) + b
  }

  /** `binLenDigits(n, w)` */
  function BinLenDigits(n: int, w: nat): (r: string)
    ensures |r| == w && AllCodeChars(r)
  {
    Fit(ToBinary(n), w, '0')
  }

  /** `(n / 2).toString(2)` in JavaScript's floating point: an even `n` halves exactly; an
      odd one leaves a half, printed as the binary fraction `.1` after the whole part. */
  function HalfBinary(n: int): (s: string)
    ensures AllCodeChars(s)
    ensures n % 2 == 0 ==> s == ToBinary(n / 2)
    ensures n % 2 == 1 ==> |s| >= 3 && s[|s| - 2..] == ".1"
  {
    if n % 2 == 0 then ToBinary(n / 2)
    else (if n < 0 then "-" else "") + Bin(if n < 0 then -n / 2 else n / 2) + ".1"
  }

  /** `binLenDigits(n / 2, w)` with the division in floating point. */
  function HalfLenDigits(n: int, w: nat): (r: string)
    ensures |r| == w && AllCodeChars(r)
    ensures n % 2 == 0 ==> r == BinLenDigits(n / 2, w)
  {
    Fit(HalfBinary(n), w, '0')
  }

  /** `twosComp(n, w)`: a non-negative number is plain binary; a negative one is written as
      `2^(w-1) + n`, cut or padded with '1's to `w` characters. */
  function TwosComp(n: int, w: nat): (r: string)
    requires w >= 1
    ensures |r| == w && AllCodeChars(r)
    ensures n >= 0 ==> r == BinLenDigits(n, w)
  {
    if n >= 0 then BinLenDigits(n, w) else Fit(ToBinary(Pow2(w - 1) + n), w, '1')
  }

  /** The number a '0'/'1' string denotes. */
  function BinValue(s: string): nat {
    if s == [] then 0 else 2 * BinValue(s[..|s| - 1]) + (if s[|s| - 1] == '1' then 1 else 0)
  }

  /** The number a `w`-character two's-complement string denotes. */
  function SignedValue(s: string): int {
    var v := BinValue(s);
    if |s| >= 1 && v >= Pow2(|s| - 1) then v - Pow2(|s|) else v
  }

  /** `countElements(s, c)` */
  function CountElements(s: string, c: char): (k: nat)
    ensures k <= |s|
  {
    if s == [] then 0 else (if s[0] == c then 1 else 0) + CountElements(s[1..], c)
  }

  /** `s.replace(c, d)` with one-character strings: the first `c` becomes `d`. */
  function ReplaceFirst(s: string, c: char, d: char): (r: string)
    ensures |r| == |s|
  {
    if s == [] then []
    else if s[0] == c then [d] + s[1..]
    else [s[0]] + ReplaceFirst(s[1..], c, d)
  }

  /** The occurrences of placeholder `c` in `t`, filled left to right with the characters
      of `b`; occurrences beyond `|b|` stay as they are. */
  function FillSym(t: string, c: char, b: string): (r: string)
    ensures |r| == |t|
  {
    if t == [] then []
    else if t[0] == c && b != [] then [b[0]] + FillSym(t[1..], c, b[1..])
    else [t[0]] + FillSym(t[1..], c, b)
  }

  /** Filling one placeholder leaves every other character where it was. */
  lemma {:induction false} FillSymKeeps(t: string, c: char, b: string)
    ensures forall i :: 0 <= i < |t| && t[i] != c ==> FillSym(t, c, b)[i] == t[i]
    decreases |t|
  {
    if t != [] {
      if t[0] == c && b != [] { FillSymKeeps(t[1..], c, b[1..]); } else { FillSymKeeps(t[1..], c, b); }
    }
  }

  // ---------------------------------------------------------------------------
  // the opcode table

  /** One entry of `INST_OPCODES`: a fixed opcode, placeholder letters (one per operand)
      with a template, or `null` for the mnemonics built by hand. */
  datatype Layout = Fixed(bits: string) | Template(syms: seq<char>, bits: string) | Irregular

  /** The length of a table entry: two program words for CALL, JMP, LDS and STS, one for
      the rest, except that the OUT template is one character short. */
  function Width(m: Mnemonic): nat {
    if IsTwoWord(m) then 32 else if m == OUT then 15 else 16
  }

  /** What every entry of the table satisfies: placeholders are letters, one per operand
      at most, and the opcode has the entry's width. */
  predicate Shaped(m: Mnemonic, l: Layout) {
    match l
    case Fixed(b) => |b| == 16
    case Template(syms, b) =>
      |syms| >= 1 && |b| == Width(m) && forall j :: 0 <= j < |syms| ==> IsLetter(syms[j])
    case Irregular => true
  }

  /** `INST_OPCODES`, split in six alphabetical runs. */
  function OpcodeSpec(m: Mnemonic): (l: Layout)
    ensures Shaped(m, l)
  {
    if m <= BRID then OpcodesAdcToBrid(m)
    else if m <= CLC then OpcodesBrieToClc(m)
    else if m <= IJMP then OpcodesClhToIjmp(m)
    else if m <= NOP then OpcodesInToNop(m)
    else if m <= SBRS then OpcodesOrToSbrs(m)
    else OpcodesSecToXch(m)
  }

  function OpcodesAdcToBrid(m: Mnemonic): (l: Layout)
    requires m <= BRID
    ensures Shaped(m, l)
  {
    if m == ADC then Template(['d', 'r'], "000111rdddddrrrr")
    else if m == ADD then Template(['d', 'r'], "000011rdddddrrrr")
    else if m == ADIW then Irregular
    else if m == AND then Template(['d', 'r'], "001000rdddddrrrr")
    else if m == ANDI then Template(['d', 'K'], "0111KKKKddddKKKK")
    else if m == ASR then Template(['d'], "1001010ddddd0101")
    else if m == BCLR then Template(['s'], "100101001sss1000")
    else if m == BLD then Template(['d', 'b'], "1111100ddddd0bbb")
    else if m == BRBC then Template(['s', 'k'], "111101kkkkkkksss")
    else if m == BRBS then Template(['s', 'k'], "111100kkkkkkksss")
    else if m == BRCC then Template(['k'], "111101kkkkkkk000")
    else if m == BRCS then Template(['k'], "111100kkkkkkk000")
    else if m == BREQ then Template(['k'], "111100kkkkkkk001")
    else if m == BRGE then Template(['k'], "111101kkkkkkk100")
    else if m == BRHC then Template(['k'], "111101kkkkkkk101")
    else if m == BRHS then Template(['k'], "111100kkkkkkk101")
    else Template(['k'], "111101kkkkkkk111")
  }

  function OpcodesBrieToClc(m: Mnemonic): (l: Layout)
    requires BRID < m && m <= CLC
    ensures Shaped(m, l)
  {
    if m == BRIE then Template(['k'], "111100kkkkkkk111")
    else if m == BRLO then Template(['k'], "111100kkkkkkk000")
    else if m == BRLT then Template(['k'], "111100kkkkkkk100")
    else if m == BRMI then Template(['k'], "111100kkkkkkk010")
    else if m == BRNE then Template(['k'], "111101kkkkkkk001")
    else if m == BRPL then Template(['k'], "111101kkkkkkk010")
    else if m == BRSH then Template(['k'], "111101kkkkkkk000")
    else if m == BRTC then Template(['k'], "111101kkkkkkk110")
    else if m == BRTS then Template(['k'], "111100kkkkkkk110")
    else if m == BRVC then Template(['k'], "111101kkkkkkk011")
    else if m == BRVS then Template(['k'], "111100kkkkkkk011")
    else if m == BSET then Template(['s'], "100101000sss1000")
    else if m == BST then Template(['d', 'b'], "1111101ddddd0bbb")
    else if m == CALL then Template(['k'], "1001010kkkkk111kkkkkkkkkkkkkkkkk")
    else if m == CBI then Template(['A', 'b'], "10011000AAAAAbbb")
    else if m == CBR then Irregular
    else Fixed("1001010010001000")
  }

  function OpcodesClhToIjmp(m: Mnemonic): (l: Layout)
    requires CLC < m && m <= IJMP
    ensures Shaped(m, l)
  {
    if m == CLH then Fixed("1001010011011000")
    else if m == CLI then Fixed("1001010011111000")
    else if m == CLN then Fixed("1001010010101000")
    else if m == CLR then Irregular
    else if m == CLS then Fixed("1001010011001000")
    else if m == CLT then Fixed("1001010011101000")
    else if m == CLV then Fixed("1001010010111000")
    else if m == CLZ then Fixed("1001010010011000")
    else if m == COM then Template(['d'], "1001010ddddd0000")
    else if m == CP then Template(['d', 'r'], "000101rdddddrrrr")
    else if m == CPC then Template(['d', 'r'], "000001rdddddrrrr")
    else if m == CPI then Template(['d', 'K'], "0011KKKKddddKKKK")
    else if m == CPSE then Template(['d', 'r'], "000100rdddddrrrr")
    else if m == DEC then Template(['d'], "1001010ddddd1010")
    else if m == EOR then Template(['d', 'r'], "001001rdddddrrrr")
    else if m == ICALL then Fixed("1001010100001001")
    else Fixed("1001010000001001")
  }

  function OpcodesInToNop(m: Mnemonic): (l: Layout)
    requires IJMP < m && m <= NOP
    ensures Shaped(m, l)
  {
    if m == IN then Template(['d', 'A'], "10110AAdddddAAAA")
    else if m == INC then Template(['d'], "1001010ddddd0011")
    else if m == JMP then Template(['k'], "1001010kkkkk110kkkkkkkkkkkkkkkkk")
    else if m == LD then Irregular
    else if m == LDD then Irregular
    else if m == LDI then Template(['d', 'K'], "1110KKKKddddKKKK")
    else if m == LDS then Template(['d', 'k'], "1001000ddddd0000kkkkkkkkkkkkkkkk")
    else if m == LPM then Irregular
    else if m == LSL then Irregular
    else if m == LSR then Template(['d'], "1001010ddddd0110")
    else if m == MOV then Template(['d', 'r'], "001011rdddddrrrr")
    else if m == MOVW then Irregular
    else if m == MUL then Template(['d', 'r'], "100111rdddddrrrr")
    else if m == MULS then Template(['d', 'r'], "00000010ddddrrrr")
    else if m == MULSU then Template(['d', 'r'], "000000110ddd0rrr")
    else if m == NEG then Template(['d'], "1001010ddddd0001")
    else Fixed("0000000000000000")
  }

  function OpcodesOrToSbrs(m: Mnemonic): (l: Layout)
    requires NOP < m && m <= SBRS
    ensures Shaped(m, l)
  {
    if m == OR then Template(['d', 'r'], "001010rdddddrrrr")
    else if m == ORI then Template(['d', 'K'], "0110KKKKddddKKKK")
    else if m == OUT then Template(['A', 'r'], "10111AArrrrrAAA")
    else if m == POP then Template(['d'], "1001000ddddd1111")
    else if m == PUSH then Template(['r'], "1001001rrrrr1111")
    else if m == RCALL then Template(['k'], "1101kkkkkkkkkkkk")
    else if m == RJMP then Template(['k'], "1100kkkkkkkkkkkk")
    else if m == RET then Fixed("1001010100001000")
    else if m == ROL then Irregular
    else if m == ROR then Template(['d'], "1001010ddddd0111")
    else if m == SBC then Template(['d', 'r'], "000010rdddddrrrr")
    else if m == SBCI then Template(['d', 'K'], "0100KKKKddddKKKK")
    else if m == SBI then Template(['A', 'b'], "10011010AAAAAbbb")
    else if m == SBIW then Irregular
    else if m == SBR then Template(['d', 'K'], "0110KKKKddddKKKK")
    else if m == SBRC then Template(['r', 'b'], "1111110rrrrr0bbb")
    else Template(['r', 'b'], "1111111rrrrr0bbb")
  }

  function OpcodesSecToXch(m: Mnemonic): (l: Layout)
    requires SBRS < m
    ensures Shaped(m, l)
  {
    if m == SEC then Fixed("1001010000001000")
    else if m == SEH then Fixed("1001010001011000")
    else if m == SEI then Fixed("1001010001111000")
    else if m == SEN then Fixed("1001010000101000")
    else if m == SER then Template(['d'], "11101111dddd1111")
    else if m == SES then Fixed("1001010001001000")
    else if m == SET then Fixed("1001010001101000")
    else if m == SEV then Fixed("1001010000111000")
    else if m == SEZ then Fixed("1001010000011000")
    else if m == ST then Irregular
    else if m == STD then Irregular
    else if m == STS then Template(['k', 'r'], "1001001rrrrr0000kkkkkkkkkkkkkkkk")
    else if m == SUB then Template(['d', 'r'], "000110rdddddrrrr")
    else if m == SUBI then Template(['d', 'K'], "0101KKKKddddKKKK")
    else if m == SWAP then Template(['d'], "1001010ddddd0010")
    else if m == TST then Irregular
    else Template(['Z', 'd'], "1001001ddddd0100")
  }

  // ---------------------------------------------------------------------------
  // agreement with the operand table

  lemma NoOperandsAdcToBrid(m: Mnemonic)
    requires m <= BRID
    ensures OpcodeSpec(m).Fixed? <==> Operand.OperandTable(m).None?
    ensures OpcodeSpec(m).Template? ==> |OpcodeSpec(m).syms| == |Operand.OperandTable(m).value|
  {
  }

  lemma NoOperandsBrieToClc(m: Mnemonic)
    requires BRID < m && m <= CLC
    ensures OpcodeSpec(m).Fixed? <==> Operand.OperandTable(m).None?
    ensures OpcodeSpec(m).Template? ==> |OpcodeSpec(m).syms| == |Operand.OperandTable(m).value|
  {
  }

  lemma NoOperandsClhToIjmp(m: Mnemonic)
    requires CLC < m && m <= IJMP
    ensures OpcodeSpec(m).Fixed? <==> Operand.OperandTable(m).None?
    ensures OpcodeSpec(m).Template? ==> |OpcodeSpec(m).syms| == |Operand.OperandTable(m).value|
  {
  }

  lemma NoOperandsInToNop(m: Mnemonic)
    requires IJMP < m && m <= NOP
    ensures OpcodeSpec(m).Fixed? <==> Operand.OperandTable(m).None?
    ensures OpcodeSpec(m).Template? ==> |OpcodeSpec(m).syms| == |Operand.OperandTable(m).value|
  {
  }

  lemma NoOperandsOrToSbrs(m: Mnemonic)
    requires NOP < m && m <= SBRS
    ensures OpcodeSpec(m).Fixed? <==> Operand.OperandTable(m).None?
    ensures OpcodeSpec(m).Template? ==> |OpcodeSpec(m).syms| == |Operand.OperandTable(m).value|
  {
  }

  lemma NoOperandsSecToXch(m: Mnemonic)
    requires SBRS < m
    ensures OpcodeSpec(m).Fixed? <==> Operand.OperandTable(m).None?
    ensures OpcodeSpec(m).Template? ==> |OpcodeSpec(m).syms| == |Operand.OperandTable(m).value|
  {
  }

  /** The two tables agree: an opcode is fixed exactly when its mnemonic takes no operand,
      and a template has one placeholder letter per operand. */
  lemma FixedIffNoOperands(m: Mnemonic)
    ensures OpcodeSpec(m).Fixed? <==> Operand.OperandTable(m).None?
    ensures OpcodeSpec(m).Template? ==> |OpcodeSpec(m).syms| == |Operand.OperandTable(m).value|
  {
    if m <= BRID { NoOperandsAdcToBrid(m); }
    else if m <= CLC { NoOperandsBrieToClc(m); }
    else if m <= IJMP { NoOperandsClhToIjmp(m); }
    else if m <= NOP { NoOperandsInToNop(m); }
    else if m <= SBRS { NoOperandsOrToSbrs(m); }
    else { NoOperandsSecToXch(m); }
  }

  // ---------------------------------------------------------------------------
  // makeOpcode

  /** The digits substituted for one operand taking `c` placeholder positions. `None` marks
      the value kinds the source cannot encode (it throws or builds a meaningless string);
      validated operands never are of those kinds. */
  function ArgBits(m: Mnemonic, v: Value, c: nat): (r: Option<string>)
    requires c >= 1
    ensures r.Some? ==> |r.value| == c && AllCodeChars(r.value)
  {
    if IsRelative(m) then (if v.VInt? then Some(TwosComp(v.n, c)) else None)
    else if v == VStr("printf") then (if c <= 22 then Some(Repeat('1', c)) else None)
    else if v.VInt? then Some(BinLenDigits(v.n, c))
    else None
  }

  /** The template after operands `k..` have been substituted, in order, into `t`. */
  function FillFrom(m: Mnemonic, t: string, syms: seq<char>, args: seq<Token>, k: nat): Option<string>
    decreases |args| - k
  {
    if k >= |args| || k >= |syms| then Some(t)
    else
      var c := CountElements(t, syms[k]);
      if c == 0 then FillFrom(m, t, syms, args, k + 1)
      else match ArgBits(m, args[k].value, c)
        case None => None
        case Some(b) => FillFrom(m, FillSym(t, syms[k], b), syms, args, k + 1)
  }

  /** The displacement of `Y+q`/`Z+q`: its pointer letter and six bits of `q`. */
  function Displacement(v: Value): Option<(char, string)> {
    match v
    case VStr(s) =>
      var q := if |s| >= 2 then ParseInt(s[2..], 10) else None;
      if s != [] && q.Some? then Some((s[0], BinLenDigits(q.value, 6))) else None
    case _ => None
  }

  /** The pointer-register forms of LD: `X`, `X+`, `-X`, `Y`, `Y+`, `-Y`, `Z`, `Z+`, `-Z`. */
  function LoadPointerBits(w: Value, d: string): Option<string> {
    if w == VStr("X") then Some("1001000" + d + "1100")
    else if w == VStr("X+") then Some("1001000" + d + "1101")
    else if w == VStr("-X") then Some("1001000" + d + "1110")
    else if w == VStr("Y") then Some("1000000" + d + "1000")
    else if w == VStr("Y+") then Some("1001000" + d + "1001")
    else if w == VStr("-Y") then Some("1001000" + d + "1010")
    else if w == VStr("Z") then Some("1000000" + d + "0000")
    else if w == VStr("Z+") then Some("1001000" + d + "0001")
    else if w == VStr("-Z") then Some("1001000" + d + "0010")
    else None
  }

  /** The pointer-register forms of ST. */
  function StorePointerBits(w: Value, r: string): Option<string> {
    if w == VStr("X") then Some("1001001" + r + "1100")
    else if w == VStr("X+") then Some("1001001" + r + "1101")
    else if w == VStr("-X") then Some("1001001" + r + "1110")
    else if w == VStr("Y") then Some("1000001" + r + "1000")
    else if w == VStr("Y+") then Some("1001001" + r + "1001")
    else if w == VStr("-Y") then Some("1001001" + r + "1010")
    else if w == VStr("Z") then Some("1000001" + r + "0000")
    else if w == VStr("Z+") then Some("1001001" + r + "0001")
    else if w == VStr("-Z") then Some("1001001" + r + "0010")
    else None
  }

  /** A register `d` written as the two-operand form `d, d`: `pre`, then the top bit of `d`,
      all five bits, then the low four. */
  function SameRegister(pre: string, d: string): string
    requires |d| == 5
  {
    pre + d[..1] + d + d[1..]
  }

  /** LDD (`dir` = "0") and STD (`dir` = "1") with register `reg` and displacement `disp`. */
  function DisplacementOpcode(dir: string, reg: Value, disp: Value): Option<string> {
    match Displacement(disp)
    case None => None
    case Some((w, q)) =>
      if !reg.VInt? || (w != 'Y' && w != 'Z') then None
      else
        var ptr := if w == 'Y' then "1" else "0";
        Some("10" + q[..1] + "0" + q[1..3] + dir + BinLenDigits(reg.n, 5) + ptr + q[3..])
  }

  /** The hand-built opcodes. `None` where the source falls off the end of its chain of
      cases and leaves the opcode `undefined`. */
  function IrregularOpcode(m: Mnemonic, args: seq<Token>): Option<string> {
    var a0 := if |args| > 0 then args[0].value else VUndef;
    var a1 := if |args| > 1 then args[1].value else VUndef;
    if m == ADIW || m == SBIW then
      if a0.VInt? && a1.VInt? then
        var d := HalfLenDigits(a0.n - 24, 2);
        var k := BinLenDigits(a1.n, 6);
        Some((if m == ADIW then "10010110" else "10010111") + k[..2] + d + k[2..])
      else None
    else if m == CBR then
      if a0.VInt? && a1.VInt? then
        var d := BinLenDigits(a0.n, 4);
        var k := BinLenDigits(0xff - a1.n, 8);
        Some("0111" + k[..4] + d + k[4..])
      else None
    else if m == CLR || m == LSL || m == ROL || m == TST then
      if a0.VInt? then
        var pre := if m == CLR then "001001" else if m == LSL then "000011"
                   else if m == ROL then "000111" else "001000";
        Some(SameRegister(pre, BinLenDigits(a0.n, 5)))
      else None
    else if m == LD then
      if a0.VInt? then LoadPointerBits(a1, BinLenDigits(a0.n, 5)) else None
    else if m == ST then
      if a1.VInt? then StorePointerBits(a0, BinLenDigits(a1.n, 5)) else None
    else if m == LDD then DisplacementOpcode("0", a0, a1)
    else if m == STD then DisplacementOpcode("1", a1, a0)
    else if m == LPM then
      if |args| == 0 then Some("1001010111001000")
      else if |args| < 2 || !a0.VInt? then None
      else
        var d := BinLenDigits(a0.n, 5);
        if a1 == VStr("Z") then Some("1001000" + d + "0100")
        else if a1 == VStr("Z+") then Some("1001000" + d + "0101")
        else None
    else if m == MOVW then
      if a0.VInt? && a1.VInt? then
        Some("00000001" + HalfLenDigits(a0.n, 4) + HalfLenDigits(a1.n, 4))
      else None
    else None
  }

  /** `makeOpcode`, as a specification: `None` is the source's `undefined`. */
  function MakeOpcode(m: Mnemonic, args: seq<Token>): Option<string> {
    match OpcodeSpec(m)
    case Fixed(b) => Some(b)
    case Template(syms, t) => FillFrom(m, t, syms, args, 0)
    case Irregular => IrregularOpcode(m, args)
  }

  // ---------------------------------------------------------------------------
  // what the digit strings denote

  lemma {:induction false} BinValueAppend(s: string, c: char)
    ensures BinValue(s + [c]) == 2 * BinValue(s) + (if c == '1' then 1 else 0)
  {
    assert (s + [c])[..|s|] == s;
  }

  /** A leading digit adds its weight `2^|s|`. */
  lemma {:induction false} BinValueLeading(c: char, s: string)
    ensures BinValue([c] + s) == (if c == '1' then Pow2(|s|) else 0) + BinValue(s)
    decreases |s|
  {
    if s == [] {
      assert [c] + s == [] + [c];
      BinValueAppend([], c);
    } else {
      var s' := s[..|s| - 1];
      var l := s[|s| - 1];
      assert [c] + s == ([c] + s') + [l];
      assert s == s' + [l];
      BinValueAppend([c] + s', l);
      BinValueAppend(s', l);
      BinValueLeading(c, s');
    }
  }

  lemma {:induction false} BinValueZeros(k: nat, s: string)
    ensures BinValue(Repeat('0', k) + s) == BinValue(s)
  {
    if k > 0 {
      assert Repeat('0', k) + s == [ '0' ] + (Repeat('0', k - 1) + s);
      BinValueLeading('0', Repeat('0', k - 1) + s);
      BinValueZeros(k - 1, s);
    } else {
      assert Repeat('0', k) + s == s;
    }
  }

  /** `toString(2)` of a natural number denotes that number. */
  lemma {:induction false} BinDenotes(n: nat)
    ensures BinValue(Bin(n)) == n
    decreases n
  {
    if n >= 2 {
      BinDenotes(n / 2);
      BinValueAppend(Bin(n / 2), if n % 2 == 0 then '0' else '1');
    }
  }

  /** A number below `2^w` takes at most `w` binary digits, one at or above `2^k` more than `k`. */
  lemma {:induction false} BinLength(n: nat, w: nat)
    ensures n < Pow2(w) && w >= 1 ==> |Bin(n)| <= w
    ensures n >= Pow2(w) ==> |Bin(n)| >= w + 1
    decreases n
  {
    if n >= 2 {
      if w >= 1 { BinLength(n / 2, w - 1); }
    }
  }

  /** `binLenDigits` writes every number of the field's range exactly. */
  lemma BinLenDigitsDenotes(n: int, w: nat)
    requires 0 <= n < Pow2(w)
    ensures BinValue(BinLenDigits(n, w)) == n
  {
    var b := Bin(n);
    BinDenotes(n);
    if w == 0 {
      assert BinLenDigits(n, w) == [];
    } else {
      BinLength(n, w);
      if |b| == w {
        assert BinLenDigits(n, w) == b;
      } else {
        BinValueZeros(w - |b|, b);
      }
    }
  }

  /** The padding with '1's is a faithful two's complement in the upper half of the negative
      range: for `-2^(w-2) <= n < 0` the field denotes `2^w + n`. */
  lemma TwosCompDenotes(n: int, w: nat)
    requires w >= 2 && 0 <= n + Pow2(w - 2) && n < 0
    ensures BinValue(TwosComp(n, w)) == Pow2(w) + n
  {
    var v := Pow2(w - 1) + n;
    TwosCompShape(n, w);
    var b := Bin(v);
    BinValueLeading('1', b);
    BinDenotes(v);
    assert BinValue(TwosComp(n, w)) == Pow2(w - 1) + v;
    assert Pow2(w) == 2 * Pow2(w - 1);
  }

  /** A negative operand in the upper half of the range: '1' and then `w - 1` binary digits
      of `2^(w-1) + n`. */
  lemma TwosCompShape(n: int, w: nat)
    requires w >= 2 && 0 <= n + Pow2(w - 2) && n < 0
    ensures Pow2(w - 1) + n >= 0
    ensures TwosComp(n, w) == ['1'] + Bin(Pow2(w - 1) + n) && |Bin(Pow2(w - 1) + n)| == w - 1
  {
    var v := Pow2(w - 1) + n;
    assert TwosComp(n, w) == Fit(ToBinary(v), w, '1');
    assert Pow2(w - 1) == 2 * Pow2(w - 2);
    assert v >= Pow2(w - 2);
    BinLength(v, w - 1);
    BinLength(v, w - 2);
    var b := Bin(v);
    assert |b| == w - 1;
    assert ToBinary(v) == b;
    FitOne(b, w);
  }

  /** Fitting a string one short of the width puts one pad character in front. */
  lemma FitOne(b: string, w: nat)
    requires |b| + 1 == w
    ensures Fit(b, w, '1') == ['1'] + b
  {
    assert Repeat('1', 1) == ['1'];
  }

  /** Reading the field back as a signed `w`-bit number gives the operand again, for every
      operand from `-2^(w-2)` up to `2^(w-1) - 1`. */
  lemma TwosCompRoundTrip(n: int, w: nat)
    requires w >= 2 && 0 <= n + Pow2(w - 2) && n < Pow2(w - 1)
    ensures SignedValue(TwosComp(n, w)) == n
  {
    assert Pow2(w) == 2 * Pow2(w - 1);
    assert Pow2(w - 1) == 2 * Pow2(w - 2);
    if n >= 0 {
      BinLenDigitsDenotes(n, w);
    } else {
      TwosCompDenotes(n, w);
    }
  }

  lemma {:induction false} AllOnesBin(k: nat)
    requires k >= 1
    ensures Bin(Pow2(k) - 1) == Repeat('1', k)
  {
    if k > 1 {
      assert (Pow2(k) - 1) / 2 == Pow2(k - 1) - 1 && (Pow2(k) - 1) % 2 == 1;
      AllOnesBin(k - 1);
      assert Repeat('1', k - 1) + ['1'] == Repeat('1', k);
    }
  }

  lemma {:induction false} AllOnesValue(k: nat)
    ensures BinValue(Repeat('1', k)) == Pow2(k) - 1
  {
    if k > 0 {
      assert Repeat('1', k)[..k - 1] == Repeat('1', k - 1);
      AllOnesValue(k - 1);
    }
  }

  /** Below `-2^(w-2)` the padding goes wrong: -33 in seven bits comes out as all ones,
      which denotes 127 (-1 as a signed value) rather than 2^7 - 33 = 95. */
  lemma TwosCompLowerHalf()
    ensures TwosComp(-33, 7) == Repeat('1', 7)
    ensures BinValue(TwosComp(-33, 7)) == 127 && SignedValue(TwosComp(-33, 7)) == -1
  {
    assert Pow2(5) == 32 && Pow2(6) == 64 && Pow2(7) == 128;
    AllOnesBin(5);
    assert ToBinary(31) == Repeat('1', 5);
    assert Repeat('1', 2) + Repeat('1', 5) == Repeat('1', 7);
    AllOnesValue(7);
  }

  // ---------------------------------------------------------------------------
  // templates

  lemma {:induction false} FillNothing(t: string, c: char)
    ensures FillSym(t, c, []) == t
    decreases |t|
  {
    if t != [] { FillNothing(t[1..], c); }
  }

  /** One more `replace` fills the next placeholder: the repeated `replace` of the source
      fills the occurrences left to right. */
  lemma {:induction false} ReplaceFillsNext(t: string, c: char, b: string, d: char)
    requires |b| < CountElements(t, c)
    requires AllCodeChars(b) && !IsCodeChar(c)
    ensures ReplaceFirst(FillSym(t, c, b), c, d) == FillSym(t, c, b + [d])
    decreases |t|
  {
    if t[0] == c && b != [] {
      assert (b + [d])[1..] == b[1..] + [d];
      ReplaceFillsNext(t[1..], c, b[1..], d);
    } else if t[0] == c {
      FillNothing(t[1..], c);
      assert b + [d] == [d];
    } else {
      ReplaceFillsNext(t[1..], c, b, d);
    }
  }

  /** Filling a template keeps its length and every character that is not a placeholder. */
  lemma {:induction false} FillKeepsFixedBits(m: Mnemonic, t: string, syms: seq<char>, args: seq<Token>, k: nat)
    ensures FillFrom(m, t, syms, args, k).Some? ==>
              var r := FillFrom(m, t, syms, args, k).value;
              |r| == |t| && forall i :: 0 <= i < |t| && t[i] !in syms ==> r[i] == t[i]
    decreases |args| - k
  {
    if k < |args| && k < |syms| {
      var c := CountElements(t, syms[k]);
      if c == 0 {
        FillKeepsFixedBits(m, t, syms, args, k + 1);
      } else if ArgBits(m, args[k].value, c).Some? {
        var t' := FillSym(t, syms[k], ArgBits(m, args[k].value, c).value);
        FillSymKeeps(t, syms[k], ArgBits(m, args[k].value, c).value);
        FillKeepsFixedBits(m, t', syms, args, k + 1);
      }
    }
  }

  /** `makeOpcode` on a templated mnemonic returns a string as long as the template that
      agrees with it outside the placeholders. */
  lemma TemplateShape(m: Mnemonic, args: seq<Token>)
    requires OpcodeSpec(m).Template? && MakeOpcode(m, args).Some?
    ensures |MakeOpcode(m, args).value| == |OpcodeSpec(m).bits| == Width(m)
    ensures forall i :: 0 <= i < |OpcodeSpec(m).bits| && OpcodeSpec(m).bits[i] !in OpcodeSpec(m).syms ==>
              MakeOpcode(m, args).value[i] == OpcodeSpec(m).bits[i]
  {
    FillKeepsFixedBits(m, OpcodeSpec(m).bits, OpcodeSpec(m).syms, args, 0);
  }

  lemma {:induction false} CountConcat(p: string, q: string, c: char)
    ensures CountElements(p + q, c) == CountElements(p, c) + CountElements(q, c)
    decreases |p|
  {
    if p == [] {
      assert p + q == q;
    } else {
      assert (p + q)[1..] == p[1..] + q;
      CountConcat(p[1..], q, c);
    }
  }

  lemma {:induction false} CountCodeChars(b: string, c: char)
    requires AllCodeChars(b) && IsLetter(c)
    ensures CountElements(b, c) == 0
    decreases |b|
  {
    if b != [] { CountCodeChars(b[1..], c); }
  }

  lemma {:induction false} FillAbsent(t: string, c: char, b: string)
    requires CountElements(t, c) == 0
    ensures FillSym(t, c, b) == t
    decreases |t|
  {
    if t != [] { FillAbsent(t[1..], c, b); }
  }

  lemma {:induction false} FillAll(t: string, c: char, b: string)
    requires |t| == |b| && forall i :: 0 <= i < |t| ==> t[i] == c
    ensures FillSym(t, c, b) == b
    decreases |t|
  {
    if t != [] { FillAll(t[1..], c, b[1..]); }
  }

  lemma {:induction false} FillConcat(p: string, q: string, c: char, b: string)
    requires CountElements(p, c) <= |b|
    ensures FillSym(p + q, c, b) ==
              FillSym(p, c, b[..CountElements(p, c)]) + FillSym(q, c, b[CountElements(p, c)..])
    decreases |p|
  {
    if p == [] {
      assert p + q == q;
    } else {
      assert (p + q)[1..] == p[1..] + q;
      if p[0] == c {
        FillConcat(p[1..], q, c, b[1..]);
        assert b[1..][..CountElements(p[1..], c)] == b[1..CountElements(p, c)];
        assert b[1..][CountElements(p[1..], c)..] == b[CountElements(p, c)..];
      } else {
        FillConcat(p[1..], q, c, b);
      }
    }
  }

  lemma {:induction false} FillAfterAbsent(p: string, q: string, c: char, b: string)
    requires CountElements(p, c) == 0
    ensures FillSym(p + q, c, b) == p + FillSym(q, c, b)
    decreases |p|
  {
    if p != [] {
      assert (p + q)[1..] == p[1..] + q;
      FillAfterAbsent(p[1..], q, c, b);
      assert p == [p[0]] + p[1..];
    } else {
      assert p + q == q;
    }
  }
  lemma RegisterSplit(pre: string)
    ensures pre + "rdddddrrrr" == (pre + "r") + ("ddddd" + "rrrr")
  {
    assert "rdddddrrrr" == "r" + ("ddddd" + "rrrr");
  }
  lemma FillDestination(b: string)
    requires |b| == 5
    ensures FillSym("ddddd" + "rrrr", 'd', b) == b + "rrrr"
  {
    FillConcat("ddddd", "rrrr", 'd', b);
    assert b[..5] == b && b[5..] == [];
    FillAll("ddddd", 'd', b);
    FillAbsent("rrrr", 'd', []);
  }
  lemma FirstPass(pre: string, b: string)
    requires CountElements(pre, 'd') == 0 && |b| == 5
    ensures CountElements(pre + "rdddddrrrr", 'd') == 5
    ensures FillSym(pre + "rdddddrrrr", 'd', b) == pre + "r" + b + "rrrr"
  {
    RegisterSplit(pre);
    CountConcat(pre, "r", 'd');
    CountConcat("ddddd", "rrrr", 'd');
    CountConcat(pre + "r", "ddddd" + "rrrr", 'd');
    FillAfterAbsent(pre + "r", "ddddd" + "rrrr", 'd', b);
    FillDestination(b);
  }

  lemma FillLeading(c: char, x: string, b: string)
    requires b != []
    ensures FillSym([c] + x, c, b) == [b[0]] + FillSym(x, c, b[1..])
  {
    assert ([c] + x)[1..] == x;
  }

  lemma FilledSplit(pre: string, b: string)
    ensures pre + "r" + b + "rrrr" == pre + (['r'] + (b + "rrrr"))
  {
  }

  lemma SecondPass(pre: string, b: string)
    requires CountElements(pre, 'r') == 0 && |b| == 5 && AllCodeChars(b)
    ensures CountElements(pre + "r" + b + "rrrr", 'r') == 5
    ensures FillSym(pre + "r" + b + "rrrr", 'r', b) == SameRegister(pre, b)
  {
    FilledSplit(pre, b);
    CountCodeChars(b, 'r');
    CountConcat(b, "rrrr", 'r');
    CountConcat(['r'], b + "rrrr", 'r');
    CountConcat(pre, ['r'] + (b + "rrrr"), 'r');
    FillAfterAbsent(pre, ['r'] + (b + "rrrr"), 'r', b);
    FillLeading('r', b + "rrrr", b);
    FillAfterAbsent(b, "rrrr", 'r', b[1..]);
    FillAll("rrrr", 'r', b[1..]);
    assert b[..1] == [b[0]];
  }

  /** The two placeholder passes over a template `pre r ddddd rrrr`, both given the bits of
      one register, produce `pre` followed by the top bit, all five bits and the low four. */
  lemma SameRegisterFill(pre: string, m: Mnemonic, args: seq<Token>)
    requires CountElements(pre, 'd') == 0 && CountElements(pre, 'r') == 0
    requires |args| == 2 && args[0] == args[1] && args[0].value.VInt? && !IsRelative(m)
    ensures FillFrom(m, pre + "rdddddrrrr", ['d', 'r'], args, 0) ==
              Some(SameRegister(pre, BinLenDigits(args[0].value.n, 5)))
  {
    var b := BinLenDigits(args[0].value.n, 5);
    var t, syms := pre + "rdddddrrrr", ['d', 'r'];
    FirstPass(pre, b);
    var t1 := pre + "r" + b + "rrrr";
    FillFromNext(m, t, syms, args, 0, Some(b));
    SecondPass(pre, b);
    FillFromNext(m, t1, syms, args, 1, Some(b));
  }

  lemma ClrForm(d: int)
    ensures MakeOpcode(CLR, [Token(REG, VInt(d))]) == Some(SameRegister("001001", BinLenDigits(d, 5)))
  {
    assert OpcodeSpec(CLR) == Irregular;
  }

  lemma EorForm(args: seq<Token>)
    ensures MakeOpcode(EOR, args) == FillFrom(EOR, "001001rdddddrrrr", ['d', 'r'], args, 0)
  {
    assert OpcodeSpec(EOR) == Template(['d', 'r'], "001001rdddddrrrr");
  }

  lemma ClrPrefix()
    ensures "001001rdddddrrrr" == "001001" + "rdddddrrrr"
    ensures CountElements("001001", 'd') == 0 && CountElements("001001", 'r') == 0 && !IsRelative(EOR)
  {
  }

  lemma LslForm(d: int)
    ensures MakeOpcode(LSL, [Token(REG, VInt(d))]) == Some(SameRegister("000011", BinLenDigits(d, 5)))
  {
    assert OpcodeSpec(LSL) == Irregular;
  }

  lemma AddForm(args: seq<Token>)
    ensures MakeOpcode(ADD, args) == FillFrom(ADD, "000011rdddddrrrr", ['d', 'r'], args, 0)
  {
    assert OpcodeSpec(ADD) == Template(['d', 'r'], "000011rdddddrrrr");
  }

  lemma LslPrefix()
    ensures "000011rdddddrrrr" == "000011" + "rdddddrrrr"
    ensures CountElements("000011", 'd') == 0 && CountElements("000011", 'r') == 0 && !IsRelative(ADD)
  {
  }

  lemma RolForm(d: int)
    ensures MakeOpcode(ROL, [Token(REG, VInt(d))]) == Some(SameRegister("000111", BinLenDigits(d, 5)))
  {
    assert OpcodeSpec(ROL) == Irregular;
  }

  lemma AdcForm(args: seq<Token>)
    ensures MakeOpcode(ADC, args) == FillFrom(ADC, "000111rdddddrrrr", ['d', 'r'], args, 0)
  {
    assert OpcodeSpec(ADC) == Template(['d', 'r'], "000111rdddddrrrr");
  }

  lemma RolPrefix()
    ensures "000111rdddddrrrr" == "000111" + "rdddddrrrr"
    ensures CountElements("000111", 'd') == 0 && CountElements("000111", 'r') == 0 && !IsRelative(ADC)
  {
  }

  lemma TstForm(d: int)
    ensures MakeOpcode(TST, [Token(REG, VInt(d))]) == Some(SameRegister("001000", BinLenDigits(d, 5)))
  {
    assert OpcodeSpec(TST) == Irregular;
  }

  lemma AndForm(args: seq<Token>)
    ensures MakeOpcode(AND, args) == FillFrom(AND, "001000rdddddrrrr", ['d', 'r'], args, 0)
  {
    assert OpcodeSpec(AND) == Template(['d', 'r'], "001000rdddddrrrr");
  }

  lemma TstPrefix()
    ensures "001000rdddddrrrr" == "001000" + "rdddddrrrr"
    ensures CountElements("001000", 'd') == 0 && CountElements("001000", 'r') == 0 && !IsRelative(AND)
  {
  }

  /** CLR, LSL, ROL and TST of `Rd` are EOR, ADD, ADC and AND of `Rd, Rd`, bit for bit. */
  lemma SameRegisterAliases(d: int)
    ensures MakeOpcode(CLR, [Token(REG, VInt(d))]) == MakeOpcode(EOR, [Token(REG, VInt(d)), Token(REG, VInt(d))])
    ensures MakeOpcode(LSL, [Token(REG, VInt(d))]) == MakeOpcode(ADD, [Token(REG, VInt(d)), Token(REG, VInt(d))])
    ensures MakeOpcode(ROL, [Token(REG, VInt(d))]) == MakeOpcode(ADC, [Token(REG, VInt(d)), Token(REG, VInt(d))])
    ensures MakeOpcode(TST, [Token(REG, VInt(d))]) == MakeOpcode(AND, [Token(REG, VInt(d)), Token(REG, VInt(d))])
  {
    var args := [Token(REG, VInt(d)), Token(REG, VInt(d))];
    ClrForm(d);
    EorForm(args);
    ClrPrefix();
    SameRegisterFill("001001", EOR, args);
    LslForm(d);
    AddForm(args);
    LslPrefix();
    SameRegisterFill("000011", ADD, args);
    RolForm(d);
    AdcForm(args);
    RolPrefix();
    SameRegisterFill("000111", ADC, args);
    TstForm(d);
    AndForm(args);
    TstPrefix();
    SameRegisterFill("001000", AND, args);
  }

  // ---------------------------------------------------------------------------
  // field widths

  lemma ModUnique(n: int, m: int, q: int, r: int)
    requires m > 0 && n == q * m + r && 0 <= r < m
    ensures n % m == r && n / m == q
  {
    var q', r' := n / m, n % m;
    assert q' * m + r' == n;
    if q > q' {
      MulSub(q, q', m);
      MulAtLeast(q - q', m);
    } else if q < q' {
      MulSub(q', q, m);
      MulAtLeast(q' - q, m);
    }
  }

  lemma MulSub(a: int, b: int, m: int)
    ensures (a - b) * m == a * m - b * m
  {
  }

  lemma MulAtLeast(a: int, m: int)
    requires a >= 1 && m > 0
    ensures a * m >= m
  {
  }

  lemma ModHalf(n: nat, w: nat)
    requires w >= 1
    ensures n % Pow2(w) == 2 * ((n / 2) % Pow2(w - 1)) + n % 2
  {
    var p := Pow2(w - 1);
    var h := n / 2;
    var q, r := h / p, h % p;
    assert h == q * p + r;
    assert Pow2(w) == 2 * p;
    assert n == q * (2 * p) + (2 * r + n % 2);
    ModUnique(n, 2 * p, q, 2 * r + n % 2);
  }

  lemma FitAppend(b: string, c: char, w: nat, pad: char)
    requires w >= 1
    ensures Fit(b + [c], w, pad) == Fit(b, w - 1, pad) + [c]
  {
    if |b| + 1 >= w {
      assert (b + [c])[|b| + 1 - w..] == b[|b| - (w - 1)..] + [c];
    } else {
      assert Repeat(pad, w - |b| - 1) + (b + [c]) == (Repeat(pad, w - 1 - |b|) + b) + [c];
    }
  }

  lemma FitZero(w: nat)
    ensures Fit("0", w, '0') == Fit([], w, '0')
  {
    if w >= 1 {
      assert Repeat('0', w - 1) + "0" == Repeat('0', w);
    }
  }

  lemma BinLenDigitsHalf(n: nat, w: nat) requires w >= 1 && n >= 2
    ensures BinLenDigits(n, w) == BinLenDigits(n / 2, w - 1) + [if n % 2 == 0 then '0' else '1']
  {
    var dc := if n % 2 == 0 then '0' else '1';
    assert Bin(n) == Bin(n / 2) + [dc];
    FitAppend(Bin(n / 2), dc, w, '0');
  }
  lemma LowBitsHalf(n: nat, w: nat) requires w >= 1 && n >= 2
    ensures BinLenDigits(n % Pow2(w), w) == BinLenDigits((n / 2) % Pow2(w - 1), w - 1) + [if n % 2 == 0 then '0' else '1']
  {
        var dc := if n % 2 == 0 then '0' else '1';
        var k := n % Pow2(w);
        var r := (n / 2) % Pow2(w - 1);
        ModHalf(n, w);
        if k >= 2 {
          assert k / 2 == r && k % 2 == n % 2;
          assert Bin(k) == Bin(r) + [dc];
          FitAppend(Bin(r), dc, w, '0');
        } else {
          assert r == 0 && k == n % 2;
          assert Bin(k) == [] + [dc];
          FitAppend([], dc, w, '0');
          FitZero(w - 1);
        }
  }

  /** `binLenDigits` keeps the low `w` bits of a natural number and drops the rest. */
  lemma {:induction false} LowBits(n: nat, w: nat)
    ensures BinLenDigits(n, w) == BinLenDigits(n % Pow2(w), w)
    decreases w
  {
    if w == 0 {
      assert |BinLenDigits(n, w)| == 0 == |BinLenDigits(n % Pow2(w), w)|;
    } else if n < 2 {
      assert Pow2(w) >= 2 by { assert Pow2(w) == 2 * Pow2(w - 1); }
      ModUnique(n, Pow2(w), 0, n);
    } else {
      BinLenDigitsHalf(n, w);
      LowBits(n / 2, w - 1);
      LowBitsHalf(n, w);
    }
  }

  lemma {:induction false} CountRepeat(c: char, w: nat)
    ensures CountElements(Repeat(c, w), c) == w
  {
    if w > 0 { CountRepeat(c, w - 1); }
  }

  lemma {:induction false} CountAbsentRepeat(c: char, w: nat, d: char)
    requires c != d
    ensures CountElements(Repeat(c, w), d) == 0
  {
    if w > 0 { CountAbsentRepeat(c, w - 1, d); }
  }

  /** The filled template depends only on the operands still to be substituted. */
  lemma {:induction false} FillFromTail(m: Mnemonic, t: string, syms: seq<char>, a: seq<Token>, b: seq<Token>, k: nat)
    requires |a| == |b| && forall j :: k <= j < |a| ==> a[j] == b[j]
    ensures FillFrom(m, t, syms, a, k) == FillFrom(m, t, syms, b, k)
    decreases |a| - k
  {
    if k < |a| && k < |syms| {
      assert a[k] == b[k];
      var c := CountElements(t, syms[k]);
      if c == 0 {
        FillFromSkip(m, t, syms, a, k);
        FillFromSkip(m, t, syms, b, k);
        FillFromTail(m, t, syms, a, b, k + 1);
      } else {
        var bits := ArgBits(m, a[k].value, c);
        FillFromNext(m, t, syms, a, k, bits);
        FillFromNext(m, t, syms, b, k, bits);
        if bits.Some? {
          FillFromTail(m, FillSym(t, syms[k], bits.value), syms, a, b, k + 1);
        }
      }
    }
  }

  lemma FieldCount(pre: string, c: char, w: nat, post: string)
    requires CountElements(pre, c) == 0 && CountElements(post, c) == 0
    ensures CountElements(pre + (Repeat(c, w) + post), c) == w
  {
    CountRepeat(c, w);
    CountConcat(Repeat(c, w), post, c);
    CountConcat(pre, Repeat(c, w) + post, c);
  }

  lemma FieldFill(c: char, w: nat, post: string, b: string)
    requires CountElements(post, c) == 0 && |b| == w
    ensures FillSym(Repeat(c, w) + post, c, b) == b + post
  {
    CountRepeat(c, w);
    FillConcat(Repeat(c, w), post, c, b);
    assert b[..w] == b;
    FillAll(Repeat(c, w), c, b);
    FillAbsent(post, c, b[w..]);
  }

  /** A run of `w` placeholders between fixed bits receives the `w` digits unchanged. */
  lemma FillField(pre: string, c: char, w: nat, post: string, b: string)
    requires CountElements(pre, c) == 0 && CountElements(post, c) == 0 && |b| == w
    ensures CountElements(pre + (Repeat(c, w) + post), c) == w
    ensures FillSym(pre + (Repeat(c, w) + post), c, b) == pre + (b + post)
  {
    FieldCount(pre, c, w, post);
    FillAfterAbsent(pre, Repeat(c, w) + post, c, b);
    FieldFill(c, w, post, b);
  }

  /** The OUT template, as runs: `10111`, two `A`, five `r`, three `A`. */
  lemma OutLayout()
    ensures OpcodeSpec(OUT) == Template(['A', 'r'], "10111" + (Repeat('A', 2) + (Repeat('r', 5) + Repeat('A', 3))))
  {
    assert Repeat('A', 2) + (Repeat('r', 5) + Repeat('A', 3)) == "AArrrrrAAA";
  }

  lemma OutCount()
    ensures CountElements("10111" + (Repeat('A', 2) + (Repeat('r', 5) + Repeat('A', 3))), 'A') == 5
  {
    CountRepeat('A', 2);
    CountRepeat('A', 3);
    CountAbsentRepeat('r', 5, 'A');
    CountConcat(Repeat('r', 5), Repeat('A', 3), 'A');
    CountConcat(Repeat('A', 2), Repeat('r', 5) + Repeat('A', 3), 'A');
    CountConcat("10111", Repeat('A', 2) + (Repeat('r', 5) + Repeat('A', 3)), 'A');
  }

  /** Five binary digits do not tell `p + 32` from `p`. */
  lemma PortField(p: nat)
    ensures BinLenDigits(p + 32, 5) == BinLenDigits(p, 5)
  {
    assert Pow2(5) == 32;
    LowBits(p + 32, 5);
    LowBits(p, 5);
    assert (p + 32) % 32 == p % 32;
  }

  /** A five-digit first operand does not tell port `p + 32` from port `p`. */
  lemma FiveBitPort(m: Mnemonic, t: string, syms: seq<char>, p: nat, r: int)
    requires OpcodeSpec(m) == Template(syms, t) && |syms| == 2 && !IsRelative(m)
    requires CountElements(t, syms[0]) == 5
    ensures MakeOpcode(m, [Token(INT, VInt(p + 32)), Token(REG, VInt(r))]) ==
            MakeOpcode(m, [Token(INT, VInt(p)), Token(REG, VInt(r))])
  {
    var hi, lo := [Token(INT, VInt(p + 32)), Token(REG, VInt(r))], [Token(INT, VInt(p)), Token(REG, VInt(r))];
    PortField(p);
    var b := BinLenDigits(p, 5);
    FillFromNext(m, t, syms, hi, 0, Some(b));
    FillFromNext(m, t, syms, lo, 0, Some(b));
    FillFromTail(m, FillSym(t, syms[0], b), syms, hi, lo, 1);
  }

  /** The OUT template has five `A` positions for a six-bit port number, so the top bit of
      the port is cut off: port `p + 32` is encoded as port `p`. */
  lemma OutDropsTopPortBit(p: nat, r: int)
    ensures MakeOpcode(OUT, [Token(INT, VInt(p + 32)), Token(REG, VInt(r))]) ==
            MakeOpcode(OUT, [Token(INT, VInt(p)), Token(REG, VInt(r))])
  {
    OutLayout();
    OutCount();
    FiveBitPort(OUT, OpcodeSpec(OUT).bits, ['A', 'r'], p, r);
  }

  lemma BrvsLayout()
    ensures OpcodeSpec(BRVS) == Template(['k'], "111100" + (Repeat('k', 7) + "011"))
    ensures CountElements("111100", 'k') == 0 && CountElements("011", 'k') == 0
  {
    assert Repeat('k', 7) == "kkkkkkk";
  }

  lemma BrvcLayout()
    ensures OpcodeSpec(BRVC) == Template(['k'], "111101" + (Repeat('k', 7) + "011"))
    ensures CountElements("111101", 'k') == 0 && CountElements("011", 'k') == 0
  {
    assert Repeat('k', 7) == "kkkkkkk";
  }

  /** A negative number in `toString(2)`, padded to seven digits, keeps its minus sign. */
  lemma MinusSignKept(n: int)
    requires -64 < n < 0
    ensures '-' in BinLenDigits(n, 7)
  {
    assert Pow2(6) == 64;
    BinLength(-n, 6);
    var s := ToBinary(n);
    assert s[0] == '-' && |s| <= 7;
    assert BinLenDigits(n, 7) == Repeat('0', 7 - |s|) + s;
    assert BinLenDigits(n, 7)[7 - |s|] == '-';
  }

  /** BRVS lies outside the relative set, so a backward offset is written with `toString(2)`
      and its minus sign lands in the opcode. */
  lemma BrvsWritesMinusSign(n: int)
    requires -64 < n < 0
    ensures MakeOpcode(BRVS, [Token(INT, VInt(n))]) == Some("111100" + (BinLenDigits(n, 7) + "011"))
    ensures '-' in BinLenDigits(n, 7)
  {
    var b := BinLenDigits(n, 7);
    BrvsLayout();
    FillField("111100", 'k', 7, "011", b);
    FillFromNext(BRVS, OpcodeSpec(BRVS).bits, ['k'], [Token(INT, VInt(n))], 0, Some(b));
    MinusSignKept(n);
  }

  /** BRVC, inside the relative set, gets the two's complement of its offset, which reads
      back as the offset over the range the padding handles. */
  lemma BrvcWritesTwosComplement(n: int)
    requires -32 <= n < 0
    ensures MakeOpcode(BRVC, [Token(INT, VInt(n))]) == Some("111101" + (TwosComp(n, 7) + "011"))
    ensures SignedValue(TwosComp(n, 7)) == n
  {
    var b := TwosComp(n, 7);
    BrvcLayout();
    FillField("111101", 'k', 7, "011", b);
    FillFromNext(BRVC, OpcodeSpec(BRVC).bits, ['k'], [Token(INT, VInt(n))], 0, Some(b));
    assert Pow2(5) == 32;
    TwosCompRoundTrip(n, 7);
  }

  // ---------------------------------------------------------------------------
  // makeOpcode as the source runs it

  /** The inner loop of `makeOpcode`: `replace` the placeholder once per digit. */
  method ReplaceDigits(template: string, symbol: char, digits: string) returns (opcode: string)
    requires |digits| == CountElements(template, symbol)
    requires AllCodeChars(digits) && IsLetter(symbol)
    ensures opcode == FillSym(template, symbol, digits)
  {
    opcode := template;
    var i := 0;
    FillNothing(template, symbol);
    while i < |digits|
      invariant 0 <= i <= |digits|
      invariant opcode == FillSym(template, symbol, digits[..i])
    {
      assert digits[..i + 1] == digits[..i] + [digits[i]];
      ReplaceFillsNext(template, symbol, digits[..i], digits[i]);
      opcode := ReplaceFirst(opcode, symbol, digits[i]);
      i := i + 1;
    }
    assert digits[..i] == digits;
  }

  lemma FillFromSkip(m: Mnemonic, t: string, syms: seq<char>, args: seq<Token>, k: nat)
    requires k < |args| && (k >= |syms| || CountElements(t, syms[k]) == 0)
    ensures FillFrom(m, t, syms, args, k) == FillFrom(m, t, syms, args, k + 1)
  {
  }

  lemma FillFromNext(m: Mnemonic, t: string, syms: seq<char>, args: seq<Token>, k: nat, b: Option<string>)
    requires k < |args| && k < |syms| && CountElements(t, syms[k]) > 0
    requires b == ArgBits(m, args[k].value, CountElements(t, syms[k]))
    ensures b.None? ==> FillFrom(m, t, syms, args, k) == None
    ensures b.Some? ==> FillFrom(m, t, syms, args, k) == FillFrom(m, FillSym(t, syms[k], b.value), syms, args, k + 1)
  {
  }

  /** The templated branch of `makeOpcode`: every operand in turn, skipping those whose
      placeholder does not occur. */
  method FillTemplate(m: Mnemonic, syms: seq<char>, template: string, args: seq<Token>)
    returns (opcode: Option<string>)
    requires forall j :: 0 <= j < |syms| ==> IsLetter(syms[j])
    ensures opcode == FillFrom(m, template, syms, args, 0)
  {
    var op := template;
    var k := 0;
    while k < |args|
      invariant 0 <= k <= |args|
      invariant FillFrom(m, op, syms, args, k) == FillFrom(m, template, syms, args, 0)
    {
      var count := if k < |syms| then CountElements(op, syms[k]) else 0;
      if count == 0 {
        FillFromSkip(m, op, syms, args, k);
      } else {
        var bits := ArgBits(m, args[k].value, count);
        FillFromNext(m, op, syms, args, k, bits);
        if bits.None? {
          return None;
        }
        op := ReplaceDigits(op, syms[k], bits.value);
      }
      k := k + 1;
    }
    return Some(op);
  }

  /** The field of an odd number halved in floating point ends in the fraction `.1`. */
  lemma HalfPoint(n: int, w: nat)
    requires n % 2 == 1 && w >= 2
    ensures HalfLenDigits(n, w)[w - 2..] == ".1"
  {
    var b := HalfBinary(n);
    if |b| < w {
      assert HalfLenDigits(n, w) == Repeat('0', w - |b|) + b;
    }
  }

  /** An odd register number written as an `INT` (`ADIW 25, 1`, `MOVW 1, 2`) is halved to a
      fraction, and the opcode holds the characters `.1` where its register field ends. */
  lemma OddRegisterPoint(m: Mnemonic, a: int, b: int)
    requires m in {ADIW, SBIW, MOVW} && a % 2 == 1
    ensures var op := MakeOpcode(m, [Token(INT, VInt(a)), Token(INT, VInt(b))]);
            op.Some? && |op.value| == 16 && op.value[10..12] == ".1"
  {
    assert OpcodeSpec(m) == Irregular;
    var args := [Token(INT, VInt(a)), Token(INT, VInt(b))];
    assert MakeOpcode(m, args) == IrregularOpcode(m, args);
    IrregularPoint(m, a, b);
  }

  lemma IrregularPoint(m: Mnemonic, a: int, b: int)
    requires m in {ADIW, SBIW, MOVW} && a % 2 == 1
    ensures var op := IrregularOpcode(m, [Token(INT, VInt(a)), Token(INT, VInt(b))]);
            op.Some? && |op.value| == 16 && op.value[10..12] == ".1"
  {
    if m == MOVW {
      HalfPoint(a, 4);
      MovwOpcode(a, b);
      var op := "00000001" + HalfLenDigits(a, 4) + HalfLenDigits(b, 4);
      assert op[10..12] == HalfLenDigits(a, 4)[2..];
    } else {
      HalfPoint(a - 24, 2);
      WordOpcode(m, a, b);
      var k := BinLenDigits(b, 6);
      var op := (if m == ADIW then "10010110" else "10010111") + k[..2] + HalfLenDigits(a - 24, 2) + k[2..];
      assert op[10..12] == HalfLenDigits(a - 24, 2);
    }
  }

  /** `MOVW a, b` with two `INT` operands: the halves of both, four characters each. */
  lemma MovwOpcode(a: int, b: int)
    ensures IrregularOpcode(MOVW, [Token(INT, VInt(a)), Token(INT, VInt(b))])
            == Some("00000001" + HalfLenDigits(a, 4) + HalfLenDigits(b, 4))
  {
    var args := [Token(INT, VInt(a)), Token(INT, VInt(b))];
    assert args[0].value == VInt(a) && args[1].value == VInt(b);
  }

  /** `ADIW`/`SBIW a, b` with two `INT` operands: the half of `a - 24` inside the split
      constant field. */
  lemma WordOpcode(m: Mnemonic, a: int, b: int)
    requires m == ADIW || m == SBIW
    ensures var k := BinLenDigits(b, 6);
            IrregularOpcode(m, [Token(INT, VInt(a)), Token(INT, VInt(b))])
            == Some((if m == ADIW then "10010110" else "10010111") + k[..2] + HalfLenDigits(a - 24, 2) + k[2..])
  {
    var args := [Token(INT, VInt(a)), Token(INT, VInt(b))];
    assert args[0].value == VInt(a) && args[1].value == VInt(b);
  }

  /** `makeOpcode`: the fixed opcode, the filled template, or the hand-built form. */
  method Encode(m: Mnemonic, args: seq<Token>) returns (opcode: Option<string>)
    ensures opcode == MakeOpcode(m, args)
  {
    var layout := OpcodeSpec(m);
    if layout.Fixed? {
      opcode := Some(layout.bits);
    } else if layout.Template? {
      opcode := FillTemplate(m, layout.syms, layout.bits, args);
    } else {
      opcode := IrregularOpcode(m, args);
    }
  }
}
