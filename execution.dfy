/** The interpreter's state and `Interpreter.step` / `Interpreter.run` as functions
    (simulator.js:1588-2922): one instruction at a time over data memory, the program counter
    registers and the status register, stopping at the end of program memory, at a `RET` with
    an empty stack, on an error, or after a million steps. */
module Execution {
  import opened Base
  import opened Tokens
  import opened Isa
  import opened Operand
  import opened Resolve
  import opened TextSection
  import opened Assembler

  // ---------------------------------------------------------------------------
  // the memory layout

  const SPL := 0x5D
  const SPH := 0x5E
  const SREG := 0x5F
  /** The number of steps after which a run is cut off. */
  const STEP_LIMIT := 1000000
  /** The highest address `XCH` accepts for its `Z` pointer (a literal, not `ramend`). */
  const XCH_TOP := 0x8FF
  /** Every address an operand can form: a 16-bit pointer plus a displacement of at most 63. */
  const MEM_SIZE := 0x10040

  /** Data memory: the register file (cells 0 to 255), then the cells the parser filled and
      zeros for the addresses JavaScript would leave as holes. */
  type Memory = d: seq<Byte> | |d| == MEM_SIZE witness seq(MEM_SIZE, i => 0)

  // ---------------------------------------------------------------------------
  // JavaScript integer operators

  /** `(v >> b) & 1` for a shift count below 32. Floor division gives the low bit of the
      arithmetic shift of the value's 32-bit reading for every integer. */
  predicate Bit(v: int, b: nat)
    requires b < 32
  {
    (v / Pow2(b)) % 2 == 1
  }

  /** The same bit with the shift count read modulo 32, as the shift operators read it. */
  predicate BitAt(v: int, s: int) {
    Bit(v, s % 32)
  }

  /** `v & 0xff` (`mod256`, and what `Register.setValue` keeps). */
  function Low(v: int): Byte { v % 256 }

  /** `(v >> 8) & 0xff`. */
  function High(v: int): Byte { (v / 256) % 256 }

  /** The two bytes `setPC` and `setSP` store make up the value modulo 2^16. */
  lemma HighLow(v: int)
    ensures High(v) * 256 + Low(v) == v % 0x10000
  {
    var q := v / 256;
    assert v == 256 * q + v % 256;
    assert q == 256 * (q / 256) + q % 256;
    assert v == 0x10000 * (q / 256) + (256 * (q % 256) + v % 256);
  }

  lemma HighLowOfWord(v: int)
    requires 0 <= v < 0x10000
    ensures High(v) == v / 256 && Low(v) == v % 256
  {
  }

  const U32 := 0x1_0000_0000

  function AndBits(a: nat, b: nat): nat
    decreases a
  {
    if a == 0 || b == 0 then 0
    else 2 * AndBits(a / 2, b / 2) + (if a % 2 == 1 && b % 2 == 1 then 1 else 0)
  }

  function OrBits(a: nat, b: nat): nat
    decreases a + b
  {
    if a == 0 then b
    else if b == 0 then a
    else 2 * OrBits(a / 2, b / 2) + (if a % 2 == 1 || b % 2 == 1 then 1 else 0)
  }

  function XorBits(a: nat, b: nat): nat
    decreases a + b
  {
    if a == 0 then b
    else if b == 0 then a
    else 2 * XorBits(a / 2, b / 2) + (if a % 2 != b % 2 then 1 else 0)
  }

  /** `x & y`, `x | y` and `x ^ y` on the 32-bit readings of two integers. */
  function JsAnd(x: int, y: int): int { ToInt32(AndBits(x % U32, y % U32)) }
  function JsOr(x: int, y: int): int { ToInt32(OrBits(x % U32, y % U32)) }
  function JsXor(x: int, y: int): int { ToInt32(XorBits(x % U32, y % U32)) }

  /** `1 << b`. */
  function Shl1(b: int): int { ToInt32(Pow2(b % 32)) }

  // ---------------------------------------------------------------------------
  // the status register

  /** The arguments of `updateSREG(I, T, H, S, V, N, Z, C)`; `None` is `null`, a flag left
      as it is. */
  datatype Flags = Flags(i: Option<bool>, t: Option<bool>, h: Option<bool>, s: Option<bool>,
                         v: Option<bool>, n: Option<bool>, z: Option<bool>, c: Option<bool>)
  {
    /** The argument for bit `k` of the status register (C is bit 0, I is bit 7). */
    function At(k: nat): Option<bool> {
      if k == 0 then c else if k == 1 then z else if k == 2 then n else if k == 3 then v
      else if k == 4 then s else if k == 5 then h else if k == 6 then t else i
    }
  }

  /** Bit `k` after an update: the flag where one is given, the old bit otherwise. */
  predicate Merged(x: int, f: Flags, k: nat)
    requires k < 8
  {
    if f.At(k).Some? then f.At(k).value else Bit(x, k)
  }

  /** The byte with the given bits, bit 0 first. */
  function Compose(b0: bool, b1: bool, b2: bool, b3: bool, b4: bool, b5: bool, b6: bool, b7: bool): Byte {
    (if b0 then 1 else 0) + (if b1 then 2 else 0) + (if b2 then 4 else 0) + (if b3 then 8 else 0)
    + (if b4 then 16 else 0) + (if b5 then 32 else 0) + (if b6 then 64 else 0) + (if b7 then 128 else 0)
  }

  lemma Pow2Small()
    ensures Pow2(0) == 1 && Pow2(1) == 2 && Pow2(2) == 4 && Pow2(3) == 8
    ensures Pow2(4) == 16 && Pow2(5) == 32 && Pow2(6) == 64 && Pow2(7) == 128
  {
  }

  /** Bits 0 to 7 read with literal divisors. */
  lemma SmallBits(x: int)
    ensures Bit(x, 0) == (x % 2 == 1) && Bit(x, 1) == ((x / 2) % 2 == 1) && Bit(x, 2) == ((x / 4) % 2 == 1)
    ensures Bit(x, 3) == ((x / 8) % 2 == 1) && Bit(x, 4) == ((x / 16) % 2 == 1) && Bit(x, 5) == ((x / 32) % 2 == 1)
    ensures Bit(x, 6) == ((x / 64) % 2 == 1) && Bit(x, 7) == ((x / 128) % 2 == 1)
  {
    Pow2Small();
  }

  /** The binary digits of a byte are the digits it was written with. */
  lemma Digits(x: int, w0: int, w1: int, w2: int, w3: int, w4: int, w5: int, w6: int, w7: int)
    requires 0 <= w0 <= 1 && 0 <= w1 <= 1 && 0 <= w2 <= 1 && 0 <= w3 <= 1
    requires 0 <= w4 <= 1 && 0 <= w5 <= 1 && 0 <= w6 <= 1 && 0 <= w7 <= 1
    requires x == w0 + 2 * w1 + 4 * w2 + 8 * w3 + 16 * w4 + 32 * w5 + 64 * w6 + 128 * w7
    ensures x % 2 == w0 && (x / 2) % 2 == w1 && (x / 4) % 2 == w2 && (x / 8) % 2 == w3
    ensures (x / 16) % 2 == w4 && (x / 32) % 2 == w5 && (x / 64) % 2 == w6 && (x / 128) % 2 == w7
  {
    assert x / 2 == w1 + 2 * (w2 + 2 * w3 + 4 * w4 + 8 * w5 + 16 * w6 + 32 * w7);
    assert x / 4 == w2 + 2 * (w3 + 2 * w4 + 4 * w5 + 8 * w6 + 16 * w7);
    assert x / 8 == w3 + 2 * (w4 + 2 * w5 + 4 * w6 + 8 * w7);
    assert x / 16 == w4 + 2 * (w5 + 2 * w6 + 4 * w7);
    assert x / 32 == w5 + 2 * (w6 + 2 * w7);
    assert x / 64 == w6 + 2 * w7;
    assert x / 128 == w7;
  }

  lemma ComposeBits(b0: bool, b1: bool, b2: bool, b3: bool, b4: bool, b5: bool, b6: bool, b7: bool)
    ensures var x := Compose(b0, b1, b2, b3, b4, b5, b6, b7);
            Bit(x, 0) == b0 && Bit(x, 1) == b1 && Bit(x, 2) == b2 && Bit(x, 3) == b3
            && Bit(x, 4) == b4 && Bit(x, 5) == b5 && Bit(x, 6) == b6 && Bit(x, 7) == b7
  {
    var x := Compose(b0, b1, b2, b3, b4, b5, b6, b7);
    SmallBits(x);
    Digits(x, if b0 then 1 else 0, if b1 then 1 else 0, if b2 then 1 else 0, if b3 then 1 else 0,
           if b4 then 1 else 0, if b5 then 1 else 0, if b6 then 1 else 0, if b7 then 1 else 0);
  }

  /** `updateSREG`: every flag given replaces its bit; every other bit stays. */
  function UpdateSREG(x: int, f: Flags): (r: Byte)
    ensures forall k :: 0 <= k < 8 ==> Bit(r, k) == Merged(x, f, k)
  {
    var r := Compose(Merged(x, f, 0), Merged(x, f, 1), Merged(x, f, 2), Merged(x, f, 3),
                     Merged(x, f, 4), Merged(x, f, 5), Merged(x, f, 6), Merged(x, f, 7));
    ComposeBits(Merged(x, f, 0), Merged(x, f, 1), Merged(x, f, 2), Merged(x, f, 3),
                Merged(x, f, 4), Merged(x, f, 5), Merged(x, f, 6), Merged(x, f, 7));
    r
  }

  /** `updateSREGBit(value, bit)`: bit `bit` (its shift count read modulo 32) takes the value
      when it is one of the eight status bits; a higher bit leaves the register as it is. */
  function UpdateSREGBit(x: int, value: bool, bit: int): (r: Byte)
    ensures forall k :: 0 <= k < 8 ==> Bit(r, k) == (if k == bit % 32 then value else Bit(x, k))
  {
    var s := bit % 32;
    var f := Flags(if s == 7 then Some(value) else None, if s == 6 then Some(value) else None,
                   if s == 5 then Some(value) else None, if s == 4 then Some(value) else None,
                   if s == 3 then Some(value) else None, if s == 2 then Some(value) else None,
                   if s == 1 then Some(value) else None, if s == 0 then Some(value) else None);
    UpdateSREG(x, f)
  }

  /** The eight flags `ADD` and `ADC` compute from the two operands and the result. */
  function AddFlags(rd: int, rr: int, r: int): Flags {
    var d3, r3, s3 := Bit(rd, 3), Bit(rr, 3), Bit(r, 3);
    var d7, r7, s7 := Bit(rd, 7), Bit(rr, 7), Bit(r, 7);
    var v := (d7 && r7 && !s7) || (!d7 && !r7 && s7);
    Flags(None, None, Some((d3 && r3) || (r3 && !s3) || (d3 && !s3)), Some(s7 != v), Some(v), Some(s7),
          Some(r == 0), Some((d7 && r7) || (r7 && !s7) || (d7 && !s7)))
  }

  /** The flags of the subtractions and comparisons; `z` is the zero flag, which `SBC`, `SBCI`
      and `CPC` also take from the old zero flag. */
  function SubFlags(rd: int, rr: int, r: int, z: bool): Flags {
    var d3, r3, s3 := Bit(rd, 3), Bit(rr, 3), Bit(r, 3);
    var d7, r7, s7 := Bit(rd, 7), Bit(rr, 7), Bit(r, 7);
    var v := (s7 && r7 && !d7) || (!s7 && !r7 && d7);
    Flags(None, None, Some((s3 && r3) || (r3 && !d3) || (s3 && !d3)), Some(s7 != v), Some(v), Some(s7),
          Some(z), Some((s7 && r7) || (r7 && !d7) || (s7 && !d7)))
  }

  /** The flags of the logic instructions: `V` cleared, `N` and `S` the sign bit, `Z`. */
  function LogicFlags(r: int): Flags {
    Flags(None, None, None, Some(Bit(r, 7)), Some(false), Some(Bit(r, 7)), Some(r == 0), None)
  }

  /** `INC`, `DEC` and the shifts: `V` as given, `N` the sign bit, `S = N ^ V`, `Z`, and `C`
      where one is given. */
  function ShiftFlags(r: int, v: bool, c: Option<bool>): Flags {
    Flags(None, None, None, Some(Bit(r, 7) != v), Some(v), Some(Bit(r, 7)), Some(r == 0), c)
  }

  // ---------------------------------------------------------------------------
  // data memory

  /** `dmem[i].getValue()` (0 where there is no cell). */
  function Get(d: Memory, i: int): Byte {
    if 0 <= i < MEM_SIZE then d[i] else 0
  }

  /** `dmem[i].setValue(v)`, and a raw store `dmem[i] = v`: the cell keeps `v & 0xff` and no
      other cell changes. */
  function Put(d: Memory, i: int, v: int): (r: Memory)
    ensures forall j :: 0 <= j < MEM_SIZE && j != i ==> r[j] == d[j]
    ensures 0 <= i < MEM_SIZE ==> r[i] == Low(v)
  {
    if 0 <= i < MEM_SIZE then d[i := Low(v)] else d
  }

  /** A raw read `dmem[k]` as `setValue` or a shift sees it: the register file holds
      `Register` objects, which read as `NaN` and so as 0; the cells above hold numbers. */
  function Fetch(d: Memory, k: int): Byte {
    if 256 <= k < MEM_SIZE then d[k] else 0
  }

  /** The status register after `updateSREG(...)`. */
  function WithFlags(d: Memory, f: Flags): (r: Memory)
    ensures forall j :: 0 <= j < MEM_SIZE && j != SREG ==> r[j] == d[j]
  {
    d[SREG := UpdateSREG(d[SREG], f)]
  }

  const XL := 26
  const YL := 28
  const ZL := 30

  /** `getX()`, `getY()`, `getZ()`: the register pair whose low byte is at `lo`. */
  function Pair(d: Memory, lo: int): nat {
    Get(d, lo + 1) * 256 + Get(d, lo)
  }

  /** `incX()`, `incY()`, `incZ()`: the high byte goes up when the low byte was 255. */
  function IncPair(d: Memory, lo: int): Memory {
    var l, h := Get(d, lo), Get(d, lo + 1);
    Put(if l == 255 then Put(d, lo + 1, h + 1) else d, lo, l + 1)
  }

  /** `decX()`, `decY()`, `decZ()`: the high byte goes down when the low byte was 0. */
  function DecPair(d: Memory, lo: int): Memory {
    var l, h := Get(d, lo), Get(d, lo + 1);
    Put(if l == 0 then Put(d, lo + 1, h - 1) else d, lo, l - 1)
  }

  /** Incrementing a pointer pair adds one to it modulo 2^16 and changes no other cell. */
  lemma IncPairValue(d: Memory, lo: int)
    requires 0 <= lo && lo + 1 < MEM_SIZE
    ensures Pair(IncPair(d, lo), lo) == (Pair(d, lo) + 1) % 0x10000
    ensures forall j :: 0 <= j < MEM_SIZE && j != lo && j != lo + 1 ==> IncPair(d, lo)[j] == d[j]
  {
  }

  /** Decrementing a pointer pair subtracts one from it modulo 2^16 and changes no other cell. */
  lemma DecPairValue(d: Memory, lo: int)
    requires 0 <= lo && lo + 1 < MEM_SIZE
    ensures Pair(DecPair(d, lo), lo) == (Pair(d, lo) - 1) % 0x10000
    ensures forall j :: 0 <= j < MEM_SIZE && j != lo && j != lo + 1 ==> DecPair(d, lo)[j] == d[j]
  {
  }

  // ---------------------------------------------------------------------------
  // the interpreter's state

  /** The interpreter between two steps: program memory with the source line of each slot,
      data memory (which holds `SPL`, `SPH` and `SREG` at 0x5D to 0x5F), the two program
      counter registers, `ramend`, the step count and whether the run is over. */
  datatype Machine = Machine(pmem: seq<Option<Instr>>, lines: seq<int>, dmem: Memory, pcl: Byte, pch: Byte,
                             ramend: int, steps: nat, finished: bool)
  {
    /** `getPC()` */
    function PC(): nat { pch as int * 256 + pcl }

    /** `getSP()` */
    function SP(): nat { dmem[SPH] as int * 256 + dmem[SPL] }

    /** `flashend`: the last slot of program memory. */
    function Flashend(): int { |pmem| - 1 }

    /** The source line of the current slot, as error messages cite it. */
    function Line(): int { if PC() < |lines| then lines[PC()] else 0 }

    /** `setPC(v)`: the program counter becomes `v` modulo 2^16. */
    function WithPC(v: int): (r: Machine)
      ensures r.PC() == v % 0x10000
      ensures r.dmem == dmem && r.pmem == pmem && r.lines == lines && r.ramend == ramend
      ensures r.steps == steps && r.finished == finished
    {
      HighLow(v);
      this.(pch := High(v), pcl := Low(v))
    }

    /** `setSP(v)`: the stack pointer becomes `v` modulo 2^16; no other cell changes. */
    function WithSP(v: int): (r: Machine)
      ensures r.SP() == v % 0x10000
      ensures forall j :: 0 <= j < MEM_SIZE && j != SPL && j != SPH ==> r.dmem[j] == dmem[j]
      ensures r.pcl == pcl && r.pch == pch && r.pmem == pmem && r.lines == lines && r.ramend == ramend
      ensures r.steps == steps && r.finished == finished
    {
      HighLow(v);
      this.(dmem := Put(Put(dmem, SPH, High(v)), SPL, Low(v)))
    }

    function IncPC(): Machine { WithPC(PC() + 1) }
    function DecPC(): Machine { WithPC(PC() - 1) }
    function IncSP(): Machine { WithSP(SP() + 1) }
    function DecSP(): Machine { WithSP(SP() - 1) }
  }

  /** The parts of the state an instruction's own work never touches. */
  predicate Framed(m: Machine, m': Machine) {
    m'.pmem == m.pmem && m'.lines == m.lines && m'.ramend == m.ramend && m'.steps == m.steps
    && m'.finished == m.finished
  }

  /** What an instruction's case of the big switch leaves behind. */
  datatype Effect =
    | Advance(m: Machine)                    // falls through to `incPC()` and the step count
    | Jump(m: Machine)                       // `skip_inc`: only the step count follows
    | Halt(m: Machine)                       // `RET` with an empty stack: the run is over
    | Raise(m: Machine, kind: ErrorKind)     // `newError`: the run is over, with an error
    | Fault(m: Machine, kind: ErrorKind)     // a JavaScript `TypeError`: the step stops there

  // ---------------------------------------------------------------------------
  // operands

  /** `getArgumentValue(line, j)`: an integer operand's value, a register operand's
      content. */
  function Arg(d: Memory, ins: Instr, j: nat): int {
    if j < |ins.args| && ins.args[j].value.VInt? then
      var n := ins.args[j].value.n;
      if ins.args[j].kind == INT then n else if ins.args[j].kind == REG then Get(d, n) else 0
    else 0
  }

  /** `line.getArgs()[j].getValue()` used as a cell index. */
  function Index(ins: Instr, j: nat): int {
    if j < |ins.args| && ins.args[j].value.VInt? then ins.args[j].value.n else -1
  }

  /** `line.getArgs()[j].getValue()` used as a string (`X+`, `-Y`, `Z+12`, ...). */
  function Text(ins: Instr, j: nat): string {
    if j < |ins.args| && ins.args[j].value.VStr? then ins.args[j].value.s else ""
  }

  /** The low cell of the pointer pair `w[0]` names. */
  function PointerOf(w: string): Option<int> {
    if w == [] then None
    else if w[0] == 'X' then Some(XL) else if w[0] == 'Y' then Some(YL) else if w[0] == 'Z' then Some(ZL)
    else None
  }

  // ---------------------------------------------------------------------------
  // the cases of the big switch
  //
  // Each case receives what the source reads at its top: the operand values
  // (`getArgumentValue`, named `rd`, `rr`, `k`, `a0`, `a1` after the AVR manual's letters),
  // the raw number `i` of the register it writes, and for the pointer forms the operand text.

  /** An addition with carry-in `c` into register `i`. */
  function AddInto(m: Machine, i: int, rd: int, rr: int, c: int): Machine {
    var r := Low(rd + rr + c);
    m.(dmem := WithFlags(Put(m.dmem, i, r), AddFlags(rd, rr, r)))
  }

  /** A subtraction with borrow-in `c`, written to register `i` when `write` holds; with
      `keepZ` a zero result sets `Z` only when it was already set. */
  function SubInto(m: Machine, i: int, rd: int, rr: int, c: int, write: bool, keepZ: bool): Machine {
    var r := Low(rd - rr - c);
    var d1 := if write then Put(m.dmem, i, r) else m.dmem;
    m.(dmem := WithFlags(d1, SubFlags(rd, rr, r, r == 0 && (!keepZ || Bit(d1[SREG], 1)))))
  }

  /** `ADD`, `ADC`, `SUB`, `SUBI`, `SBC`, `SBCI` and the comparisons `CP`, `CPC`, `CPI`, which
      leave `Rd` as it is. The carry-using forms read `C` before `Rd` is written; the zero
      flag of `SBC`, `SBCI` and `CPC` also needs the old `Z`, read after that write. */
  function Arithmetic(m: Machine, k: Mnemonic, rd: int, rr: int, i: int): (e: Effect)
    requires k in {ADC, ADD, SUB, SUBI, SBC, SBCI, CP, CPC, CPI}
    ensures e.Advance? && Framed(m, e.m) && e.m.PC() == m.PC()
  {
    var carry := k in {ADC, SBC, SBCI, CPC};
    var c := if carry && Bit(m.dmem[SREG], 0) then 1 else 0;
    if k in {ADC, ADD} then Advance(AddInto(m, i, rd, rr, c))
    else Advance(SubInto(m, i, rd, rr, c, k !in {CP, CPC, CPI}, carry))
  }

  /** `AND`, `ANDI`, `OR`, `ORI`, `SBR`, `EOR`, `CBR` (`Rd & (0xff - K)`) and `TST`, which only
      sets the flags. */
  function Logic(m: Machine, k: Mnemonic, rd: int, rr: int, i: int): (e: Effect)
    requires k in {AND, ANDI, OR, ORI, SBR, EOR, CBR, TST}
    ensures e.Advance? && Framed(m, e.m) && e.m.PC() == m.PC()
  {
    var d := m.dmem;
    var r := if k in {AND, ANDI} then JsAnd(rd, rr)
             else if k in {OR, ORI, SBR} then JsOr(rd, rr)
             else if k == EOR then JsXor(rd, rr)
             else if k == CBR then JsAnd(rd, 0xff - rr)
             else rd;
    var d1 := if k == TST then d else Put(d, i, r);
    Advance(m.(dmem := WithFlags(d1, LogicFlags(r))))
  }

  /** `CLR`, `SER`, `COM`, `NEG`, `INC`, `DEC` and `SWAP`. */
  function Unary(m: Machine, k: Mnemonic, rd: int, i: int): (e: Effect)
    requires k in {CLR, SER, COM, NEG, INC, DEC, SWAP}
    ensures e.Advance? && Framed(m, e.m) && e.m.PC() == m.PC()
  {
    var d := m.dmem;
    if k == CLR then
      Advance(m.(dmem := WithFlags(Put(d, i, 0), Flags(None, None, None, Some(false), Some(false), Some(false), Some(true), None))))
    else if k == SER then
      Advance(m.(dmem := Put(d, i, 0xff)))
    else if k == COM then
      var r := 0xff - rd;
      Advance(m.(dmem := WithFlags(Put(d, i, r), Flags(None, None, None, Some(Bit(r, 7)), Some(false), Some(Bit(r, 7)), Some(r == 0), Some(true)))))
    else if k == NEG then
      var r := Low(0 - rd);
      var v := r == 128;
      Advance(m.(dmem := WithFlags(Put(d, i, r), Flags(None, None, Some(Bit(r, 3) || !Bit(rd, 3)), Some(Bit(r, 7) != v), Some(v),
                                                    Some(Bit(r, 7)), Some(r == 0), Some(r != 0)))))
    else if k == INC then
      var r := Low(rd + 1);
      Advance(m.(dmem := WithFlags(Put(d, i, r), ShiftFlags(r, r == 128, None))))
    else if k == DEC then
      var r := Low(rd - 1);
      Advance(m.(dmem := WithFlags(Put(d, i, r), ShiftFlags(r, r == 127, None))))
    else
      Advance(m.(dmem := Put(d, i, (rd % 16) * 16 + (rd % 256) / 16)))
  }

  /** `ASR`, `LSL`, `LSR`, `ROL` and `ROR` on register `i`, with `c` the carry the rotations
      shift in. */
  function ShiftInto(m: Machine, k: Mnemonic, rd: int, i: int, c: int): Machine {
    var d := m.dmem;
    if k == ASR then
      var half := Low(rd / 2);
      var r := if Bit(half, 6) then half + 128 else half;
      m.(dmem := WithFlags(Put(d, i, r), ShiftFlags(r, Bit(r, 7) != Bit(rd, 0), Some(Bit(rd, 0)))))
    else if k == LSL then
      var r := Low(rd + rd);
      m.(dmem := WithFlags(Put(d, i, r), ShiftFlags(r, Bit(r, 7) != Bit(rd, 7), Some(Bit(rd, 7))).(h := Some(Bit(rd, 3)))))
    else if k == LSR then
      var r := Low(rd / 2);
      var c0 := Bit(rd, 0);
      m.(dmem := WithFlags(Put(d, i, r), Flags(None, None, None, Some(c0), Some(c0), Some(false), Some(r == 0), Some(c0))))
    else if k == ROL then
      var r := Low(2 * rd) + c;
      m.(dmem := WithFlags(Put(d, i, r), ShiftFlags(r, Bit(r, 7) != Bit(rd, 7), Some(Bit(rd, 7)))))
    else
      var r := Low(rd / 2) + 128 * c;
      m.(dmem := WithFlags(Put(d, i, r), ShiftFlags(r, Bit(r, 7) != Bit(rd, 0), Some(Bit(rd, 0)))))
  }

  /** `ASR`, `LSL`, `LSR`, `ROL` and `ROR`; the rotations read the old carry. */
  function Shift(m: Machine, k: Mnemonic, rd: int, i: int): (e: Effect)
    requires k in {ASR, LSL, LSR, ROL, ROR}
    ensures e.Advance? && Framed(m, e.m) && e.m.PC() == m.PC()
  {
    Advance(ShiftInto(m, k, rd, i, if Bit(m.dmem[SREG], 0) then 1 else 0))
  }

  /** The flags `ADIW` and `SBIW` leave: the source forms the word from the two register
      objects with `+`, which makes a string, so every comparison on it is false and `S`, `V`,
      `N`, `Z` and `C` are all cleared. */
  const WordFlags := Flags(None, None, None, Some(false), Some(false), Some(false), Some(false), Some(false))

  /** A cell of the register file, which holds a `Register` object; calling `inc`, `dec`,
      `setValue` or `getValue` on any other cell is a JavaScript `TypeError`. */
  predicate RegisterCell(i: int) { 0 <= i < 256 }

  /** `ADIW`, `SBIW`, `MOVW`, `MOV`, `LDI` and the multiplications, which put the product in
      `R1:R0`. An `INT` first operand of `ADIW`, `SBIW` or `MOVW` skips the options list, so
      the cells these three call `Register` methods on may lie outside the register file:
      the step then stops with a `TypeError`, keeping what was written before it. */
  function Move(m: Machine, op: Mnemonic, rd: int, k: int, i: int, j: int): (e: Effect)
    requires op in {ADIW, SBIW, MOVW, MOV, LDI, MUL, MULS, MULSU}
    ensures (e.Advance? || e.Fault?) && Framed(m, e.m) && e.m.PC() == m.PC()
    ensures e.Fault? <==>
              || (op == ADIW && (!RegisterCell(i) || (rd + k > 0xff && !RegisterCell(i + 1))))
              || (op == SBIW && (!RegisterCell(i) || (rd - k < 0 && !RegisterCell(i + 1))))
              || (op == MOVW && !(RegisterCell(i) && RegisterCell(j + 1) && RegisterCell(i + 1)))
    ensures e.Fault? ==> e.kind == RegisterFault
  {
    var d := m.dmem;
    if op == ADIW then
      var r := rd + k;
      if r > 0xff && !RegisterCell(i + 1) then Fault(m, RegisterFault)
      else
        var d1 := if r > 0xff then Put(d, i + 1, Get(d, i + 1) + 1) else d;
        if !RegisterCell(i) then Fault(m.(dmem := d1), RegisterFault)
        else Advance(m.(dmem := WithFlags(Put(d1, i, if r > 0xff then Low(r) else r), WordFlags)))
    else if op == SBIW then
      var r := rd - k;
      if r < 0 && !RegisterCell(i + 1) then Fault(m, RegisterFault)
      else
        var d1 := if r < 0 then Put(d, i + 1, Get(d, i + 1) - 1) else d;
        if !RegisterCell(i) then Fault(m.(dmem := d1), RegisterFault)
        else Advance(m.(dmem := WithFlags(Put(d1, i, if r < 0 then r + 0x100 else r), WordFlags)))
    else if op == MOVW then
      if !RegisterCell(i) then Fault(m, RegisterFault)
      else
        var d1 := Put(d, i, k);
        if !RegisterCell(j + 1) || !RegisterCell(i + 1) then Fault(m.(dmem := d1), RegisterFault)
        else Advance(m.(dmem := Put(d1, i + 1, d1[j + 1])))
    else if op in {MOV, LDI} then
      Advance(m.(dmem := Put(d, i, k)))
    else
      var r := rd * k;
      var d1 := Put(Put(d, 0, r), 1, High(r));
      Advance(m.(dmem := WithFlags(d1, Flags(None, None, None, None, None, None, Some(r == 0), Some(Bit(r, 15))))))
  }

  /** The status bit `CLC` ... `CLI` clear and `SEC` ... `SEI` set. */
  function FlagBit(k: Mnemonic): int {
    if k in {CLC, SEC} then 0 else if k in {CLZ, SEZ} then 1 else if k in {CLN, SEN} then 2
    else if k in {CLV, SEV} then 3 else if k in {CLS, SES} then 4 else if k in {CLH, SEH} then 5
    else if k in {CLT, SET} then 6 else 7
  }

  /** `BLD`'s result: `Rd | 2 ** b` when `T` is set, `Rd & (0xff - 2 ** b)` otherwise. A
      negative `b` makes `2 ** b` a fraction, which the bitwise operators read as 0 and
      `0xff - 2 ** b` as 254. */
  function BitLoad(rd: int, b: int, t: bool): int {
    if b >= 0 then (if t then JsOr(rd, Pow2(b)) else JsAnd(rd, 0xff - Pow2(b)))
    else (if t then JsOr(rd, 0) else JsAnd(rd, 254))
  }

  /** `BCLR`, `BSET`, `BST`, `BLD` and the sixteen single-flag instructions. */
  function StatusOp(m: Machine, k: Mnemonic, a0: int, a1: int, i: int): (e: Effect)
    requires k in {BCLR, BSET, BST, BLD, CLC, CLZ, CLN, CLV, CLS, CLH, CLT, CLI,
                   SEC, SEZ, SEN, SEV, SES, SEH, SET, SEI}
    ensures e.Advance? && Framed(m, e.m) && e.m.PC() == m.PC()
  {
    var d := m.dmem;
    var x := d[SREG];
    if k == BCLR then Advance(m.(dmem := d[SREG := UpdateSREGBit(x, false, a0)]))
    else if k == BSET then Advance(m.(dmem := d[SREG := UpdateSREGBit(x, true, a0)]))
    else if k == BST then Advance(m.(dmem := d[SREG := UpdateSREGBit(x, BitAt(a0, a1), 6)]))
    else if k == BLD then Advance(m.(dmem := Put(d, i, BitLoad(a0, a1, Bit(x, 6)))))
    else Advance(m.(dmem := d[SREG := UpdateSREGBit(x, k >= SEC, FlagBit(k))]))
  }

  /** The status bit a conditional branch tests and whether it branches when that bit is set
      (`BRBC` and `BRBS` test the bit their first operand names). */
  function BranchOn(k: Mnemonic, s: int): (int, bool)
    requires BRBC <= k <= BRVS
  {
    if k == BRBC then (s, false) else if k == BRBS then (s, true)
    else if k in {BRCC, BRSH} then (0, false) else if k in {BRCS, BRLO} then (0, true)
    else if k == BRNE then (1, false) else if k == BREQ then (1, true)
    else if k == BRPL then (2, false) else if k == BRMI then (2, true)
    else if k == BRVC then (3, false) else if k == BRVS then (3, true)
    else if k == BRGE then (4, false) else if k == BRLT then (4, true)
    else if k == BRHC then (5, false) else if k == BRHS then (5, true)
    else if k == BRTC then (6, false) else if k == BRTS then (6, true)
    else if k == BRID then (7, false) else (7, true)
  }

  /** The conditional branches (`BRBC` ... `BRVS`), `JMP`, `RJMP` and `IJMP`. A taken
      branch goes to `PC + k + 1`, where `k` is the first operand (for `BRBC` and `BRBS` that
      is the bit number, as the source reads it). */
  function Branch(m: Machine, op: Mnemonic, k: int): (e: Effect)
    requires BRBC <= op <= BRVS || op in {JMP, RJMP, IJMP}
    ensures (e.Advance? || e.Jump?) && Framed(m, e.m) && e.m.dmem == m.dmem
    ensures e.Advance? ==> e.m == m
  {
    var d := m.dmem;
    if op == JMP then Jump(m.WithPC(k))
    else if op == RJMP then Jump(m.WithPC(m.PC() + k + 1))
    else if op == IJMP then Jump(m.WithPC(Pair(d, ZL)))
    else
      var (bit, whenSet) := BranchOn(op, k);
      if BitAt(d[SREG], bit) == whenSet then Jump(m.WithPC(m.PC() + k + 1)) else Advance(m)
  }

  /** `dmem[SP].setValue(v)` followed by `decSP()`. */
  function PushByte(m: Machine, v: int): Machine {
    m.(dmem := Put(m.dmem, m.SP(), v)).DecSP()
  }

  /** The two pushes of a call: the low byte of the program counter at `SP`, then the high
      byte one below, the stack pointer going down after each. */
  function PushPC(m: Machine): Machine {
    var m1 := PushByte(m, m.pcl);
    PushByte(m1, m1.pch)
  }

  /** `CALL` to address `t`: the program counter moves past both words, then with room for
      two bytes on the stack the return address is pushed and the program counter set. */
  function Call(m: Machine, t: int): (e: Effect)
    ensures (e.Jump? || e.Raise?) && Framed(m, e.m)
    ensures e.Raise? ==> e.kind == BadStackCall
  {
    var m1 := m.IncPC().IncPC();
    if m1.SP() <= 0x101 then Raise(m1, BadStackCall)
    else Jump(PushPC(m1).WithPC(t))
  }

  /** `RET`: with an empty stack (`SP` at `ramend`) the run is over; otherwise the stack must
      hold two bytes, the high byte of the return address popped first. */
  function Return(m: Machine): (e: Effect)
    ensures (e.Jump? || e.Halt? || e.Raise?) && Framed(m, e.m)
    ensures e.Halt? || e.Raise? ==> e.m == m
    ensures e.Raise? ==> e.kind == BadStackRet
  {
    if m.SP() == m.ramend then Halt(m)
    else if m.SP() < 0x100 || m.SP() > m.ramend - 2 then Raise(m, BadStackRet)
    else
      var m1 := m.IncSP();
      var hi := Fetch(m1.dmem, m1.SP());
      var m2 := m1.IncSP();
      Jump(m2.WithPC(hi * 256 + Fetch(m2.dmem, m2.SP())))
  }

  /** `PUSH` of the value `v`: stored at `SP`, which then goes down. */
  function Push(m: Machine, v: int): (e: Effect)
    ensures (e.Advance? || e.Raise?) && Framed(m, e.m) && e.m.PC() == m.PC()
    ensures e.Raise? ==> e.m == m
    ensures e.Raise? ==> e.kind == StackOverflowPush
  {
    if m.SP() <= 0x100 then Raise(m, StackOverflowPush)
    else Advance(PushByte(m, v))
  }

  /** `POP` into cell `i`: `SP` goes up, then the cell it names is read. */
  function Pop(m: Machine, i: int): (e: Effect)
    ensures (e.Advance? || e.Raise?) && Framed(m, e.m) && e.m.PC() == m.PC()
    ensures e.Raise? ==> e.m == m
    ensures e.Raise? ==> e.kind == BadStackPop
  {
    if m.SP() >= m.ramend then Raise(m, BadStackPop)
    else
      var m1 := m.IncSP();
      Advance(m1.(dmem := Put(m1.dmem, i, Fetch(m1.dmem, m1.SP()))))
  }

  /** `CALL` (with an address operand), `ICALL`, `RCALL`, `RET`, `PUSH` and `POP`, with their
      stack pointer checks. `CALL` moves the program counter past both of its words and
      `ICALL` and `RCALL` past theirs before the check, so a failing call leaves it moved. */
  function Stack(m: Machine, ins: Instr): (e: Effect)
    requires ins.m in {CALL, ICALL, RCALL, RET, PUSH, POP}
    ensures !e.Fault? && Framed(m, e.m)
    ensures e.Raise? ==> e.kind in {BadStackCall, BadStackRet, StackOverflowPush, BadStackPop}
  {
    var d := m.dmem;
    if ins.m == CALL then
      if |ins.args| > 0 && ins.args[0].kind == INT then Call(m, Arg(d, ins, 0)) else Advance(m)
    else if ins.m in {ICALL, RCALL} then
      var m1 := m.IncPC();
      if m1.SP() <= 0x101 then Raise(m1, BadStackCall)
      else if ins.m == ICALL then
        var m2 := PushPC(m1); Jump(m2.WithPC(Pair(m2.dmem, ZL)))
      else
        var m2 := PushPC(m1).DecPC(); Jump(m2.WithPC(m2.PC() + Arg(m2.dmem, ins, 0) + 1))
    else if ins.m == RET then Return(m)
    else if ins.m == PUSH then Push(m, Arg(d, ins, 0))
    else Pop(m, Index(ins, 0))
  }

  /** `pmem[j] === null`: a continuation slot. A slot past the end is `undefined`, which is
      not `null`. */
  predicate EmptySlot(m: Machine, j: int) {
    0 <= j < |m.pmem| && m.pmem[j].None?
  }

  /** The condition of `CPSE` (equal operands), `SBRC` (bit `rr` of `rd` clear) and `SBRS`
      (that bit set). */
  predicate Skips(k: Mnemonic, rd: int, rr: int) {
    if k == CPSE then rd == rr else if k == SBRC then !BitAt(rd, rr) else BitAt(rd, rr)
  }

  /** `CPSE`, `SBRC` and `SBRS`: when the condition holds the program counter moves once,
      and once more when the slot after the next instruction is a continuation slot; the usual
      increment follows. */
  function Skip(m: Machine, k: Mnemonic, rd: int, rr: int): (e: Effect)
    requires k in {CPSE, SBRC, SBRS}
    ensures e.Advance? && Framed(m, e.m) && e.m.dmem == m.dmem
  {
    if !Skips(k, rd, rr) then Advance(m)
    else
      var m1 := m.IncPC();
      Advance(if EmptySlot(m1, m1.PC() + 1) then m1.IncPC() else m1)
  }

  /** The pre-decrement of `LD` and `ST` with `-X`, `-Y` or `-Z`, and the pointer word that
      is left. */
  function PreDecrement(d: Memory, w: string): (Memory, string) {
    if w == "-X" then (DecPair(d, XL), "X")
    else if w == "-Y" then (DecPair(d, YL), "Y")
    else if w == "-Z" then (DecPair(d, ZL), "Z")
    else (d, w)
  }

  /** The post-increment of `LD` and `ST` with `X+`, `Y+` or `Z+`. */
  function PostIncrement(d: Memory, w: string): Memory {
    if w == "X+" then IncPair(d, XL)
    else if w == "Y+" then IncPair(d, YL)
    else if w == "Z+" then IncPair(d, ZL)
    else d
  }

  /** `parseInt(w.slice(2))`: the displacement of `Y+q` or `Z+q` (the token only admits
      decimal digits there). */
  function Displacement(w: string): Option<int> {
    ParseInt(if |w| >= 2 then w[2..] else "", 10)
  }

  /** The cell `LDD` and `STD` address: `Y` or `Z` (named by `w[0]`) plus the displacement;
      `None` where the source's index is `undefined` or `NaN`. */
  function Displaced(d: Memory, w: string): Option<int> {
    var q := Displacement(w);
    if w != [] && (w[0] == 'Y' || w[0] == 'Z') && q.Some? then Some(Pair(d, if w[0] == 'Y' then YL else ZL) + q.value)
    else None
  }

  /** `LD`, `LDD` and `LDS`: `Rd` takes the cell the pointer (or the address) names. `LDS`
      moves the program counter past its second word. */
  function Load(m: Machine, op: Mnemonic, i: int, w: string, a: int): (e: Effect)
    requires op in {LD, LDD, LDS}
    ensures e.Advance? && Framed(m, e.m)
    ensures op != LDS ==> e.m.PC() == m.PC()
  {
    var d := m.dmem;
    if op == LD then
      var (d1, w1) := PreDecrement(d, w);
      var p := PointerOf(w1);
      var d2 := Put(d1, i, if p.Some? then Fetch(d1, Pair(d1, p.value)) else 0);
      Advance(m.(dmem := PostIncrement(d2, w1)))
    else if op == LDD then
      var k := Displaced(d, w);
      Advance(m.(dmem := Put(d, i, if k.Some? then Fetch(d, k.value) else 0)))
    else
      Advance(m.(dmem := Put(d, i, Fetch(d, a))).IncPC())
  }

  /** `ST`, `STD` and `STS`: a raw store of the register into the cell named. `STS` moves the
      program counter past its second word. */
  function Store(m: Machine, op: Mnemonic, w: string, a: int, rr: int): (e: Effect)
    requires op in {ST, STD, STS}
    ensures e.Advance? && Framed(m, e.m)
    ensures op != STS ==> e.m.PC() == m.PC()
  {
    var d := m.dmem;
    if op == ST then
      var (d1, w1) := PreDecrement(d, w);
      var p := PointerOf(w1);
      var d2 := if p.Some? then Put(d1, Pair(d1, p.value), rr) else d1;
      Advance(m.(dmem := PostIncrement(d2, w1)))
    else if op == STD then
      var k := Displaced(d, w);
      Advance(m.(dmem := if k.Some? then Put(d, k.value, rr) else d))
    else
      Advance(m.(dmem := Put(d, a, rr)).IncPC())
  }

  /** `s.slice(a, b)` for `0 <= a <= b`. */
  function Slice(s: string, a: nat, b: nat): string
    requires a <= b
  {
    if b <= |s| then s[a..b] else if a <= |s| then s[a..] else ""
  }

  /** The byte `LPM` reads from program memory at byte address `k`: eight characters of the
      opcode string of slot `k / 2` (the first eight for an even address), read in base 2;
      `NaN` reads as 0. `None` where the slot or its opcode is missing, a `TypeError`. */
  function ProgramByte(pmem: seq<Option<Instr>>, k: nat): Option<Byte> {
    var slot := k / 2;
    if slot >= |pmem| || pmem[slot].None? || pmem[slot].value.Opcode().None? then None
    else
      var from := 8 * (k % 2);
      match ParseInt(Slice(pmem[slot].value.Opcode().value, from, from + 8), 2)
      case Some(n) => Some(Low(n))
      case None => Some(0)
  }

  /** `LPM`: the program byte at `Z` into `R0` (no operands) or `Rd`, then `Z` goes up when
      the second operand has a `+`. */
  function ProgramLoad(m: Machine, ins: Instr): (e: Effect)
    requires ins.m == LPM
    ensures (e.Advance? || e.Fault?) && Framed(m, e.m) && e.m.PC() == m.PC()
    ensures e.Fault? ==> e.kind == LpmFault
  {
    match ProgramByte(m.pmem, Pair(m.dmem, ZL))
    case None => Fault(m, LpmFault)
    case Some(v) => LoadByte(m, ins, v)
  }

  /** The rest of `LPM` once the byte `v` is read: it goes to `R0` or `Rd`, and `Z` goes up
      when the second operand has a `+`; `getArgs()[1]` missing is a `TypeError`. */
  function LoadByte(m: Machine, ins: Instr, v: Byte): (e: Effect)
    ensures (e.Advance? || e.Fault?) && Framed(m, e.m) && e.m.PC() == m.PC()
    ensures e.Fault? ==> e.kind == LpmFault
  {
    var d := m.dmem;
    if ins.args == [] then Advance(m.(dmem := Put(d, 0, v)))
    else
      var d1 := Put(d, Index(ins, 0), v);
      if |ins.args| < 2 then Fault(m.(dmem := d1), LpmFault)
      else Advance(m.(dmem := if '+' in Text(ins, 1) then IncPair(d1, ZL) else d1))
  }

  /** `XCH`: `Z` must lie in 0x100 to 0x8FF; the cell at `Z` and the register swap. */
  function Exchange(m: Machine, rd: int, i: int): (e: Effect)
    ensures (e.Advance? || e.Raise?) && Framed(m, e.m) && e.m.PC() == m.PC()
    ensures e.Raise? ==> e.m == m
    ensures e.Raise? ==> e.kind == IllegalZ
  {
    var d := m.dmem;
    var k := Pair(d, ZL);
    if k < 0x100 || k > XCH_TOP then Raise(m, IllegalZ)
    else Advance(m.(dmem := Put(Put(d, k, rd), i, Fetch(d, k))))
  }

  /** `IN`, `OUT`, `CBI` and `SBI`: I/O port `A` is the cell `A + 0x20`. */
  function InOut(m: Machine, k: Mnemonic, a0: int, a1: int, i: int): (e: Effect)
    requires k in {IN, OUT, CBI, SBI}
    ensures e.Advance? && Framed(m, e.m) && e.m.PC() == m.PC()
  {
    var d := m.dmem;
    if k == IN then Advance(m.(dmem := Put(d, i, Get(d, a1 + 0x20))))
    else if k == OUT then Advance(m.(dmem := Put(d, a0 + 0x20, a1)))
    else if k == CBI then Advance(m.(dmem := Put(d, a0 + 0x20, JsAnd(Get(d, a0 + 0x20), 0xff - Shl1(a1)))))
    else Advance(m.(dmem := Put(d, a0 + 0x20, JsOr(Get(d, a0 + 0x20), Shl1(a1)))))
  }

  /** The groups of the big switch's cases. */
  datatype Case =
    | ArithmeticCase | LogicCase | UnaryCase | ShiftCase | MoveCase | StatusCase | BranchCase
    | StackCase | SkipCase | LoadCase | StoreCase | ProgramLoadCase | ExchangeCase | InOutCase | NopCase

  /** The group whose case handles mnemonic `k`; `NOP` (and nothing else) has no work. */
  function CaseOf(k: Mnemonic): (c: Case)
    ensures c == ArithmeticCase <==> k in {ADC, ADD, SUB, SUBI, SBC, SBCI, CP, CPC, CPI}
    ensures c == LogicCase <==> k in {AND, ANDI, OR, ORI, SBR, EOR, CBR, TST}
    ensures c == UnaryCase <==> k in {CLR, SER, COM, NEG, INC, DEC, SWAP}
    ensures c == ShiftCase <==> k in {ASR, LSL, LSR, ROL, ROR}
    ensures c == MoveCase <==> k in {ADIW, SBIW, MOVW, MOV, LDI, MUL, MULS, MULSU}
    ensures c == StatusCase <==> k in {BCLR, BSET, BST, BLD, CLC, CLZ, CLN, CLV, CLS, CLH, CLT, CLI,
                                       SEC, SEZ, SEN, SEV, SES, SEH, SET, SEI}
    ensures c == BranchCase <==> BRBC <= k <= BRVS || k in {JMP, RJMP, IJMP}
    ensures c == StackCase <==> k in {CALL, ICALL, RCALL, RET, PUSH, POP}
    ensures c == SkipCase <==> k in {CPSE, SBRC, SBRS}
    ensures c == LoadCase <==> k in {LD, LDD, LDS}
    ensures c == StoreCase <==> k in {ST, STD, STS}
    ensures c == ProgramLoadCase <==> k == LPM
    ensures c == ExchangeCase <==> k == XCH
    ensures c == InOutCase <==> k in {IN, OUT, CBI, SBI}
  {
    if k in {ADC, ADD, SUB, SUBI, SBC, SBCI, CP, CPC, CPI} then ArithmeticCase
    else if k in {AND, ANDI, OR, ORI, SBR, EOR, CBR, TST} then LogicCase
    else if k in {CLR, SER, COM, NEG, INC, DEC, SWAP} then UnaryCase
    else if k in {ASR, LSL, LSR, ROL, ROR} then ShiftCase
    else if k in {ADIW, SBIW, MOVW, MOV, LDI, MUL, MULS, MULSU} then MoveCase
    else if k in {BCLR, BSET, BST, BLD, CLC, CLZ, CLN, CLV, CLS, CLH, CLT, CLI,
                  SEC, SEZ, SEN, SEV, SES, SEH, SET, SEI} then StatusCase
    else if BRBC <= k <= BRVS || k in {JMP, RJMP, IJMP} then BranchCase
    else if k in {CALL, ICALL, RCALL, RET, PUSH, POP} then StackCase
    else if k in {CPSE, SBRC, SBRS} then SkipCase
    else if k in {LD, LDD, LDS} then LoadCase
    else if k in {ST, STD, STS} then StoreCase
    else if k == LPM then ProgramLoadCase
    else if k == XCH then ExchangeCase
    else if k in {IN, OUT, CBI, SBI} then InOutCase
    else NopCase
  }

  /** One case of the big switch, chosen by the mnemonic; `NOP` does nothing. */
  function Execute(m: Machine, ins: Instr): (e: Effect)
    ensures Framed(m, e.m)
    ensures e.Halt? ==> e.m == m && ins.m == RET
    ensures e.Fault? ==> ins.m in {LPM, ADIW, SBIW, MOVW} && e.kind in {LpmFault, RegisterFault}
    ensures e.Raise? ==> e.kind in {BadStackCall, BadStackRet, StackOverflowPush, BadStackPop, IllegalZ}
  {
    var k, d := ins.m, m.dmem;
    var a0, a1, i0 := Arg(d, ins, 0), Arg(d, ins, 1), Index(ins, 0);
    match CaseOf(k)
    case ArithmeticCase => Arithmetic(m, k, a0, a1, i0)
    case LogicCase => Logic(m, k, a0, a1, i0)
    case UnaryCase => Unary(m, k, a0, i0)
    case ShiftCase => Shift(m, k, a0, i0)
    case MoveCase => Move(m, k, a0, a1, i0, Index(ins, 1))
    case StatusCase => StatusOp(m, k, a0, a1, i0)
    case BranchCase => Branch(m, k, a0)
    case StackCase => Stack(m, ins)
    case SkipCase => Skip(m, k, a0, a1)
    case LoadCase => Load(m, k, i0, Text(ins, 1), a1)
    case StoreCase => Store(m, k, Text(ins, 0), a0, a1)
    case ProgramLoadCase => ProgramLoad(m, ins)
    case ExchangeCase => Exchange(m, a1, Index(ins, 1))
    case InOutCase => InOut(m, k, a0, a1, i0)
    case NopCase => Advance(m)
  }

  // ---------------------------------------------------------------------------
  // step and run

  /** A machine after a step, with the step's outcome (`Fail` is the exception it ends with). */
  datatype Stepped = Stepped(m: Machine, outcome: Outcome)

  /** The end of every step that gets past its case: the step count goes up, and past a
      million steps the run stops with an error. */
  function Count(m: Machine): (r: Stepped)
    ensures r.m == m.(steps := m.steps + 1, finished := r.m.finished)
    ensures r.outcome.Pass? <==> m.steps + 1 <= STEP_LIMIT
    ensures r.outcome.Pass? ==> r.m.finished == m.finished
    ensures r.outcome.Fail? ==> r.m.finished && r.outcome.error.kind == StepLimit
  {
    var n := m.steps + 1;
    if n > STEP_LIMIT then Stepped(m.(steps := n, finished := true), Fail(Error(StepLimit, 0)))
    else Stepped(m.(steps := n), Pass)
  }

  /** What follows a case: the increment unless it was skipped, then the count; an error
      cites the line of the instruction that raised it. */
  function Settle(m: Machine, e: Effect): (r: Stepped)
    ensures r.m.pmem == e.m.pmem && r.m.lines == e.m.lines && r.m.ramend == e.m.ramend
    ensures r.m.steps == e.m.steps + (if e.Advance? || e.Jump? then 1 else 0)
    ensures r.outcome.Pass? ==> (e.Advance? || e.Jump? || e.Halt?) && (e.Halt? || r.m.steps <= STEP_LIMIT)
    ensures r.outcome.Pass? && (e.Advance? || e.Jump?) ==> r.m.finished == e.m.finished
    ensures r.outcome.Fail? ==> (r.m.finished <==> !e.Fault? || e.m.finished)
    ensures r.outcome.Fail? ==> r.outcome.error.kind == (if e.Raise? || e.Fault? then e.kind else StepLimit)
  {
    match e
    case Advance(m1) => Count(m1.IncPC())
    case Jump(m1) => Count(m1)
    case Halt(m1) => Stepped(m1.(finished := true), Pass)
    case Raise(m1, k) => Stepped(m1.(finished := true), Fail(Error(k, m.Line())))
    case Fault(m1, k) => Stepped(m1, Fail(Error(k, m.Line())))
  }

  /** `Interpreter.step()`: nothing once the run is over; the end of the run once the
      program counter reaches `flashend`; otherwise the instruction in the current slot. A
      continuation slot holds `null`, and fetching from it is a `TypeError`. */
  function Next(m: Machine): (r: Stepped)
    ensures m.finished ==> r == Stepped(m, Pass)
    ensures r.m.pmem == m.pmem && r.m.lines == m.lines && r.m.ramend == m.ramend
    ensures !m.finished && r.outcome.Pass? && !r.m.finished ==> r.m.steps == m.steps + 1 <= STEP_LIMIT
    ensures r.m.steps == m.steps || r.m.steps == m.steps + 1
    ensures r.outcome.Fail? ==> (r.m.finished <==> r.outcome.error.kind !in {ContinuationFetch, LpmFault, RegisterFault})
    ensures r.outcome.Fail? && !r.m.finished ==> r.m.finished == m.finished
  {
    if m.finished then Stepped(m, Pass)
    else if m.PC() >= m.Flashend() then Stepped(m.(finished := true).WithPC(m.Flashend()), Pass)
    else match m.pmem[m.PC()]
      case None => Stepped(m, Fail(Error(ContinuationFetch, m.Line())))
      case Some(ins) => Settle(m, Execute(m, ins))
  }

  /** A measure that every step of a run that goes on lowers: the steps left before the
      guard. */
  function Fuel(m: Machine): nat {
    if m.finished then 0 else if m.steps >= STEP_LIMIT then 1 else STEP_LIMIT + 1 - m.steps
  }

  /** `Interpreter.run()`: steps until the run is over or a step throws. It always ends:
      the step guard stops any run after a million steps. */
  function Run(m: Machine): (r: Stepped)
    ensures r.outcome.Pass? ==> r.m.finished
    ensures r.m.pmem == m.pmem && r.m.lines == m.lines && r.m.ramend == m.ramend
    ensures m.steps <= STEP_LIMIT ==> r.m.steps <= STEP_LIMIT + 1
    decreases Fuel(m)
  {
    if m.finished then Stepped(m, Pass)
    else
      var s := Next(m);
      if s.outcome.Fail? then s else Run(s.m)
  }

  /** The parser's data memory grown with zero cells to the full size. */
  function Grown(dmem: seq<Byte>): (d: Memory)
    requires |dmem| <= MEM_SIZE
    ensures d[..|dmem|] == dmem && forall i :: |dmem| <= i < MEM_SIZE ==> d[i] == 0
  {
    dmem + seq(MEM_SIZE - |dmem|, i => 0)
  }

  /** `Interpreter.newData(pmem, dmem, line_numbers)`: data memory grown with zero cells,
      the program counter taken from cells 0x5B (low byte) and 0x5C (high byte), which are
      then cleared, `ramend` the last cell the parser made and the stack pointer set to it. */
  function Reset(pmem: seq<Option<Instr>>, dmem: seq<Byte>, lines: seq<int>): (m: Machine)
    requires SREG < |dmem| <= MEM_SIZE
    ensures m.PC() == dmem[ENTRY_HI] as int * 256 + dmem[ENTRY_LO]
    ensures m.ramend == |dmem| - 1 && m.SP() == (|dmem| - 1) % 0x10000 && m.Flashend() == |pmem| - 1
    ensures m.dmem[ENTRY_LO] == 0 && m.dmem[ENTRY_HI] == 0
    ensures forall i :: 0 <= i < |dmem| && i != ENTRY_LO && i != ENTRY_HI && i != SPL && i != SPH ==> m.dmem[i] == dmem[i]
    ensures forall i :: |dmem| <= i < MEM_SIZE ==> m.dmem[i] == 0
    ensures m.pmem == pmem && m.lines == lines && m.steps == 0 && !m.finished
  {
    var start := Machine(pmem, lines, Put(Put(Grown(dmem), ENTRY_LO, 0), ENTRY_HI, 0), 0, 0, |dmem| - 1, 0, false);
    start.WithPC(dmem[ENTRY_HI] as int * 256 + dmem[ENTRY_LO]).WithSP(|dmem| - 1)
  }
}
