/** What the interpreter's instructions mean: the flag formulas of the additions and
    subtractions against the arithmetic they encode, the round trips of the stack
    instructions, and the facts about a step and a run the simulator relies on. */
module Behaviour {
  import opened Base
  import opened Tokens
  import opened Isa
  import opened Resolve
  import opened Execution

  /** A byte read as a two's-complement number. */
  function Signed(x: Byte): int { if x >= 128 then x - 256 else x }

  /** Bit 7 of a byte: the byte reaches 128. */
  lemma Bit7(x: Byte)
    ensures Bit(x, 7) == (x >= 128)
  {
    Pow2Small();
  }

  /** Bit 3 of a byte: its low nibble reaches 8. */
  lemma Bit3(x: Byte)
    ensures Bit(x, 3) == (x % 16 >= 8)
  {
    Pow2Small();
    assert x / 8 == 2 * (x / 16) + (x % 16) / 8;
  }

  /** The carry and overflow formulas of an addition, on the sign bits. */
  lemma AddCarry(rd: Byte, rr: Byte, c: int)
    requires 0 <= c <= 1
    ensures var r := Low(rd + rr + c);
            var d7, r7, s7 := rd >= 128, rr >= 128, r >= 128;
            && ((d7 && r7) || (r7 && !s7) || (d7 && !s7)) == (rd + rr + c >= 256)
            && ((d7 && r7 && !s7) || (!d7 && !r7 && s7)) == !(-128 <= Signed(rd) + Signed(rr) + c < 128)
  {
  }

  /** The half-carry formula of an addition, on the nibble bits. */
  lemma AddHalf(rd: Byte, rr: Byte, c: int)
    requires 0 <= c <= 1
    ensures var r := Low(rd + rr + c);
            var d3, r3, s3 := rd % 16 >= 8, rr % 16 >= 8, r % 16 >= 8;
            ((d3 && r3) || (r3 && !s3) || (d3 && !s3)) == (rd % 16 + rr % 16 + c >= 16)
  {
    var p, q := rd % 16, rr % 16;
    LowNibble(rd + rr + c, 16 * (rd / 16 + rr / 16), p + q + c);
    NibbleCarry(p, q, c);
  }

  /** The low nibble of a byte result depends only on the low nibbles of what made it. */
  lemma LowNibble(x: int, hi: int, lo: int)
    requires x == hi + lo && hi % 16 == 0
    ensures Low(x) % 16 == lo % 16
  {
    var a := x / 256;
    assert x == 256 * a + Low(x);
    var b := hi / 16;
    assert Low(x) == 16 * (b - 16 * a) + lo;
  }

  /** The carry out of bit 3 of a nibble sum, on the nibbles' top bits. */
  lemma NibbleCarry(p: int, q: int, c: int)
    requires 0 <= p < 16 && 0 <= q < 16 && 0 <= c <= 1
    ensures var s := (p + q + c) % 16;
            ((p >= 8 && q >= 8) || (q >= 8 && s < 8) || (p >= 8 && s < 8)) == (p + q + c >= 16)
  {
    var t := p + q + c;
    assert t % 16 == (if t >= 16 then t - 16 else t);
  }

  /** The borrow into bit 3 of a nibble difference, on the nibbles' top bits. */
  lemma NibbleBorrow(p: int, q: int, c: int)
    requires 0 <= p < 16 && 0 <= q < 16 && 0 <= c <= 1
    ensures var s := (p - q - c) % 16;
            ((s >= 8 && q >= 8) || (q >= 8 && p < 8) || (s >= 8 && p < 8)) == (p < q + c)
  {
    var t := p - q - c;
    assert t % 16 == (if t < 0 then t + 16 else t);
  }

  /** The borrow and overflow formulas of a subtraction, on the sign bits. */
  lemma SubBorrow(rd: Byte, rr: Byte, c: int)
    requires 0 <= c <= 1
    ensures var r := Low(rd - rr - c);
            var d7, r7, s7 := rd >= 128, rr >= 128, r >= 128;
            && ((s7 && r7) || (r7 && !d7) || (s7 && !d7)) == (rd < rr + c)
            && ((s7 && r7 && !d7) || (!s7 && !r7 && d7)) == !(-128 <= Signed(rd) - Signed(rr) - c < 128)
  {
  }

  /** The half-borrow formula of a subtraction, on the nibble bits. */
  lemma SubHalf(rd: Byte, rr: Byte, c: int)
    requires 0 <= c <= 1
    ensures var r := Low(rd - rr - c);
            var d3, r3, s3 := rd % 16 >= 8, rr % 16 >= 8, r % 16 >= 8;
            ((s3 && r3) || (r3 && !d3) || (s3 && !d3)) == (rd % 16 < rr % 16 + c)
  {
    var p, q := rd % 16, rr % 16;
    LowNibble(rd - rr - c, 16 * (rd / 16 - rr / 16), p - q - c);
    NibbleBorrow(p, q, c);
  }

  /** The flags `ADD` and `ADC` compute are the carries and the overflow of the sum. */
  lemma AddFlagsMeaning(rd: Byte, rr: Byte, c: int)
    requires 0 <= c <= 1
    ensures var r := Low(rd + rr + c);
            var f := AddFlags(rd, rr, r);
            && f.c == Some(rd + rr + c >= 256)
            && f.h == Some(rd % 16 + rr % 16 + c >= 16)
            && f.v == Some(!(-128 <= Signed(rd) + Signed(rr) + c < 128))
            && f.n == Some(r >= 128) && f.z == Some(r == 0)
            && f.s == Some(Signed(rd) + Signed(rr) + c < 0)
  {
    var r := Low(rd + rr + c);
    Bit7(rd); Bit7(rr); Bit7(r); Bit3(rd); Bit3(rr); Bit3(r);
    AddCarry(rd, rr, c); AddHalf(rd, rr, c);
  }

  /** The flags of the subtractions are the borrows and the overflow of the difference. */
  lemma SubFlagsMeaning(rd: Byte, rr: Byte, c: int, z: bool)
    requires 0 <= c <= 1
    ensures var r := Low(rd - rr - c);
            var f := SubFlags(rd, rr, r, z);
            && f.c == Some(rd < rr + c)
            && f.h == Some(rd % 16 < rr % 16 + c)
            && f.v == Some(!(-128 <= Signed(rd) - Signed(rr) - c < 128))
            && f.n == Some(r >= 128) && f.z == Some(z)
            && f.s == Some(Signed(rd) - Signed(rr) - c < 0)
  {
    var r := Low(rd - rr - c);
    Bit7(rd); Bit7(rr); Bit7(r); Bit3(rd); Bit3(rr); Bit3(r);
    SubBorrow(rd, rr, c); SubHalf(rd, rr, c);
  }

  // ---------------------------------------------------------------------------
  // instructions on registers

  /** One of the 32 general-purpose registers. */
  predicate IsRegister(n: int) { 0 <= n < 32 }

  /** Status flag `k` (C is 0, Z 1, N 2, V 3, S 4, H 5, T 6, I 7). */
  predicate Flag(d: Memory, k: nat)
    requires k < 8
  {
    Bit(d[SREG], k)
  }

  /** The carry the additions and subtractions read: `ADC`, `SBC`, `SBCI` and `CPC` take
      the old `C`, the others none; `SBC`, `SBCI` and `CPC` keep a clear `Z`, and the
      comparisons write no register. */
  lemma ArithmeticCarry(m: Machine, k: Mnemonic, rd: int, rr: int, i: int)
    requires k in {ADC, ADD, SUB, SUBI, SBC, SBCI, CP, CPC, CPI}
    ensures var carry := k in {ADC, SBC, SBCI, CPC};
            var c := if carry && Flag(m.dmem, 0) then 1 else 0;
            Arithmetic(m, k, rd, rr, i).m ==
              if k in {ADD, ADC} then AddInto(m, i, rd, rr, c)
              else SubInto(m, i, rd, rr, c, k !in {CP, CPC, CPI}, carry)
  {
  }

  /** The status register an addition leaves, bit by bit. */
  lemma AddStatus(x: Byte, rd: Byte, rr: Byte, c: int)
    requires 0 <= c <= 1
    ensures var s := UpdateSREG(x, AddFlags(rd, rr, Low(rd + rr + c)));
            && Bit(s, 0) == (rd + rr + c >= 256) && Bit(s, 1) == ((rd + rr + c) % 256 == 0)
            && Bit(s, 2) == ((rd + rr + c) % 256 >= 128) && Bit(s, 3) == !(-128 <= Signed(rd) + Signed(rr) + c < 128)
            && Bit(s, 4) == (Signed(rd) + Signed(rr) + c < 0) && Bit(s, 5) == (rd % 16 + rr % 16 + c >= 16)
            && Bit(s, 6) == Bit(x, 6) && Bit(s, 7) == Bit(x, 7)
  {
    AddFlagsMeaning(rd, rr, c);
  }

  /** An addition into register `i` writes the sum modulo 256 there and changes no cell but
      that register and `SREG`. */
  lemma AddResult(m: Machine, i: int, rd: Byte, rr: Byte, c: int)
    requires 0 <= c <= 1 && IsRegister(i)
    ensures var n := AddInto(m, i, rd, rr, c).dmem;
            && n[i] == (rd + rr + c) % 256
            && forall j :: 0 <= j < MEM_SIZE && j != i && j != SREG ==> n[j] == m.dmem[j]
  {
    var r := Low(rd + rr + c);
    assert AddInto(m, i, rd, rr, c).dmem == WithFlags(Put(m.dmem, i, r), AddFlags(rd, rr, r));
    WrittenFlagged(m.dmem, i, r, AddFlags(rd, rr, r));
  }

  /** A result written to register `i`, then the flags: the register holds the result and
      no cell but the register and `SREG` changes. */
  lemma WrittenFlagged(d: Memory, i: int, r: Byte, f: Flags)
    requires IsRegister(i)
    ensures var n := WithFlags(Put(d, i, r), f);
            n[i] == r && forall j :: 0 <= j < MEM_SIZE && j != i && j != SREG ==> n[j] == d[j]
  {
    var d1 := Put(d, i, r);
    assert d1[i] == r;
  }

  /** The flags of an addition with carry-in `c`: `C` is the carry out of bit 7, `Z` a zero
      sum, `N` its bit 7, `V` the signed overflow, `S` the sign of the true signed sum, `H`
      the carry out of bit 3; `T` and `I` stay. */
  lemma AddSum(m: Machine, i: int, rd: Byte, rr: Byte, c: int)
    requires 0 <= c <= 1 && IsRegister(i)
    ensures var n := AddInto(m, i, rd, rr, c).dmem;
            && Flag(n, 0) == (rd + rr + c >= 256) && Flag(n, 1) == ((rd + rr + c) % 256 == 0)
            && Flag(n, 2) == ((rd + rr + c) % 256 >= 128) && Flag(n, 3) == !(-128 <= Signed(rd) + Signed(rr) + c < 128)
            && Flag(n, 4) == (Signed(rd) + Signed(rr) + c < 0) && Flag(n, 5) == (rd % 16 + rr % 16 + c >= 16)
            && Flag(n, 6) == Flag(m.dmem, 6) && Flag(n, 7) == Flag(m.dmem, 7)
  {
    var r := Low(rd + rr + c);
    var d1 := Put(m.dmem, i, r);
    assert d1[SREG] == m.dmem[SREG];
    assert AddInto(m, i, rd, rr, c).dmem[SREG] == UpdateSREG(m.dmem[SREG], AddFlags(rd, rr, r));
    AddStatus(m.dmem[SREG], rd, rr, c);
  }

  /** `ADD` of 0xFF and 1 wraps to 0 and sets `C`, `H` and `Z`. */
  lemma AddWraps(m: Machine, i: int)
    requires IsRegister(i)
    ensures var n := Arithmetic(m, ADD, 0xFF, 1, i).m.dmem;
            n[i] == 0 && Flag(n, 0) && Flag(n, 5) && Flag(n, 1)
  {
    ArithmeticCarry(m, ADD, 0xFF, 1, i);
    AddResult(m, i, 0xFF, 1, 0);
    AddSum(m, i, 0xFF, 1, 0);
  }

  /** The status register a subtraction leaves, bit by bit; `z` is the zero flag. */
  lemma SubStatus(x: Byte, rd: Byte, rr: Byte, c: int, z: bool)
    requires 0 <= c <= 1
    ensures var s := UpdateSREG(x, SubFlags(rd, rr, Low(rd - rr - c), z));
            && Bit(s, 0) == (rd < rr + c) && Bit(s, 1) == z
            && Bit(s, 2) == ((rd - rr - c) % 256 >= 128) && Bit(s, 3) == !(-128 <= Signed(rd) - Signed(rr) - c < 128)
            && Bit(s, 4) == (Signed(rd) - Signed(rr) - c < 0) && Bit(s, 5) == (rd % 16 < rr % 16 + c)
            && Bit(s, 6) == Bit(x, 6) && Bit(s, 7) == Bit(x, 7)
  {
    SubFlagsMeaning(rd, rr, c, z);
  }

  /** A subtraction into register `i` writes the difference modulo 256 there when `write`
      holds and leaves it otherwise; no cell but that register and `SREG` changes. */
  lemma SubResult(m: Machine, i: int, rd: Byte, rr: Byte, c: int, write: bool, keepZ: bool)
    requires 0 <= c <= 1 && IsRegister(i)
    ensures var n := SubInto(m, i, rd, rr, c, write, keepZ).dmem;
            && n[i] == (if write then (rd - rr - c) % 256 else m.dmem[i])
            && forall j :: 0 <= j < MEM_SIZE && j != i && j != SREG ==> n[j] == m.dmem[j]
  {
    var r := Low(rd - rr - c);
    var d1 := if write then Put(m.dmem, i, r) else m.dmem;
    var z := r == 0 && (!keepZ || Bit(d1[SREG], 1));
    assert SubInto(m, i, rd, rr, c, write, keepZ).dmem == WithFlags(d1, SubFlags(rd, rr, r, z));
    SmallInt32(r);
    assert d1[i] == (if write then r else m.dmem[i]);
  }

  /** The flags of a subtraction with borrow-in `c`: `C` is the borrow, `H` the borrow out
      of bit 3, `V` the signed overflow, `N` bit 7 of the difference, `S` the sign of the true
      signed difference; `Z` is a zero difference, which with `keepZ` also needs the old
      `Z`; `T` and `I` stay. */
  lemma SubDifference(m: Machine, i: int, rd: Byte, rr: Byte, c: int, write: bool, keepZ: bool)
    requires 0 <= c <= 1 && IsRegister(i)
    ensures var r := (rd - rr - c) % 256;
            var n := SubInto(m, i, rd, rr, c, write, keepZ).dmem;
            && Flag(n, 0) == (rd < rr + c) && Flag(n, 1) == (r == 0 && (!keepZ || Flag(m.dmem, 1)))
            && Flag(n, 2) == (r >= 128) && Flag(n, 3) == !(-128 <= Signed(rd) - Signed(rr) - c < 128)
            && Flag(n, 4) == (Signed(rd) - Signed(rr) - c < 0) && Flag(n, 5) == (rd % 16 < rr % 16 + c)
            && Flag(n, 6) == Flag(m.dmem, 6) && Flag(n, 7) == Flag(m.dmem, 7)
  {
    var r := Low(rd - rr - c);
    var d1 := if write then Put(m.dmem, i, r) else m.dmem;
    assert d1[SREG] == m.dmem[SREG];
    var z := r == 0 && (!keepZ || Bit(m.dmem[SREG], 1));
    assert SubInto(m, i, rd, rr, c, write, keepZ).dmem[SREG] == UpdateSREG(m.dmem[SREG], SubFlags(rd, rr, r, z));
    SubStatus(m.dmem[SREG], rd, rr, c, z);
  }

  /** The status register `INC` and `DEC` leave, bit by bit: `V` is an overflow into 0x80
      (`INC` of 0x7F) or out of it (`DEC` of 0x80); `C`, `H`, `T` and `I` stay. */
  lemma StepStatus(x: Byte, rd: Byte, up: bool)
    ensures var r := if up then Low(rd + 1) else Low(rd - 1);
            var s := UpdateSREG(x, ShiftFlags(r, r == (if up then 128 else 127), None));
            && Bit(s, 3) == (if up then rd == 0x7F else rd == 0x80)
            && Bit(s, 2) == (r >= 128) && Bit(s, 1) == (r == 0) && Bit(s, 4) == (Bit(s, 2) != Bit(s, 3))
            && Bit(s, 0) == Bit(x, 0) && Bit(s, 5) == Bit(x, 5) && Bit(s, 6) == Bit(x, 6) && Bit(s, 7) == Bit(x, 7)
  {
    var r := if up then Low(rd + 1) else Low(rd - 1);
    Bit7(r);
  }

  /** `INC` and `DEC` of register `i`: the register goes up or down by one modulo 256, `V` is
      set exactly when it crosses from 0x7F to 0x80 or back, `N`, `Z` and `S` follow the
      result, and `C`, `H`, `T`, `I` and every other cell stay. */
  lemma IncDec(m: Machine, k: Mnemonic, rd: Byte, i: int)
    requires k in {INC, DEC} && IsRegister(i)
    ensures var r := if k == INC then (rd + 1) % 256 else (rd - 1) % 256;
            var n := Unary(m, k, rd, i).m.dmem;
            && n[i] == r
            && Flag(n, 3) == (if k == INC then rd == 0x7F else rd == 0x80)
            && Flag(n, 2) == (r >= 128) && Flag(n, 1) == (r == 0) && Flag(n, 4) == (Flag(n, 2) != Flag(n, 3))
            && Flag(n, 0) == Flag(m.dmem, 0) && Flag(n, 5) == Flag(m.dmem, 5)
            && Flag(n, 6) == Flag(m.dmem, 6) && Flag(n, 7) == Flag(m.dmem, 7)
            && forall j :: 0 <= j < MEM_SIZE && j != i && j != SREG ==> n[j] == m.dmem[j]
  {
    var r := if k == INC then Low(rd + 1) else Low(rd - 1);
    var d1 := Put(m.dmem, i, r);
    var f := ShiftFlags(r, r == (if k == INC then 128 else 127), None);
    assert Unary(m, k, rd, i).m.dmem == WithFlags(d1, f);
    assert d1[i] == r && d1[SREG] == m.dmem[SREG];
    StepStatus(m.dmem[SREG], rd, k == INC);
  }

  /** `ROL` of register `i` with carry-in `c`: the register doubles modulo 256 plus `c`, and
      `C` takes its old bit 7. `H` is left as it was (the source computes it but passes
      `null`), as are `T` and `I`, and no other cell changes. */
  lemma RotateLeft(m: Machine, rd: Byte, i: int, c: int)
    requires IsRegister(i) && 0 <= c <= 1
    ensures var n := ShiftInto(m, ROL, rd, i, c).dmem;
            && n[i] == (2 * rd) % 256 + c && Flag(n, 0) == (rd >= 128)
            && Flag(n, 5) == Flag(m.dmem, 5) && Flag(n, 6) == Flag(m.dmem, 6) && Flag(n, 7) == Flag(m.dmem, 7)
            && forall j :: 0 <= j < MEM_SIZE && j != i && j != SREG ==> n[j] == m.dmem[j]
  {
    var r := Low(2 * rd as int) + c;
    var f := ShiftFlags(r, Bit(r, 7) != Bit(rd, 7), Some(Bit(rd, 7)));
    assert ShiftInto(m, ROL, rd, i, c).dmem == WithFlags(Put(m.dmem, i, r), f);
    Written(m.dmem, i, r, f);
    Bit7(rd);
  }

  /** `ROR` of register `i` with carry-in `c`: the register halves and `c` becomes its bit 7,
      and `C` takes its old bit 0. */
  lemma RotateRight(m: Machine, rd: Byte, i: int, c: int)
    requires IsRegister(i) && 0 <= c <= 1
    ensures var n := ShiftInto(m, ROR, rd, i, c).dmem;
            n[i] == rd / 2 + 128 * c && Flag(n, 0) == (rd % 2 == 1)
  {
    var r := Low(rd / 2) + 128 * c;
    var f := ShiftFlags(r, Bit(r, 7) != Bit(rd, 0), Some(Bit(rd, 0)));
    assert ShiftInto(m, ROR, rd, i, c).dmem == WithFlags(Put(m.dmem, i, r), f);
    WrittenWithCarry(m.dmem, i, r, f);
  }

  /** A register written, then the flags: the register holds the value and `C` is what the
      flags set it to. */
  lemma WrittenWithCarry(d: Memory, i: int, r: int, f: Flags)
    requires IsRegister(i) && 0 <= r < 256 && f.At(0).Some?
    ensures var n := WithFlags(Put(d, i, r), f);
            n[i] == r && Flag(n, 0) == f.At(0).value
  {
    var d1 := Put(d, i, r);
    assert d1[i] == r;
    assert Merged(d1[SREG], f, 0) == f.At(0).value;
  }

  /** Halving the doubled byte, with its old top bit put back on top, gives the byte; the
      carry shifted in is the low bit. */
  lemma RotateBack(rd: Byte, c: int)
    requires 0 <= c <= 1
    ensures var r := (2 * rd) % 256 + c;
            r < 256 && r / 2 + 128 * (if rd >= 128 then 1 else 0) == rd && (r % 2 == 1) == (c == 1)
  {
    if rd >= 128 {
      assert (2 * rd) % 256 == 2 * rd - 256;
    } else {
      assert (2 * rd) % 256 == 2 * rd;
    }
  }

  /** The shifts read the old carry into the shift proper. */
  lemma ShiftCarry(m: Machine, k: Mnemonic, rd: int, i: int)
    requires k in {ASR, LSL, LSR, ROL, ROR}
    ensures Shift(m, k, rd, i).m == ShiftInto(m, k, rd, i, if Flag(m.dmem, 0) then 1 else 0)
  {
  }

  /** `ROL` then `ROR` of the same register gives back the register and the carry: the bit
      `ROL` shifts out into `C` is the bit `ROR` shifts back in. */
  lemma RotateRoundTrip(m: Machine, i: int)
    requires IsRegister(i)
    ensures var m1 := Shift(m, ROL, m.dmem[i], i).m;
            var m2 := Shift(m1, ROR, m1.dmem[i], i).m;
            m2.dmem[i] == m.dmem[i] && Flag(m2.dmem, 0) == Flag(m.dmem, 0)
  {
    var rd := m.dmem[i];
    var c := if Flag(m.dmem, 0) then 1 else 0;
    ShiftCarry(m, ROL, rd, i);
    RotateLeft(m, rd, i, c);
    var m1 := ShiftInto(m, ROL, rd, i, c);
    var r1 := m1.dmem[i];
    var c1 := if Flag(m1.dmem, 0) then 1 else 0;
    ShiftCarry(m1, ROR, r1, i);
    RotateRight(m1, r1, i, c1);
    RotateBack(rd, c);
  }

  /** The nibble exchange of `SWAP` undoes itself. */
  lemma NibblesBack(rd: Byte)
    ensures var s := (rd % 16) * 16 + (rd % 256) / 16;
            s < 256 && (s % 16) * 16 + (s % 256) / 16 == rd
  {
    var hi, lo := rd / 16, rd % 16;
    var s := (rd % 16) * 16 + (rd % 256) / 16;
    assert s == lo * 16 + hi && s % 16 == hi && s / 16 == lo;
  }

  /** Writing a cell back to what it held undoes an earlier write to it. */
  lemma PutBack(d: Memory, i: int, v: int)
    requires 0 <= i < MEM_SIZE
    ensures Put(Put(d, i, v), i, d[i]) == d
  {
    var n := Put(Put(d, i, v), i, d[i]);
    assert forall j | 0 <= j < MEM_SIZE :: n[j] == d[j];
  }

  /** `SWAP` exchanges the nibbles of the register and touches nothing else. */
  lemma SwapNibbles(m: Machine, rd: int, i: int)
    ensures Unary(m, SWAP, rd, i).m == m.(dmem := Put(m.dmem, i, (rd % 16) * 16 + (rd % 256) / 16))
  {
  }

  /** `SWAP` twice gives back the machine it started from. */
  lemma SwapTwice(m: Machine, i: int)
    requires IsRegister(i)
    ensures var m1 := Unary(m, SWAP, m.dmem[i], i).m;
            Unary(m1, SWAP, m1.dmem[i], i).m == m
  {
    var rd := m.dmem[i];
    var s1 := (rd % 16) * 16 + (rd % 256) / 16;
    NibblesBack(rd);
    SwapNibbles(m, rd, i);
    var m1 := m.(dmem := Put(m.dmem, i, s1));
    assert m1.dmem[i] == s1;
    SwapNibbles(m1, s1, i);
    PutBack(m.dmem, i, s1);
  }

  // ---------------------------------------------------------------------------
  // multiplication and word arithmetic

  /** The multiplications put the product's two bytes in `R1:R0` and set `Z` and `C`. */
  lemma MultiplyInto(m: Machine, op: Mnemonic, rd: int, rr: int, i: int, j: int)
    requires op in {MUL, MULS, MULSU}
    ensures var p := rd * rr;
            Move(m, op, rd, rr, i, j).m ==
              m.(dmem := WithFlags(Put(Put(m.dmem, 0, p), 1, High(p)),
                                   Flags(None, None, None, None, None, None, Some(p == 0), Some(Bit(p, 15)))))
  {
  }

  /** Bit 15 of a 16-bit value: the value reaches 0x8000. */
  lemma Bit15(p: int)
    requires 0 <= p < 0x10000
    ensures Bit(p, 15) == (p >= 0x8000)
  {
    assert Pow2(15) == 0x8000;
  }

  /** `MUL`, `MULS` and `MULSU` of two bytes: `R1:R0` holds the product (the source multiplies
      the unsigned values for all three), `Z` is a zero product, `C` its bit 15; the other
      flags and every other cell stay. */
  lemma MultiplyProduct(m: Machine, op: Mnemonic, rd: Byte, rr: Byte, i: int, j: int)
    requires op in {MUL, MULS, MULSU}
    ensures var n := Move(m, op, rd, rr, i, j).m.dmem;
            && n[1] as int * 256 + n[0] as int == rd as int * rr as int
            && Flag(n, 1) == (rd as int * rr as int == 0) && Flag(n, 0) == (rd as int * rr as int >= 0x8000)
            && (forall b :: 2 <= b < 8 ==> Flag(n, b) == Flag(m.dmem, b))
            && forall c :: 2 <= c < MEM_SIZE && c != SREG ==> n[c] == m.dmem[c]
  {
    var p := rd as int * rr as int;
    ProductBound(rd, rr);
    MultiplyInto(m, op, rd, rr, i, j);
    PairWritten(m.dmem, p);
    Bit15(p);
    ZeroCarrySet(Put(Put(m.dmem, 0, p), 1, High(p)), p == 0, Bit(p, 15));
  }

  lemma ProductBound(a: Byte, b: Byte)
    ensures 0 <= a as int * b as int <= 255 * 255
  {
    assert a as int * b as int <= 255 * b as int;
  }

  /** `R1:R0` takes a 16-bit value; no other cell changes. */
  lemma PairWritten(d: Memory, p: int)
    requires 0 <= p < 0x10000
    ensures var n := Put(Put(d, 0, p), 1, High(p));
            && n[1] as int * 256 + n[0] as int == p
            && forall c :: 2 <= c < MEM_SIZE ==> n[c] == d[c]
  {
    HighLow(p);
    var d1 := Put(d, 0, p);
    assert d1[0] == Low(p);
  }

  /** `Z` and `C` take the given values; the other flags and cells stay. */
  lemma ZeroCarrySet(d: Memory, z: bool, c: bool)
    ensures var n := WithFlags(d, Flags(None, None, None, None, None, None, Some(z), Some(c)));
            && Flag(n, 1) == z && Flag(n, 0) == c
            && (forall b :: 2 <= b < 8 ==> Flag(n, b) == Flag(d, b))
            && forall k :: 0 <= k < MEM_SIZE && k != SREG ==> n[k] == d[k]
  {
  }

  /** A pair of registers read as a word, low byte first. */
  function Word(d: Memory, lo: int): int
    requires 0 <= lo && lo + 1 < MEM_SIZE
  {
    d[lo + 1] as int * 256 + d[lo]
  }

  /** `ADIW` and `SBIW` on the pair `i + 1:i`: the low byte takes the sum or difference and a
      carry or borrow goes into the high byte; the flags are cleared as the source leaves
      them. */
  lemma WordInto(m: Machine, op: Mnemonic, k: int, i: int, j: int)
    requires op in {ADIW, SBIW} && 0 <= i && i + 1 < 256
    ensures Move(m, op, m.dmem[i], k, i, j).Advance?
    ensures var rd := m.dmem[i] as int;
            var r := if op == ADIW then rd + k else rd - k;
            var hi := if op == ADIW && r > 0xff then Put(m.dmem, i + 1, m.dmem[i + 1] as int + 1)
                      else if op == SBIW && r < 0 then Put(m.dmem, i + 1, m.dmem[i + 1] as int - 1)
                      else m.dmem;
            Move(m, op, rd, k, i, j).m ==
              m.(dmem := WithFlags(Put(hi, i, if op == ADIW && r > 0xff then Low(r) else if op == SBIW && r < 0 then r + 0x100 else r),
                                   WordFlags))
  {
  }

  /** The word arithmetic on bytes: adding or subtracting `k` (at most 63) in the low byte
      and carrying into the high byte adds or subtracts it from the word modulo 2^16. */
  lemma WordCarry(lo: Byte, hi: Byte, k: int, up: bool)
    requires 0 <= k <= 63
    ensures var r := if up then lo as int + k else lo as int - k;
            var h := if up && r > 0xff then Low(hi as int + 1) else if !up && r < 0 then Low(hi as int - 1) else hi;
            var l := if up && r > 0xff then Low(r) else if !up && r < 0 then r + 0x100 else r;
            Low(l) == l && h as int * 256 + Low(l) as int == (hi as int * 256 + lo as int + (if up then k else -k)) % 0x10000
  {
  }

  /** The cells `ADIW` and `SBIW` write: the low byte of the pair, and the high byte when
      the low one carries or borrows; nothing else but `SREG`. */
  lemma WordCells(m: Machine, op: Mnemonic, k: int, i: int, j: int)
    requires op in {ADIW, SBIW} && i in {24, 26, 28, 30}
    ensures var n := Move(m, op, m.dmem[i], k, i, j).m.dmem;
            var lo, hi := m.dmem[i], m.dmem[i + 1];
            var up := op == ADIW;
            var r := if up then lo as int + k else lo as int - k;
            && n[i + 1] == (if up && r > 0xff then Low(hi as int + 1) else if !up && r < 0 then Low(hi as int - 1) else hi)
            && n[i] == Low(if up && r > 0xff then Low(r) else if !up && r < 0 then r + 0x100 else r)
            && forall c :: 0 <= c < MEM_SIZE && c != i && c != i + 1 && c != SREG ==> n[c] == m.dmem[c]
  {
    WordInto(m, op, k, i, j);
  }

  /** `ADIW` and `SBIW` add `K` to or subtract it from the register pair modulo 2^16, and
      no cell outside the pair and `SREG` changes. */
  lemma WordArithmetic(m: Machine, op: Mnemonic, k: int, i: int, j: int)
    requires op in {ADIW, SBIW} && i in {24, 26, 28, 30} && 0 <= k <= 63
    ensures var n := Move(m, op, m.dmem[i], k, i, j).m.dmem;
            && Word(n, i) == (Word(m.dmem, i) + (if op == ADIW then k else -k)) % 0x10000
            && forall c :: 0 <= c < MEM_SIZE && c != i && c != i + 1 && c != SREG ==> n[c] == m.dmem[c]
  {
    var n := Move(m, op, m.dmem[i], k, i, j).m.dmem;
    WordCells(m, op, k, i, j);
    WordBytes(m.dmem[i], m.dmem[i + 1], k, op == ADIW, n[i], n[i + 1]);
    assert Word(n, i) == n[i + 1] as int * 256 + n[i] as int;
    assert Word(m.dmem, i) == m.dmem[i + 1] as int * 256 + m.dmem[i] as int;
  }

  /** The two bytes `ADIW` and `SBIW` write make the word plus or minus `k`, modulo 2^16. */
  lemma WordBytes(lo: Byte, hi: Byte, k: int, up: bool, nlo: Byte, nhi: Byte)
    requires 0 <= k <= 63
    requires var r := if up then lo as int + k else lo as int - k;
             && nhi == (if up && r > 0xff then Low(hi as int + 1) else if !up && r < 0 then Low(hi as int - 1) else hi)
             && nlo == Low(if up && r > 0xff then Low(r) else if !up && r < 0 then r + 0x100 else r)
    ensures nhi as int * 256 + nlo as int == (hi as int * 256 + lo as int + (if up then k else -k)) % 0x10000
  {
    WordCarry(lo, hi, k, up);
  }

  /** After `ADIW` and `SBIW` the source's string word leaves `S`, `V`, `N`, `Z` and `C` clear;
      `H`, `T` and `I` stay. */
  lemma WordFlagsCleared(m: Machine, op: Mnemonic, k: int, i: int, j: int)
    requires op in {ADIW, SBIW} && i in {24, 26, 28, 30}
    ensures var n := Move(m, op, m.dmem[i], k, i, j).m.dmem;
            && !Flag(n, 0) && !Flag(n, 1) && !Flag(n, 2) && !Flag(n, 3) && !Flag(n, 4)
            && Flag(n, 5) == Flag(m.dmem, 5) && Flag(n, 6) == Flag(m.dmem, 6) && Flag(n, 7) == Flag(m.dmem, 7)
  {
    WordInto(m, op, k, i, j);
    var lo, hi := m.dmem[i], m.dmem[i + 1];
    var up := op == ADIW;
    var r := if up then lo as int + k else lo as int - k;
    var d0 := if up && r > 0xff then Put(m.dmem, i + 1, hi as int + 1)
              else if !up && r < 0 then Put(m.dmem, i + 1, hi as int - 1)
              else m.dmem;
    var d1 := Put(d0, i, if up && r > 0xff then Low(r) else if !up && r < 0 then r + 0x100 else r);
    assert d1[SREG] == m.dmem[SREG];
    assert Move(m, op, m.dmem[i], k, i, j).m.dmem[SREG] == UpdateSREG(m.dmem[SREG], WordFlags);
  }

  // ---------------------------------------------------------------------------
  // the stack

  /** The stack pointer's two bytes are fixed by its value. */
  lemma SPBytes(m: Machine, n: Machine)
    requires m.SP() == n.SP()
    ensures m.dmem[SPL] == n.dmem[SPL] && m.dmem[SPH] == n.dmem[SPH]
  {
  }

  /** `PUSH` fails exactly when `SP` is at or below 0x100; otherwise `v & 0xff` goes to the
      cell at `SP`, `SP` goes one down and no other cell changes. */
  lemma PushStores(m: Machine, v: int)
    ensures Push(m, v).Raise? <==> m.SP() <= 0x100
    ensures m.SP() > 0x100 ==>
              var n := Push(m, v).m;
              && n.SP() == m.SP() - 1 && n.dmem[m.SP()] == Low(v) && n.PC() == m.PC()
              && forall c :: 0 <= c < MEM_SIZE && c != m.SP() && c != SPL && c != SPH ==> n.dmem[c] == m.dmem[c]
  {
  }

  /** `POP` fails exactly when `SP` is at or above `ramend`; otherwise `SP` goes one up and
      the register takes the cell it then names; no other cell changes. */
  lemma PopLoads(m: Machine, i: int)
    requires IsRegister(i)
    ensures Pop(m, i).Raise? <==> m.SP() >= m.ramend
    ensures m.SP() < m.ramend && m.SP() < 0xFFFF ==>
              var n := Pop(m, i).m;
              && n.SP() == m.SP() + 1 && n.dmem[i] == Fetch(m.dmem, m.SP() + 1) && n.PC() == m.PC()
              && forall c :: 0 <= c < MEM_SIZE && c != i && c != SPL && c != SPH ==> n.dmem[c] == m.dmem[c]
  {
    if m.SP() < m.ramend && m.SP() < 0xFFFF {
      var m1 := m.IncSP();
      var n := Pop(m, i).m;
      assert n == m1.(dmem := Put(m1.dmem, i, Fetch(m1.dmem, m1.SP())));
      assert m1.SP() == m.SP() + 1 && n.SP() == m1.SP();
      assert Fetch(m1.dmem, m1.SP()) == Fetch(m.dmem, m.SP() + 1);
    }
  }

  /** `PUSH` then `POP` moves the byte pushed into the register and restores `SP`; only the
      register and the stack cell differ from before. */
  lemma PushPop(m: Machine, v: int, i: int)
    requires 0x100 < m.SP() <= m.ramend && IsRegister(i)
    ensures var p := Push(m, v);
            var q := Pop(p.m, i);
            && p.Advance? && q.Advance?
            && q.m.dmem[i] == Low(v) && q.m.SP() == m.SP() && q.m.PC() == m.PC()
            && forall c :: 0 <= c < MEM_SIZE && c != i && c != m.SP() ==> q.m.dmem[c] == m.dmem[c]
  {
    var p := Push(m, v).m;
    PushStores(m, v);
    assert p.SP() == m.SP() - 1 && p.dmem[m.SP()] == Low(v);
    PopLoads(p, i);
    var q := Pop(p, i).m;
    SPBytes(q, m);
  }

  /** One push: `v` stored at the cell `SP` names, `SP` one down; the program counter and
      every other cell stay. */
  predicate Pushed(m: Machine, n: Machine, v: int) {
    && n.SP() == m.SP() - 1 && n.dmem[m.SP()] == Low(v)
    && n.pcl == m.pcl && n.pch == m.pch
    && forall c :: 0 <= c < MEM_SIZE && c != m.SP() && c != SPL && c != SPH ==> n.dmem[c] == m.dmem[c]
  }

  /** A push with `SP` above the register file and the I/O space stores the byte and moves
      `SP` one down. */
  lemma PushedByte(m: Machine, v: int)
    requires m.SP() > 0x100
    ensures Pushed(m, PushByte(m, v), v)
  {
    assert (m.SP() - 1) % 0x10000 == m.SP() - 1;
  }

  /** A call's two pushes: the low byte of the program counter at `SP`, the high byte at
      `SP - 1`, `SP` two down; no other cell changes. */
  lemma PushPCStores(m: Machine)
    requires m.SP() > 0x101
    ensures var n := PushPC(m);
            && n.SP() == m.SP() - 2 && n.dmem[m.SP()] == m.pcl && n.dmem[m.SP() - 1] == m.pch
            && n.pcl == m.pcl && n.pch == m.pch
            && forall c :: 0 <= c < MEM_SIZE && c != m.SP() && c != m.SP() - 1 && c != SPL && c != SPH ==> n.dmem[c] == m.dmem[c]
  {
    var m1 := PushByte(m, m.pcl);
    PushedByte(m, m.pcl);
    PushedByte(m1, m1.pch);
    PushedTwice(m, m1, PushByte(m1, m1.pch));
  }

  /** Two pushes in a row, each one cell down and each keeping the other cells. */
  lemma PushedTwice(m: Machine, m1: Machine, n: Machine)
    requires Pushed(m, m1, m.pcl) && Pushed(m1, n, m1.pch) && m.SP() > 0x101
    ensures n.SP() == m.SP() - 2 && n.dmem[m.SP()] == m.pcl && n.dmem[m.SP() - 1] == m.pch
    ensures n.pcl == m.pcl && n.pch == m.pch
    ensures forall c :: 0 <= c < MEM_SIZE && c != m.SP() && c != m.SP() - 1 && c != SPL && c != SPH ==> n.dmem[c] == m.dmem[c]
  {
  }

  /** One pop of a return: `SP` one up, then the cell it names. */
  lemma PopByte(m: Machine)
    requires 0x100 <= m.SP() < 0xFFFF
    ensures var n := m.IncSP();
            && n.SP() == m.SP() + 1 && n.pcl == m.pcl && n.pch == m.pch
            && forall c :: 0 <= c < MEM_SIZE && c != SPL && c != SPH ==> n.dmem[c] == m.dmem[c]
  {
    assert (m.SP() + 1) % 0x10000 == m.SP() + 1;
  }

  /** `RET` with two bytes on the stack pops the high byte of the return address, then the
      low byte, and jumps there; `SP` goes two up and no other cell changes. */
  lemma ReturnPops(m: Machine)
    requires 0x100 <= m.SP() <= m.ramend - 2 && m.SP() < 0xFFFE
    ensures var r := Return(m);
            && r.Jump? && r.m.SP() == m.SP() + 2
            && r.m.PC() == Fetch(m.dmem, m.SP() + 1) as int * 256 + Fetch(m.dmem, m.SP() + 2)
            && forall c :: 0 <= c < MEM_SIZE && c != SPL && c != SPH ==> r.m.dmem[c] == m.dmem[c]
  {
    TwoPops(m);
    var m1 := m.IncSP();
    var m2 := m1.IncSP();
    var pc := Fetch(m1.dmem, m1.SP()) as int * 256 + Fetch(m2.dmem, m2.SP()) as int;
    assert Return(m) == Jump(m2.WithPC(pc));
    PairValue(Fetch(m1.dmem, m1.SP()), Fetch(m2.dmem, m2.SP()));
  }

  /** Two bytes make a 16-bit word, which counting modulo 2^16 keeps. */
  lemma PairValue(hi: Byte, lo: Byte)
    ensures var v := hi as int * 256 + lo as int; 0 <= v < 0x10000 && v % 0x10000 == v
  {
    var v := hi as int * 256 + lo as int;
    assert v <= 255 * 256 + 255;
    DivUnique(v, 0x10000, 0, v);
  }

  /** The two pops of a return: `SP` two up, the cells read are the two above the old `SP`,
      and no other cell changes. */
  lemma TwoPops(m: Machine)
    requires 0x100 <= m.SP() < 0xFFFE
    ensures var m1 := m.IncSP();
            var m2 := m1.IncSP();
            && m2.SP() == m.SP() + 2 && m2.pcl == m.pcl && m2.pch == m.pch
            && Fetch(m1.dmem, m1.SP()) == Fetch(m.dmem, m.SP() + 1)
            && Fetch(m2.dmem, m2.SP()) == Fetch(m.dmem, m.SP() + 2)
            && forall c :: 0 <= c < MEM_SIZE && c != SPL && c != SPH ==> m2.dmem[c] == m.dmem[c]
  {
    PopByte(m);
    PopByte(m.IncSP());
  }

  /** A call with room on the stack: the program counter moves past both words, the return
      address is pushed and the program counter set to the target. */
  lemma CallPushes(m: Machine, t: int)
    requires m.SP() > 0x101
    ensures var m1 := m.IncPC().IncPC();
            && m1.PC() == (m.PC() + 2) % 0x10000 && m1.SP() == m.SP()
            && Call(m, t) == Jump(PushPC(m1).WithPC(t))
  {
    var m0 := m.IncPC();
    assert m0.PC() == (m.PC() + 1) % 0x10000 && m0.dmem == m.dmem;
    WrapStep(m.PC() + 1);
  }

  /** Counting one up modulo 2^16 twice is counting two up. */
  lemma WrapStep(x: int)
    ensures (x % 0x10000 + 1) % 0x10000 == (x + 1) % 0x10000
  {
    var q := x / 0x10000;
    assert x == 0x10000 * q + x % 0x10000;
  }

  /** `CALL` then `RET`: the call jumps to its target with the return address `PC + 2` pushed,
      and the return comes back to that address with `SP` restored; only the two stack cells
      differ from before. */
  lemma CallReturn(m: Machine, t: int)
    requires 0x101 < m.SP() <= m.ramend
    ensures var c := Call(m, t);
            var r := Return(c.m);
            && c.Jump? && c.m.PC() == t % 0x10000 && c.m.SP() == m.SP() - 2
            && r.Jump? && r.m.PC() == (m.PC() + 2) % 0x10000 && r.m.SP() == m.SP()
            && forall j :: 0 <= j < MEM_SIZE && j != m.SP() && j != m.SP() - 1 ==> r.m.dmem[j] == m.dmem[j]
  {
    var m1 := m.IncPC().IncPC();
    CallPushes(m, t);
    PushPCStores(m1);
    var c := PushPC(m1).WithPC(t);
    ReturnPops(c);
    var r := Return(c).m;
    assert r.PC() == m1.pch as int * 256 + m1.pcl;
    SPBytes(r, m);
  }

  /** `RET` with `SP` at `ramend` ends the run and changes nothing else; any other `SP`
      below 0x100 or above `ramend - 2` is an error. */
  lemma ReturnAtTop(m: Machine)
    ensures Return(m).Halt? <==> m.SP() == m.ramend
    ensures Return(m).Raise? <==> m.SP() != m.ramend && (m.SP() < 0x100 || m.SP() > m.ramend - 2)
  {
  }

  // ---------------------------------------------------------------------------
  // skips

  /** `CPSE`, `SBRC` and `SBRS` leave data memory alone and move the program counter once
      more when their condition holds, and once more again when the slot after the next
      instruction is a continuation slot. */
  lemma SkipDistance(m: Machine, k: Mnemonic, rd: int, rr: int)
    requires k in {CPSE, SBRC, SBRS} && m.PC() + 2 < 0x10000
    ensures Skip(m, k, rd, rr).m.dmem == m.dmem
    ensures Skip(m, k, rd, rr).m.PC() ==
              m.PC() + (if !Skips(k, rd, rr) then 0 else if EmptySlot(m, m.PC() + 2) then 2 else 1)
  {
    if Skips(k, rd, rr) {
      var m1 := m.IncPC();
      NextSlot(m);
      NextSlot(m1);
      assert Skip(m, k, rd, rr).m == if EmptySlot(m1, m1.PC() + 1) then m1.IncPC() else m1;
    }
  }

  // ---------------------------------------------------------------------------
  // a step

  /** The increment that follows a case, away from the wrap-around. */
  lemma NextSlot(m: Machine)
    requires m.PC() + 1 < 0x10000
    ensures m.IncPC().PC() == m.PC() + 1 && m.IncPC().dmem == m.dmem
  {
  }

  /** A step through an instruction whose case falls through: the program counter moves on
      by one and the step is counted; within the step guard the run goes on. */
  lemma AdvanceStep(m: Machine, ins: Instr)
    requires !m.finished && m.PC() < m.Flashend() && m.pmem[m.PC()] == Some(ins)
    requires Execute(m, ins).Advance? && m.steps < STEP_LIMIT
    ensures var m1 := Execute(m, ins).m;
            Next(m) == Stepped(m1.IncPC().(steps := m.steps + 1), Pass)
  {
  }

  /** The case of `CPSE`, `SBRC` and `SBRS` reads both operand values. */
  lemma ExecuteSkip(m: Machine, ins: Instr)
    requires ins.m in {CPSE, SBRC, SBRS}
    ensures Execute(m, ins) == Skip(m, ins.m, Arg(m.dmem, ins, 0), Arg(m.dmem, ins, 1))
  {
  }

  /** A step over `CPSE`, `SBRC` or `SBRS` moves the program counter by one when the condition
      fails, by two when it holds, and by three when the instruction skipped takes two words. */
  lemma SkipStep(m: Machine, ins: Instr)
    requires !m.finished && m.PC() < m.Flashend() && m.pmem[m.PC()] == Some(ins)
    requires ins.m in {CPSE, SBRC, SBRS} && m.steps < STEP_LIMIT && m.PC() + 3 < 0x10000
    ensures var r := Next(m);
            && r.outcome.Pass? && !r.m.finished && r.m.dmem == m.dmem
            && r.m.PC() == m.PC() + (if !Skips(ins.m, Arg(m.dmem, ins, 0), Arg(m.dmem, ins, 1)) then 1
                                     else if EmptySlot(m, m.PC() + 2) then 3 else 2)
  {
    var rd, rr := Arg(m.dmem, ins, 0), Arg(m.dmem, ins, 1);
    ExecuteSkip(m, ins);
    SkipDistance(m, ins.m, rd, rr);
    AdvanceStep(m, ins);
    NextSlot(Skip(m, ins.m, rd, rr).m);
  }

  /** `RET` with `SP` at `ramend` ends the run: the step sets `finished` and changes nothing
      else, and every later step changes nothing. */
  lemma ReturnEndsRun(m: Machine, ins: Instr)
    requires !m.finished && m.PC() < m.Flashend() && m.pmem[m.PC()] == Some(ins)
    requires ins.m == RET && m.SP() == m.ramend
    ensures Next(m) == Stepped(m.(finished := true), Pass)
    ensures Next(Next(m).m) == Next(m)
  {
    assert Execute(m, ins) == Return(m);
  }

  /** The step guard: a step that gets past its case when a million steps have been counted
      ends the run with an error. */
  lemma StepGuard(m: Machine, ins: Instr)
    requires !m.finished && m.PC() < m.Flashend() && m.pmem[m.PC()] == Some(ins)
    requires (Execute(m, ins).Advance? || Execute(m, ins).Jump?) && m.steps >= STEP_LIMIT
    ensures Next(m).m.finished && Next(m).outcome == Fail(Error(StepLimit, 0))
  {
  }

  // ---------------------------------------------------------------------------
  // loads and stores

  /** `LDS` reads the cell at the address; a cell of the register file, which holds
      `Register` objects, reads as 0. Only the register changes. */
  lemma LoadDirect(m: Machine, i: int, w: string, a: int)
    requires IsRegister(i)
    ensures var n := Load(m, LDS, i, w, a).m.dmem;
            && n[i] == (if 256 <= a < MEM_SIZE then m.dmem[a] else 0)
            && forall c :: 0 <= c < MEM_SIZE && c != i ==> n[c] == m.dmem[c]
  {
  }

  /** `STS` then `LDS` at the same address above the register file: the register loaded
      holds the byte stored, which also stays in memory; nothing else changes. */
  lemma StoreLoadDirect(m: Machine, a: int, rr: int, i: int, w0: string, w1: string)
    requires 256 <= a < MEM_SIZE && IsRegister(i)
    ensures var s := Store(m, STS, w0, a, rr).m;
            var n := Load(s, LDS, i, w1, a).m.dmem;
            && n[i] == Low(rr) && n[a] == Low(rr)
            && forall c :: 0 <= c < MEM_SIZE && c != i && c != a ==> n[c] == m.dmem[c]
  {
    var s := Store(m, STS, w0, a, rr).m;
    assert s.dmem == Put(m.dmem, a, rr);
    LoadDirect(s, i, w1, a);
  }

  /** A pointer pair away from the wrap-around goes up by one. */
  lemma PointerUp(d: Memory, lo: int)
    requires lo in {XL, YL, ZL} && Pair(d, lo) < 0xFFFF
    ensures Pair(IncPair(d, lo), lo) == Pair(d, lo) + 1
    ensures forall j :: 0 <= j < MEM_SIZE && j != lo && j != lo + 1 ==> IncPair(d, lo)[j] == d[j]
  {
  }

  /** A pointer pair above 0 goes down by one. */
  lemma PointerDown(d: Memory, lo: int)
    requires lo in {XL, YL, ZL} && Pair(d, lo) > 0
    ensures Pair(DecPair(d, lo), lo) == Pair(d, lo) - 1
    ensures forall j :: 0 <= j < MEM_SIZE && j != lo && j != lo + 1 ==> DecPair(d, lo)[j] == d[j]
  {
  }

  /** A pointer pair's two bytes are fixed by its value. */
  lemma PairBytes(d: Memory, e: Memory, lo: int)
    requires lo in {XL, YL, ZL} && Pair(d, lo) == Pair(e, lo)
    ensures d[lo] == e[lo] && d[lo + 1] == e[lo + 1]
  {
  }

  /** `ST X+` stores the register at `X` and moves `X` up by one; nothing else changes. */
  lemma StorePostIncrement(m: Machine, a0: int, rr: int)
    requires 256 <= Pair(m.dmem, XL) < 0xFFFF
    ensures var n := Store(m, ST, "X+", a0, rr).m.dmem;
            && n[Pair(m.dmem, XL)] == Low(rr) && Pair(n, XL) == Pair(m.dmem, XL) + 1
            && forall c :: 0 <= c < MEM_SIZE && c != Pair(m.dmem, XL) && c != XL && c != XL + 1 ==> n[c] == m.dmem[c]
  {
    var x := Pair(m.dmem, XL);
    var d2 := Put(m.dmem, x, rr);
    assert Store(m, ST, "X+", a0, rr).m.dmem == IncPair(d2, XL);
    assert Pair(d2, XL) == x;
    PointerUp(d2, XL);
  }

  /** `LD Rd, -X` moves `X` down by one and loads the cell it then names; nothing else but
      the register changes. */
  lemma LoadPreDecrement(m: Machine, i: int, a1: int)
    requires 256 < Pair(m.dmem, XL) < MEM_SIZE && IsRegister(i) && i != XL && i != XL + 1
    ensures var n := Load(m, LD, i, "-X", a1).m.dmem;
            && n[i] == m.dmem[Pair(m.dmem, XL) - 1] && Pair(n, XL) == Pair(m.dmem, XL) - 1
            && forall c :: 0 <= c < MEM_SIZE && c != i && c != XL && c != XL + 1 ==> n[c] == m.dmem[c]
  {
    var d1 := DecPair(m.dmem, XL);
    PointerDown(m.dmem, XL);
    var x := Pair(d1, XL);
    assert Load(m, LD, i, "-X", a1).m.dmem == Put(d1, i, Fetch(d1, x));
  }

  /** `ST X+, Rr` then `LD Rd, -X`: the register loaded holds the byte stored and `X` is
      back where it was; only the register and the cell at `X` differ from before. */
  lemma StoreLoadPointer(m: Machine, a0: int, rr: int, i: int, a1: int)
    requires 256 <= Pair(m.dmem, XL) < 0xFFFF && IsRegister(i) && i != XL && i != XL + 1
    ensures var s := Store(m, ST, "X+", a0, rr).m;
            var n := Load(s, LD, i, "-X", a1).m.dmem;
            && n[i] == Low(rr) && n[Pair(m.dmem, XL)] == Low(rr)
            && forall c :: 0 <= c < MEM_SIZE && c != i && c != Pair(m.dmem, XL) ==> n[c] == m.dmem[c]
  {
    var s := Store(m, ST, "X+", a0, rr).m;
    StorePostIncrement(m, a0, rr);
    LoadPreDecrement(s, i, a1);
    PairBytes(Load(s, LD, i, "-X", a1).m.dmem, m.dmem, XL);
  }

  /** `XCH Z, Rd` fails exactly when `Z` lies outside 0x100 to 0x8FF; otherwise doing it twice
      puts both the register and the cell back. */
  lemma ExchangeTwice(m: Machine, i: int)
    requires IsRegister(i) && i < ZL
    ensures var e := Exchange(m, m.dmem[i], i);
            && (e.Advance? <==> 0x100 <= Pair(m.dmem, ZL) <= XCH_TOP)
            && (e.Advance? ==> Exchange(e.m, e.m.dmem[i], i).m == m)
  {
    var e := Exchange(m, m.dmem[i], i);
    if e.Advance? {
      var z := Pair(m.dmem, ZL);
      var d1 := Put(Put(m.dmem, z, m.dmem[i]), i, m.dmem[z]);
      assert e.m.dmem == d1;
      assert Pair(d1, ZL) == z;
      var d2 := Put(Put(d1, z, d1[i]), i, d1[z]);
      assert Exchange(e.m, e.m.dmem[i], i).m.dmem == d2;
      assert d2 == m.dmem;
    }
  }

  /** `OUT A, Rr` then `IN Rd, A`: the register reads back the byte written to the port;
      only the register and the port's cell differ from before. */
  lemma OutIn(m: Machine, a: int, v: int, i: int, a1: int, b0: int)
    requires 0 <= a < 64 && IsRegister(i)
    ensures var o := InOut(m, OUT, a, v, i).m;
            var n := InOut(o, IN, b0, a, i).m.dmem;
            && n[i] == Low(v) && n[a + 0x20] == Low(v)
            && forall c :: 0 <= c < MEM_SIZE && c != i && c != a + 0x20 ==> n[c] == m.dmem[c]
  {
  }

  // ---------------------------------------------------------------------------
  // the bitwise operators on bytes

  lemma MulMono(d: nat, n: int)
    requires n >= 1
    ensures d * n >= d
  {
    assert d * n == d + d * (n - 1);
  }

  /** The quotient is fixed by any division with a remainder in range. */
  lemma DivUnique(x: int, d: int, q: int, r: int)
    requires d > 0 && x == d * q + r && 0 <= r < d
    ensures x / d == q
  {
    var q', r' := x / d, x % d;
    assert x == d * q' + r';
    if q > q' {
      assert d * q == d * q' + d * (q - q');
      MulMono(d, q - q');
    } else if q < q' {
      assert d * q' == d * q + d * (q' - q);
      MulMono(d, q' - q);
    }
  }

  /** Dividing by `2 * p` is halving, then dividing by `p`. */
  lemma DivTwice(x: nat, p: nat)
    requires p > 0
    ensures x / (2 * p) == (x / 2) / p
  {
    var q := x / 2;
    var a, t := q / p, q % p;
    assert q == p * a + t;
    assert x == (2 * p) * a + (2 * t + x % 2);
    DivUnique(x, 2 * p, a, 2 * t + x % 2);
  }

  /** Bit `k` of a number is bit `k - 1` of its half. */
  lemma BitOfHalf(x: nat, k: nat)
    requires 0 < k < 32
    ensures Bit(x, k) == Bit(x / 2, k - 1)
  {
    DivTwice(x, Pow2(k - 1));
  }

  /** Zero has no bit set. */
  lemma ZeroBit(k: nat)
    requires k < 32
    ensures !Bit(0, k)
  {
  }

  /** Bit 0 is the parity. */
  lemma LowBit(x: nat)
    ensures Bit(x, 0) == (x % 2 == 1)
  {
    assert Pow2(0) == 1;
  }

  /** `2h + c` with `c` a bit halves to `h` and has parity `c`. */
  lemma HalfAndLow(h: nat, c: nat)
    requires c < 2
    ensures (2 * h + c) / 2 == h && (2 * h + c) % 2 == c
  {
    DivUnique(2 * h + c, 2, h, c);
  }

  /** Bit `k` of `2h + c` (with `c` a bit) is `c` at 0, bit `k - 1` of `h` above. */
  lemma BitOfDouble(h: nat, c: nat, k: nat)
    requires c < 2 && k < 32
    ensures Bit(2 * h + c, k) == if k == 0 then c == 1 else Bit(h, k - 1)
  {
    HalfAndLow(h, c);
    if k == 0 {
      LowBit(2 * h + c);
    } else {
      BitOfHalf(2 * h + c, k);
    }
  }

  /** Bit `k` of `x` is its parity at 0, bit `k - 1` of its half above. */
  lemma BitOfNat(x: nat, k: nat)
    requires k < 32
    ensures Bit(x, k) == if k == 0 then x % 2 == 1 else Bit(x / 2, k - 1)
  {
    if k == 0 {
      LowBit(x);
    } else {
      BitOfHalf(x, k);
    }
  }

  /** Each bit of `a & b` is the conjunction of the operands' bits. */
  lemma {:induction false} AndBitAt(a: nat, b: nat, k: nat)
    requires k < 32
    ensures Bit(AndBits(a, b), k) == (Bit(a, k) && Bit(b, k))
    decreases k
  {
    if a == 0 || b == 0 {
      ZeroBit(k);
    } else {
      BitOfDouble(AndBits(a / 2, b / 2), if a % 2 == 1 && b % 2 == 1 then 1 else 0, k);
      BitOfNat(a, k);
      BitOfNat(b, k);
      if k > 0 {
        AndBitAt(a / 2, b / 2, k - 1);
      }
    }
  }

  /** Each bit of `a | b` is the disjunction of the operands' bits. */
  lemma {:induction false} OrBitAt(a: nat, b: nat, k: nat)
    requires k < 32
    ensures Bit(OrBits(a, b), k) == (Bit(a, k) || Bit(b, k))
    decreases k
  {
    if a == 0 || b == 0 {
      ZeroBit(k);
    } else {
      BitOfDouble(OrBits(a / 2, b / 2), if a % 2 == 1 || b % 2 == 1 then 1 else 0, k);
      BitOfNat(a, k);
      BitOfNat(b, k);
      if k > 0 {
        OrBitAt(a / 2, b / 2, k - 1);
      }
    }
  }

  /** Each bit of `a ^ b` tells whether the operands' bits differ. */
  lemma {:induction false} XorBitAt(a: nat, b: nat, k: nat)
    requires k < 32
    ensures Bit(XorBits(a, b), k) == (Bit(a, k) != Bit(b, k))
    decreases k
  {
    if a == 0 || b == 0 {
      ZeroBit(k);
    } else {
      BitOfDouble(XorBits(a / 2, b / 2), if a % 2 != b % 2 then 1 else 0, k);
      BitOfNat(a, k);
      BitOfNat(b, k);
      if k > 0 {
        XorBitAt(a / 2, b / 2, k - 1);
      }
    }
  }

  /** The three operators keep numbers below `2^w` below `2^w`. */
  lemma {:induction false} BitsBelow(a: nat, b: nat, w: nat)
    requires a < Pow2(w) && b < Pow2(w)
    ensures AndBits(a, b) < Pow2(w) && OrBits(a, b) < Pow2(w) && XorBits(a, b) < Pow2(w)
    decreases w
  {
    if a != 0 && b != 0 {
      assert w > 0;
      BitsBelow(a / 2, b / 2, w - 1);
    }
  }

  /** On two bytes JavaScript's `&`, `|` and `^` are the operators on naturals. */
  lemma ByteOperands(x: Byte, y: Byte)
    ensures JsAnd(x, y) == AndBits(x, y) && JsOr(x, y) == OrBits(x, y) && JsXor(x, y) == XorBits(x, y)
    ensures 0 <= JsAnd(x, y) < 256 && 0 <= JsOr(x, y) < 256 && 0 <= JsXor(x, y) < 256
  {
    assert Pow2(8) == 256 by { Pow2Small(); }
    BitsBelow(x, y, 8);
    SmallInt32(x);
    SmallInt32(y);
    SmallInt32(AndBits(x, y));
    SmallInt32(OrBits(x, y));
    SmallInt32(XorBits(x, y));
  }

  /** `ToInt32` and `Low` keep a byte. */
  lemma SmallInt32(v: int)
    requires 0 <= v < 256
    ensures ToInt32(v) == v && v % U32 == v && Low(v) == v
  {
    DivUnique(v, U32, 0, v);
    DivUnique(v, 256, 0, v);
  }

  /** On two bytes JavaScript's `&`, `|` and `^` give bytes, bit by bit. */
  lemma ByteOperators(x: Byte, y: Byte)
    ensures 0 <= JsAnd(x, y) < 256 && 0 <= JsOr(x, y) < 256 && 0 <= JsXor(x, y) < 256
    ensures forall k :: 0 <= k < 8 ==>
              && Bit(JsAnd(x, y), k) == (Bit(x, k) && Bit(y, k))
              && Bit(JsOr(x, y), k) == (Bit(x, k) || Bit(y, k))
              && Bit(JsXor(x, y), k) == (Bit(x, k) != Bit(y, k))
  {
    ByteOperands(x, y);
    forall k | 0 <= k < 8
      ensures Bit(JsAnd(x, y), k) == (Bit(x, k) && Bit(y, k))
      ensures Bit(JsOr(x, y), k) == (Bit(x, k) || Bit(y, k))
      ensures Bit(JsXor(x, y), k) == (Bit(x, k) != Bit(y, k))
    {
      AndBitAt(x, y, k);
      OrBitAt(x, y, k);
      XorBitAt(x, y, k);
    }
  }

  /** `2^w - 1 - x` flips the low `w` bits of `x`. */
  lemma {:induction false} ComplementBits(x: nat, w: nat, k: nat)
    requires x < Pow2(w) && k < w && k < 32
    ensures Bit(Pow2(w) - 1 - x, k) == !Bit(x, k)
    decreases k
  {
    var h := Pow2(w - 1) - 1 - x / 2;
    assert Pow2(w - 1) * 2 == Pow2(w);
    assert x / 2 < Pow2(w - 1);
    assert Pow2(w) - 1 - x == 2 * h + (1 - x % 2);
    BitOfDouble(h, 1 - x % 2, k);
    BitOfNat(x, k);
    if k > 0 {
      ComplementBits(x / 2, w - 1, k - 1);
    }
  }

  /** `0xff - x` flips every bit of a byte. */
  lemma Complement(x: Byte)
    ensures 0 <= 255 - x < 256 && forall k :: 0 <= k < 8 ==> Bit(255 - x, k) == !Bit(x, k)
  {
    Pow2Small();
    assert Pow2(8) == 256;
    forall k | 0 <= k < 8
      ensures Bit(255 - x, k) == !Bit(x, k)
    {
      ComplementBits(x, 8, k);
    }
  }

  /** `2 ** b` has bit `b` alone. */
  lemma {:induction false} SingleBit(b: nat, k: nat)
    requires k < 32
    ensures Bit(Pow2(b), k) == (k == b)
    decreases k
  {
    if b == 0 {
      BitOfDouble(0, 1, k);
      if k > 0 {
        ZeroBit(k - 1);
      }
    } else {
      assert Pow2(b) == 2 * Pow2(b - 1) + 0;
      BitOfDouble(Pow2(b - 1), 0, k);
      if k > 0 {
        SingleBit(b - 1, k - 1);
      }
    }
  }


  /** `x & (0xff - 2 ** b)` clears bit `b` of a byte and `x | 2 ** b` sets it; the other bits
      stay. */
  lemma ClearSetBit(x: Byte, b: nat)
    requires b < 8
    ensures var c, s := JsAnd(x, 255 - Pow2(b)), JsOr(x, Pow2(b));
            && 0 <= c < 256 && 0 <= s < 256
            && forall k :: 0 <= k < 8 ==> Bit(c, k) == (k != b && Bit(x, k)) && Bit(s, k) == (k == b || Bit(x, k))
  {
    var p := Pow2(b);
    PowerBits(b);
    Complement(p);
    ByteOperators(x, 255 - p);
    ByteOperators(x, p);
  }

  /** `2 ** b` for `b < 8` is a byte with bit `b` alone. */
  lemma PowerBits(b: nat)
    requires b < 8
    ensures Pow2(b) < 256 && forall k :: 0 <= k < 8 ==> Bit(Pow2(b), k) == (k == b)
  {
    Pow2Small();
    forall k | 0 <= k < 8
      ensures Bit(Pow2(b), k) == (k == b)
    {
      SingleBit(b, k);
    }
  }

  // ---------------------------------------------------------------------------
  // logic, clear/set, complement, negate and the shifts

  /** A byte written to register `i`, then a flag update: the register holds the byte,
      each flag is what the update merges into the old status register, and no other cell
      changes. */
  lemma Written(d: Memory, i: int, r: Byte, f: Flags)
    requires IsRegister(i)
    ensures var n := WithFlags(Put(d, i, r), f);
            && n[i] == r
            && (forall b :: 0 <= b < 8 ==> Flag(n, b) == Merged(d[SREG], f, b))
            && forall j :: 0 <= j < MEM_SIZE && j != i && j != SREG ==> n[j] == d[j]
  {
    var d1 := Put(d, i, r);
    assert d1[i] == r && d1[SREG] == d[SREG];
  }

  /** The logic instructions on two bytes write, bit by bit, the conjunction (`AND`, `ANDI`),
      the disjunction (`OR`, `ORI`, `SBR`), the exclusive or (`EOR`) of the operands, or
      `Rd` with the bits of `K` cleared (`CBR`); `TST` writes nothing and tests `Rd`. `V` is
      cleared, `N` and `S` take bit 7 of the result and `Z` tells whether it is zero; `C`,
      `H`, `T` and `I` stay, and no other cell changes. */
  lemma LogicResult(m: Machine, k: Mnemonic, rd: Byte, rr: Byte, i: int)
    requires k in {AND, ANDI, OR, ORI, SBR, EOR, CBR, TST} && IsRegister(i)
    ensures var n := Logic(m, k, rd, rr, i).m.dmem;
            var r := if k == TST then rd else n[i];
            && (k == TST ==> n[i] == m.dmem[i])
            && (forall b :: 0 <= b < 8 ==>
                  Bit(r, b) == (if k in {AND, ANDI} then Bit(rd, b) && Bit(rr, b)
                                else if k in {OR, ORI, SBR} then Bit(rd, b) || Bit(rr, b)
                                else if k == EOR then Bit(rd, b) != Bit(rr, b)
                                else if k == CBR then Bit(rd, b) && !Bit(rr, b)
                                else Bit(rd, b)))
            && !Flag(n, 3) && Flag(n, 2) == (r >= 128) && Flag(n, 4) == (r >= 128) && Flag(n, 1) == (r == 0)
            && Flag(n, 0) == Flag(m.dmem, 0) && Flag(n, 5) == Flag(m.dmem, 5)
            && Flag(n, 6) == Flag(m.dmem, 6) && Flag(n, 7) == Flag(m.dmem, 7)
            && forall c :: 0 <= c < MEM_SIZE && c != i && c != SREG ==> n[c] == m.dmem[c]
  {
    ByteOperators(rd, rr);
    Complement(rr);
    ByteOperators(rd, 255 - rr);
    var r := if k in {AND, ANDI} then JsAnd(rd, rr)
             else if k in {OR, ORI, SBR} then JsOr(rd, rr)
             else if k == EOR then JsXor(rd, rr)
             else if k == CBR then JsAnd(rd, 0xff - rr)
             else rd;
    assert 0 <= r < 256;
    Bit7(r);
    var n := Logic(m, k, rd, rr, i).m.dmem;
    if k == TST {
      assert n == WithFlags(m.dmem, LogicFlags(r));
    } else {
      assert n == WithFlags(Put(m.dmem, i, r), LogicFlags(r));
      Written(m.dmem, i, r, LogicFlags(r));
    }
  }

  /** `CLR` writes 0 and sets `Z` with `S`, `V` and `N` cleared; `SER` writes 0xFF and leaves
      the status register alone. `C`, `H`, `T`, `I` stay and no other cell changes. */
  lemma ClearSet(m: Machine, k: Mnemonic, rd: int, i: int)
    requires k in {CLR, SER} && IsRegister(i)
    ensures var n := Unary(m, k, rd, i).m.dmem;
            && n[i] == (if k == CLR then 0 else 0xff)
            && (k == SER ==> n[SREG] == m.dmem[SREG])
            && (k == CLR ==> Flag(n, 1) && !Flag(n, 2) && !Flag(n, 3) && !Flag(n, 4)
                             && Flag(n, 0) == Flag(m.dmem, 0) && Flag(n, 5) == Flag(m.dmem, 5)
                             && Flag(n, 6) == Flag(m.dmem, 6) && Flag(n, 7) == Flag(m.dmem, 7))
            && forall c :: 0 <= c < MEM_SIZE && c != i && c != SREG ==> n[c] == m.dmem[c]
  {
    if k == CLR {
      Written(m.dmem, i, 0, Flags(None, None, None, Some(false), Some(false), Some(false), Some(true), None));
    } else {
      var d1 := Put(m.dmem, i, 0xff);
      assert d1[i] == 0xff;
    }
  }

  /** `COM` writes the one's complement: every bit of the register flips. `C` is set, `V`
      cleared, `N` and `S` take the new bit 7 and `Z` is set exactly when the register held
      0xFF; `H`, `T` and `I` stay and no other cell changes. */
  lemma ComplementResult(m: Machine, rd: Byte, i: int)
    requires IsRegister(i)
    ensures var n := Unary(m, COM, rd, i).m.dmem;
            && n[i] == 255 - rd && (forall b :: 0 <= b < 8 ==> Bit(n[i], b) == !Bit(rd, b))
            && Flag(n, 0) && !Flag(n, 3) && Flag(n, 2) == (rd < 128) && Flag(n, 4) == (rd < 128)
            && Flag(n, 1) == (rd == 0xff)
            && Flag(n, 5) == Flag(m.dmem, 5) && Flag(n, 6) == Flag(m.dmem, 6) && Flag(n, 7) == Flag(m.dmem, 7)
            && forall c :: 0 <= c < MEM_SIZE && c != i && c != SREG ==> n[c] == m.dmem[c]
  {
    var r := 255 - rd;
    Complement(rd);
    Bit7(r);
    Written(m.dmem, i, r, Flags(None, None, None, Some(Bit(r, 7)), Some(false), Some(Bit(r, 7)), Some(r == 0), Some(true)));
  }

  /** `COM` twice gives back the register. */
  lemma ComplementTwice(m: Machine, i: int)
    requires IsRegister(i)
    ensures var m1 := Unary(m, COM, m.dmem[i], i).m;
            Unary(m1, COM, m1.dmem[i], i).m.dmem[i] == m.dmem[i]
  {
    var m1 := Unary(m, COM, m.dmem[i], i).m;
    ComplementResult(m, m.dmem[i], i);
    ComplementResult(m1, m1.dmem[i], i);
  }

  /** `NEG` writes the two's-complement negation: read as signed bytes the register is
      negated, except 0x80, which stays. `C` is set unless the register was 0, `Z` exactly
      when it was 0, `V` exactly when it was 0x80, `N` is the new bit 7 and `S` is `N ^ V`;
      `T` and `I` stay and no other cell changes. */
  lemma NegateResult(m: Machine, rd: Byte, i: int)
    requires IsRegister(i)
    ensures var n := Unary(m, NEG, rd, i).m.dmem;
            && n[i] == (256 - rd) % 256
            && (rd != 0x80 ==> Signed(n[i]) == -Signed(rd)) && (rd == 0x80 ==> n[i] == 0x80)
            && Flag(n, 0) == (rd != 0) && Flag(n, 1) == (rd == 0) && Flag(n, 3) == (rd == 0x80)
            && Flag(n, 2) == (n[i] >= 128) && Flag(n, 4) == (Flag(n, 2) != Flag(n, 3))
            && Flag(n, 6) == Flag(m.dmem, 6) && Flag(n, 7) == Flag(m.dmem, 7)
            && forall c :: 0 <= c < MEM_SIZE && c != i && c != SREG ==> n[c] == m.dmem[c]
  {
    var r := Low(0 - rd);
    assert r == (256 - rd) % 256;
    Bit7(r);
    var v := r == 128;
    Written(m.dmem, i, r, Flags(None, None, Some(Bit(r, 3) || !Bit(rd, 3)), Some(Bit(r, 7) != v), Some(v),
                                Some(Bit(r, 7)), Some(r == 0), Some(r != 0)));
  }

  /** `NEG` twice gives back the register. */
  lemma NegateTwice(m: Machine, i: int)
    requires IsRegister(i)
    ensures var m1 := Unary(m, NEG, m.dmem[i], i).m;
            Unary(m1, NEG, m1.dmem[i], i).m.dmem[i] == m.dmem[i]
  {
    var m1 := Unary(m, NEG, m.dmem[i], i).m;
    NegateResult(m, m.dmem[i], i);
    NegateResult(m1, m1.dmem[i], i);
  }

  /** `ASR` halves the register read as a signed byte, rounding down, so bit 7 stays; `C`
      takes the old bit 0, `N` the sign and `Z` the zero test; `H`, `T` and `I` stay and no
      other cell changes. */
  lemma ArithmeticShiftRight(m: Machine, rd: Byte, i: int)
    requires IsRegister(i)
    ensures var n := Shift(m, ASR, rd, i).m.dmem;
            && Signed(n[i]) == Signed(rd) / 2 && (n[i] >= 128) == (rd >= 128)
            && Flag(n, 0) == (rd % 2 == 1) && Flag(n, 2) == (rd >= 128) && Flag(n, 1) == (n[i] == 0)
            && Flag(n, 5) == Flag(m.dmem, 5) && Flag(n, 6) == Flag(m.dmem, 6) && Flag(n, 7) == Flag(m.dmem, 7)
            && forall c :: 0 <= c < MEM_SIZE && c != i && c != SREG ==> n[c] == m.dmem[c]
  {
    SignedHalf(rd);
    var half := Low(rd / 2);
    var r := if Bit(half, 6) then half + 128 else half;
    var f := ShiftFlags(r, Bit(r, 7) != Bit(rd, 0), Some(Bit(rd, 0)));
    assert Shift(m, ASR, rd, i).m.dmem == WithFlags(Put(m.dmem, i, r), f);
    Written(m.dmem, i, r, f);
  }

  /** The byte `ASR` writes: the halved byte with bit 7 copied back from bit 6 of the half,
      that is, the signed byte halved and rounded down. */
  lemma SignedHalf(rd: Byte)
    ensures var half := Low(rd / 2);
            var r := if Bit(half, 6) then half + 128 else half;
            && r == rd / 2 + (if rd >= 128 then 128 else 0) && Bit(r, 7) == (rd >= 128)
            && Signed(r) == Signed(rd) / 2 && Bit(rd, 0) == (rd % 2 == 1)
  {
    var half := Low(rd / 2);
    assert half == rd / 2;
    assert Bit(half, 6) == (rd >= 128) by {
      Pow2Small();
      assert half / 64 == (if half >= 64 then 1 else 0);
    }
    var r := if Bit(half, 6) then half + 128 else half;
    Bit7(r);
    assert Bit(rd, 0) == (rd % 2 == 1) by { assert Pow2(0) == 1; }
    if rd >= 128 {
      assert Signed(rd) / 2 == rd / 2 - 128;
    }
  }

  /** `LSL` doubles the register modulo 256; `C` takes the old bit 7, `H` the old bit 3, `N`
      the new bit 7, `V` is `N ^ C` and `Z` the zero test; `T` and `I` stay and no other cell
      changes. */
  lemma ShiftLeft(m: Machine, rd: Byte, i: int)
    requires IsRegister(i)
    ensures var n := Shift(m, LSL, rd, i).m.dmem;
            && n[i] == (2 * rd) % 256
            && Flag(n, 0) == (rd >= 128) && Flag(n, 5) == (rd % 16 >= 8) && Flag(n, 2) == (n[i] >= 128)
            && Flag(n, 3) == (Flag(n, 2) != Flag(n, 0)) && Flag(n, 1) == (n[i] == 0)
            && Flag(n, 6) == Flag(m.dmem, 6) && Flag(n, 7) == Flag(m.dmem, 7)
            && forall c :: 0 <= c < MEM_SIZE && c != i && c != SREG ==> n[c] == m.dmem[c]
  {
    var r := Low(rd + rd);
    Bit7(r);
    Bit7(rd);
    Bit3(rd);
    Written(m.dmem, i, r, ShiftFlags(r, Bit(r, 7) != Bit(rd, 7), Some(Bit(rd, 7))).(h := Some(Bit(rd, 3))));
  }

  /** `LSR` halves the register as an unsigned byte; `C` takes the old bit 0, `N` is
      cleared, `V` and `S` equal `C` and `Z` is the zero test; `H`, `T` and `I` stay and no
      other cell changes. */
  lemma ShiftRight(m: Machine, rd: Byte, i: int)
    requires IsRegister(i)
    ensures var n := Shift(m, LSR, rd, i).m.dmem;
            && n[i] == rd / 2
            && Flag(n, 0) == (rd % 2 == 1) && !Flag(n, 2) && Flag(n, 3) == Flag(n, 0) && Flag(n, 4) == Flag(n, 0)
            && Flag(n, 1) == (rd / 2 == 0)
            && Flag(n, 5) == Flag(m.dmem, 5) && Flag(n, 6) == Flag(m.dmem, 6) && Flag(n, 7) == Flag(m.dmem, 7)
            && forall c :: 0 <= c < MEM_SIZE && c != i && c != SREG ==> n[c] == m.dmem[c]
  {
    var r := Low(rd / 2);
    var c0 := Bit(rd, 0);
    assert c0 == (rd % 2 == 1) by { assert Pow2(0) == 1; }
    var f := Flags(None, None, None, Some(c0), Some(c0), Some(false), Some(r == 0), Some(c0));
    assert Shift(m, LSR, rd, i).m.dmem == WithFlags(Put(m.dmem, i, r), f);
    Written(m.dmem, i, r, f);
  }

  // ---------------------------------------------------------------------------
  // moves

  /** `MOV` and `LDI` put the value, modulo 256, in the register and change nothing else. */
  lemma MoveValue(m: Machine, op: Mnemonic, rd: int, k: int, i: int, j: int)
    requires op in {MOV, LDI} && IsRegister(i)
    ensures var e := Move(m, op, rd, k, i, j);
            && e.Advance? && e.m.dmem[i] == k % 256
            && forall c :: 0 <= c < MEM_SIZE && c != i ==> e.m.dmem[c] == m.dmem[c]
  {
  }

  /** `MOVW Rd, Rr` on register pairs copies `Rr` into `Rd`, then the register above `Rr`
      (as it is after that first copy) into the register above `Rd`; nothing else changes.
      On even pairs, which the operand table asks for, the pair is copied. */
  lemma MoveWord(m: Machine, i: int, j: int)
    requires IsRegister(i) && IsRegister(i + 1) && IsRegister(j) && IsRegister(j + 1)
    ensures var e := Move(m, MOVW, m.dmem[i], m.dmem[j], i, j);
            var d := m.dmem;
            && e.Advance? && e.m.dmem[i] == d[j] && e.m.dmem[i + 1] == (if j + 1 == i then d[j] else d[j + 1])
            && (i % 2 == 0 && j % 2 == 0 ==> e.m.dmem[i + 1] == d[j + 1])
            && forall c :: 0 <= c < MEM_SIZE && c != i && c != i + 1 ==> e.m.dmem[c] == d[c]
  {
    var d1 := Put(m.dmem, i, m.dmem[j]);
    assert d1[i] == m.dmem[j];
  }

  // ---------------------------------------------------------------------------
  // the status-bit instructions

  /** The letters of the eight flags, bit 0 first. */
  const FLAG_LETTERS := "CZNVSHTI"

  /** `SEC` ... `SEI` set and `CLC` ... `CLI` clear one flag, the one `FlagBit` names
      (`FlagName` shows it is the one their name's last letter names); every other flag and
      every other cell stays. */
  lemma FlagInstruction(m: Machine, k: Mnemonic)
    requires k in {CLC, CLZ, CLN, CLV, CLS, CLH, CLT, CLI, SEC, SEZ, SEN, SEV, SES, SEH, SET, SEI}
    ensures var n := StatusOp(m, k, 0, 0, 0).m.dmem;
            var b := FlagBit(k);
            && 0 <= b < 8
            && Flag(n, b) == (k in {SEC, SEZ, SEN, SEV, SES, SEH, SET, SEI})
            && (forall c :: 0 <= c < 8 && c != b ==> Flag(n, c) == Flag(m.dmem, c))
            && forall c :: 0 <= c < MEM_SIZE && c != SREG ==> n[c] == m.dmem[c]
  {
    var b := FlagBit(k);
    assert 0 <= b < 8 && b % 32 == b;
    var x := UpdateSREGBit(m.dmem[SREG], k >= SEC, b);
    assert StatusOp(m, k, 0, 0, 0).m.dmem == m.dmem[SREG := x];
  }

  /** The flag instructions' names: `SE` or `CL`, then the letter of the flag they change. */
  lemma FlagName(k: Mnemonic)
    requires k in {CLC, CLZ, CLN, CLV, CLS, CLH, CLT, CLI, SEC, SEZ, SEN, SEV, SES, SEH, SET, SEI}
    ensures 0 <= FlagBit(k) < 8 && |Name(k)| == 3 && Name(k)[2] == FLAG_LETTERS[FlagBit(k)]
    ensures (Name(k)[..2] == "SE") == (k >= SEC)
  {
    if k == CLC { assert Name(k) == "CLC" && Name(k)[0] == 'C'; }
    else if k == CLZ { assert Name(k) == "CLZ" && Name(k)[0] == 'C'; }
    else if k == CLN { assert Name(k) == "CLN" && Name(k)[0] == 'C'; }
    else if k == CLV { assert Name(k) == "CLV" && Name(k)[0] == 'C'; }
    else if k == CLS { assert Name(k) == "CLS" && Name(k)[0] == 'C'; }
    else if k == CLH { assert Name(k) == "CLH" && Name(k)[0] == 'C'; }
    else if k == CLT { assert Name(k) == "CLT" && Name(k)[0] == 'C'; }
    else if k == CLI { assert Name(k) == "CLI" && Name(k)[0] == 'C'; }
    else if k == SEC { assert Name(k) == "SEC"; }
    else if k == SEZ { assert Name(k) == "SEZ"; }
    else if k == SEN { assert Name(k) == "SEN"; }
    else if k == SEV { assert Name(k) == "SEV"; }
    else if k == SES { assert Name(k) == "SES"; }
    else if k == SEH { assert Name(k) == "SEH"; }
    else if k == SET { assert Name(k) == "SET"; }
    else { assert Name(k) == "SEI"; }
  }

  /** `BSET s` and `BCLR s` set or clear flag `s`; every other flag and every other cell
      stays. */
  lemma BitSetClear(m: Machine, k: Mnemonic, s: int, a1: int, i: int)
    requires k in {BSET, BCLR} && 0 <= s < 8
    ensures var n := StatusOp(m, k, s, a1, i).m.dmem;
            && Flag(n, s) == (k == BSET)
            && (forall c :: 0 <= c < 8 && c != s ==> Flag(n, c) == Flag(m.dmem, c))
            && forall c :: 0 <= c < MEM_SIZE && c != SREG ==> n[c] == m.dmem[c]
  {
    var x := UpdateSREGBit(m.dmem[SREG], k == BSET, s);
    assert s % 32 == s;
    assert StatusOp(m, k, s, a1, i).m.dmem == m.dmem[SREG := x];
  }

  /** `BST Rd, b` copies bit `b` of the register into `T`; `BLD Rd, b` copies `T` into bit
      `b` of the register and keeps its other bits. Each changes nothing else. */
  lemma BitStoreLoad(m: Machine, rd: Byte, b: int, i: int)
    requires 0 <= b < 8 && IsRegister(i)
    ensures var n := StatusOp(m, BST, rd, b, i).m.dmem;
            && Flag(n, 6) == Bit(rd, b)
            && (forall c :: 0 <= c < 8 && c != 6 ==> Flag(n, c) == Flag(m.dmem, c))
            && forall c :: 0 <= c < MEM_SIZE && c != SREG ==> n[c] == m.dmem[c]
    ensures var n := StatusOp(m, BLD, rd, b, i).m.dmem;
            && (forall c :: 0 <= c < 8 ==> Bit(n[i], c) == (if c == b then Flag(m.dmem, 6) else Bit(rd, c)))
            && forall c :: 0 <= c < MEM_SIZE && c != i ==> n[c] == m.dmem[c]
  {
    BitStore(m, rd, b, i);
    BitLoadInto(m, rd, b, i);
  }

  lemma BitStore(m: Machine, rd: Byte, b: int, i: int)
    requires 0 <= b < 8
    ensures var n := StatusOp(m, BST, rd, b, i).m.dmem;
            && Flag(n, 6) == Bit(rd, b)
            && (forall c :: 0 <= c < 8 && c != 6 ==> Flag(n, c) == Flag(m.dmem, c))
            && forall c :: 0 <= c < MEM_SIZE && c != SREG ==> n[c] == m.dmem[c]
  {
    var x := UpdateSREGBit(m.dmem[SREG], BitAt(rd, b), 6);
    assert b % 32 == b;
    assert StatusOp(m, BST, rd, b, i).m.dmem == m.dmem[SREG := x];
  }

  lemma BitLoadInto(m: Machine, rd: Byte, b: int, i: int)
    requires 0 <= b < 8 && IsRegister(i)
    ensures var n := StatusOp(m, BLD, rd, b, i).m.dmem;
            && (forall c :: 0 <= c < 8 ==> Bit(n[i], c) == (if c == b then Flag(m.dmem, 6) else Bit(rd, c)))
            && forall c :: 0 <= c < MEM_SIZE && c != i ==> n[c] == m.dmem[c]
  {
    ClearSetBit(rd, b);
    var r := BitLoad(rd, b, Bit(m.dmem[SREG], 6));
    assert 0 <= r < 256;
    assert StatusOp(m, BLD, rd, b, i).m.dmem == Put(m.dmem, i, r);
    var d1 := Put(m.dmem, i, r);
    assert d1[i] == r;
  }

  /** `BST Rd, b` then `BLD Rd, b` gives back the register. */
  lemma BitStoreThenLoad(m: Machine, i: int, b: int)
    requires 0 <= b < 8 && IsRegister(i)
    ensures var m1 := StatusOp(m, BST, m.dmem[i], b, i).m;
            StatusOp(m1, BLD, m1.dmem[i], b, i).m.dmem[i] == m.dmem[i]
  {
    var rd := m.dmem[i];
    var m1 := StatusOp(m, BST, rd, b, i).m;
    BitStoreLoad(m, rd, b, i);
    assert m1.dmem[i] == rd;
    BitStoreLoad(m1, rd, b, i);
    var r := StatusOp(m1, BLD, rd, b, i).m.dmem[i];
    Pow2Small();
    assert Pow2(8) == 256;
    SameBits(r, rd, 8);
  }

  /** Two numbers below `2^w` with the same low `w` bits are equal. */
  lemma {:induction false} SameBits(x: nat, y: nat, w: nat)
    requires w <= 32 && x < Pow2(w) && y < Pow2(w)
    requires forall k :: 0 <= k < w ==> Bit(x, k) == Bit(y, k)
    ensures x == y
    decreases w
  {
    if w > 0 {
      assert Bit(x, 0) == Bit(y, 0);
      forall k | 0 <= k < w - 1
        ensures Bit(x / 2, k) == Bit(y / 2, k)
      {
        BitOfHalf(x, k + 1);
        BitOfHalf(y, k + 1);
      }
      SameBits(x / 2, y / 2, w - 1);
    }
  }

  // ---------------------------------------------------------------------------
  // branches and jumps

  /** The conditional branches test one flag each: `BRCS`/`BRLO` jump when `C` is set and
      `BRCC`/`BRSH` when it is clear; `BREQ`/`BRNE` test `Z`, `BRMI`/`BRPL` `N`, `BRVS`/`BRVC`
      `V`, `BRLT`/`BRGE` `S`, `BRHS`/`BRHC` `H`, `BRTS`/`BRTC` `T` and `BRIE`/`BRID` `I`. A
      taken branch goes to `PC + k + 1` modulo 2^16 and changes nothing else; one not taken
      changes nothing. */
  lemma BranchCondition(m: Machine, op: Mnemonic, k: int)
    requires BRBC <= op <= BRVS && op !in {BRBC, BRBS}
    ensures var e := Branch(m, op, k);
            var d := m.dmem;
            && (e.Jump? ==> e.m == m.WithPC(m.PC() + k + 1) && e.m.PC() == (m.PC() + k + 1) % 0x10000)
            && (!e.Jump? ==> e == Advance(m))
            && (op in {BRCS, BRLO} ==> (e.Jump? <==> Flag(d, 0))) && (op in {BRCC, BRSH} ==> (e.Jump? <==> !Flag(d, 0)))
            && (op == BREQ ==> (e.Jump? <==> Flag(d, 1))) && (op == BRNE ==> (e.Jump? <==> !Flag(d, 1)))
            && (op == BRMI ==> (e.Jump? <==> Flag(d, 2))) && (op == BRPL ==> (e.Jump? <==> !Flag(d, 2)))
            && (op == BRVS ==> (e.Jump? <==> Flag(d, 3))) && (op == BRVC ==> (e.Jump? <==> !Flag(d, 3)))
            && (op == BRLT ==> (e.Jump? <==> Flag(d, 4))) && (op == BRGE ==> (e.Jump? <==> !Flag(d, 4)))
            && (op == BRHS ==> (e.Jump? <==> Flag(d, 5))) && (op == BRHC ==> (e.Jump? <==> !Flag(d, 5)))
            && (op == BRTS ==> (e.Jump? <==> Flag(d, 6))) && (op == BRTC ==> (e.Jump? <==> !Flag(d, 6)))
            && (op == BRIE ==> (e.Jump? <==> Flag(d, 7))) && (op == BRID ==> (e.Jump? <==> !Flag(d, 7)))
  {
    var (bit, whenSet) := BranchOn(op, k);
    assert 0 <= bit < 8 && bit % 32 == bit;
  }

  /** `BRBS s, k` and `BRBC s, k` jump when flag `s` is set or clear; as the source reads
      the first operand for the offset as well, a taken branch goes to `PC + s + 1` whatever
      `k` is. */
  lemma BitBranchOffset(m: Machine, t: Token, op: Mnemonic, s: int, k: int)
    requires op in {BRBC, BRBS} && 0 <= s < 8
    ensures var e := Execute(m, Instr(t, op, [Token(INT, VInt(s)), Token(INT, VInt(k))]));
            && (e.Jump? <==> Flag(m.dmem, s) == (op == BRBS))
            && (e.Jump? ==> e.m.PC() == (m.PC() + s + 1) % 0x10000 && e.m.dmem == m.dmem)
            && (!e.Jump? ==> e == Advance(m))
  {
    BitBranchExecutes(m, t, op, s, k);
    BitBranch(m, op, s);
  }

  lemma BitBranchExecutes(m: Machine, t: Token, op: Mnemonic, s: int, k: int)
    requires op in {BRBC, BRBS} && 0 <= s < 8
    ensures Execute(m, Instr(t, op, [Token(INT, VInt(s)), Token(INT, VInt(k))])) == Branch(m, op, s)
  {
    var ins := Instr(t, op, [Token(INT, VInt(s)), Token(INT, VInt(k))]);
    assert CaseOf(op) == BranchCase;
    assert Arg(m.dmem, ins, 0) == s;
  }

  /** `BRBS s` and `BRBC s` with the flag number as the offset. */
  lemma BitBranch(m: Machine, op: Mnemonic, s: int)
    requires op in {BRBC, BRBS} && 0 <= s < 8
    ensures var e := Branch(m, op, s);
            && (e.Jump? <==> Flag(m.dmem, s) == (op == BRBS))
            && (e.Jump? ==> e.m.PC() == (m.PC() + s + 1) % 0x10000 && e.m.dmem == m.dmem)
            && (!e.Jump? ==> e == Advance(m))
  {
    assert s % 32 == s;
  }

  /** `JMP k` goes to `k`, `RJMP k` to `PC + k + 1` and `IJMP` to the address in `Z`, each
      modulo 2^16; data memory stays. */
  lemma Jumps(m: Machine, k: int)
    ensures var e := Branch(m, JMP, k); e.Jump? && e.m.PC() == k % 0x10000 && e.m.dmem == m.dmem
    ensures var e := Branch(m, RJMP, k); e.Jump? && e.m.PC() == (m.PC() + k + 1) % 0x10000 && e.m.dmem == m.dmem
    ensures var e := Branch(m, IJMP, k); e.Jump? && e.m.PC() == Pair(m.dmem, ZL) && e.m.dmem == m.dmem
  {
    assert Branch(m, JMP, k) == Jump(m.WithPC(k));
    assert Branch(m, RJMP, k) == Jump(m.WithPC(m.PC() + k + 1));
    assert Branch(m, IJMP, k) == Jump(m.WithPC(Pair(m.dmem, ZL)));
    assert Pair(m.dmem, ZL) < 0x10000;
  }

  // ---------------------------------------------------------------------------
  // operands, ports and program memory

  /** An `INT` operand where the operand table takes a register pair (`ADIW 24, k` rather
      than `ADIW r24, k`) is read as the number itself: `ADIW 24, k` writes `24 + k` into r24
      whatever r24 held, where `ADIW r24, k` adds `k` to the pair's content
      (`RegisterOperandAdds`). */
  lemma IntOperandImmediate(m: Machine, t: Token, i: int, k: int)
    requires i in {24, 26, 28, 30} && 0 <= k <= 63
    ensures var e := Execute(m, Instr(t, ADIW, [Token(INT, VInt(i)), Token(INT, VInt(k))]));
            e.Advance? && e.m.dmem[i] == i + k && e.m.dmem[i + 1] == m.dmem[i + 1]
  {
    var ins := Instr(t, ADIW, [Token(INT, VInt(i)), Token(INT, VInt(k))]);
    assert CaseOf(ADIW) == MoveCase;
    assert Arg(m.dmem, ins, 0) == i && Arg(m.dmem, ins, 1) == k && Index(ins, 0) == i;
    assert Execute(m, ins) == Move(m, ADIW, i, k, i, k);
    AddImmediate(m, i, k);
  }

  lemma AddImmediate(m: Machine, i: int, k: int)
    requires i in {24, 26, 28, 30} && 0 <= k <= 63
    ensures var e := Move(m, ADIW, i, k, i, k);
            e.Advance? && e.m.dmem[i] == i + k && e.m.dmem[i + 1] == m.dmem[i + 1]
  {
    var d1 := Put(m.dmem, i, i + k);
    assert d1[i] == i + k && d1[i + 1] == m.dmem[i + 1];
  }

  /** `ADIW r24, k` with a register operand adds `k` to the pair's content. */
  lemma RegisterOperandAdds(m: Machine, t: Token, i: int, k: int)
    requires i in {24, 26, 28, 30} && 0 <= k <= 63
    ensures var e := Execute(m, Instr(t, ADIW, [Token(REG, VInt(i)), Token(INT, VInt(k))]));
            e.Advance? && Word(e.m.dmem, i) == (Word(m.dmem, i) + k) % 0x10000
  {
    RegisterOperandMoves(m, t, i, k);
    AddToWord(m, i, k);
  }

  lemma AddToWord(m: Machine, i: int, k: int)
    requires i in {24, 26, 28, 30} && 0 <= k <= 63
    ensures var e := Move(m, ADIW, m.dmem[i], k, i, k);
            e.Advance? && Word(e.m.dmem, i) == (Word(m.dmem, i) + k) % 0x10000
  {
    WordArithmetic(m, ADIW, k, i, k);
    assert RegisterCell(i) && RegisterCell(i + 1);
  }

  lemma RegisterOperandMoves(m: Machine, t: Token, i: int, k: int)
    requires i in {24, 26, 28, 30} && 0 <= k <= 63
    ensures Execute(m, Instr(t, ADIW, [Token(REG, VInt(i)), Token(INT, VInt(k))]))
            == Move(m, ADIW, m.dmem[i], k, i, k)
  {
    var ins := Instr(t, ADIW, [Token(REG, VInt(i)), Token(INT, VInt(k))]);
    assert CaseOf(ADIW) == MoveCase;
    assert Arg(m.dmem, ins, 0) == m.dmem[i] && Arg(m.dmem, ins, 1) == k && Index(ins, 0) == i;
  }

  /** `1 << b` for a bit number of a byte is `2 ** b`. */
  lemma ShiftedOne(b: int)
    requires 0 <= b < 8
    ensures Shl1(b) == Pow2(b) && Pow2(b) < 256
  {
    assert b % 32 == b;
    Pow2Small();
  }

  /** `CBI A, b` clears and `SBI A, b` sets bit `b` of I/O port `A`, which is the cell
      `p = A + 0x20`; the port's other bits and every other cell stay. */
  lemma PortBit(m: Machine, k: Mnemonic, p: int, b: int, i: int)
    requires k in {CBI, SBI} && 0x20 <= p < 0x40 && 0 <= b < 8
    ensures var n := InOut(m, k, p - 0x20, b, i).m.dmem;
            && (forall c :: 0 <= c < 8 ==> Bit(n[p], c) == (if c == b then k == SBI else Bit(m.dmem[p], c)))
            && forall c :: 0 <= c < MEM_SIZE && c != p ==> n[c] == m.dmem[c]
  {
    var x := m.dmem[p];
    PortWrite(m, k, p, b, i);
    ClearSetBit(x, b);
    var r := if k == CBI then JsAnd(x, 0xff - Pow2(b)) else JsOr(x, Pow2(b));
    SmallInt32(r);
    assert Put(m.dmem, p, r)[p] == r;
  }

  /** `CBI` and `SBI` write the port's byte with bit `b` cleared or set. */
  lemma PortWrite(m: Machine, k: Mnemonic, p: int, b: int, i: int)
    requires k in {CBI, SBI} && 0x20 <= p < 0x40 && 0 <= b < 8
    ensures var x := m.dmem[p];
            var r := if k == CBI then JsAnd(x, 0xff - Pow2(b)) else JsOr(x, Pow2(b));
            0 <= r < 256 && InOut(m, k, p - 0x20, b, i).m.dmem == Put(m.dmem, p, r)
  {
    ShiftedOne(b);
    ClearSetBit(m.dmem[p], b);
  }

  /** A string of binary digits denotes a number below `2^|s|`. */
  lemma {:induction false} BinaryBelow(s: string)
    requires AllDigits(s, 2)
    ensures DigitsValue(s, 2) < Pow2(|s|)
    decreases |s|
  {
    if s != [] {
      assert AllDigits(s[..|s| - 1], 2);
      BinaryBelow(s[..|s| - 1]);
    }
  }

  /** The byte `LPM` reads at byte address `k` is the number eight binary digits of the
      opcode in slot `k / 2` denote: its first eight for an even address, the next eight for
      an odd one. */
  lemma ProgramByteDigits(pmem: seq<Option<Instr>>, k: nat, op: string)
    requires k / 2 < |pmem| && pmem[k / 2].Some? && pmem[k / 2].value.Opcode() == Some(op)
    requires |op| >= 16 && AllDigits(op, 2)
    ensures var from := 8 * (k % 2);
            ProgramByte(pmem, k) == Some(DigitsValue(op[from..from + 8], 2))
  {
    var from := 8 * (k % 2);
    var t := op[from..from + 8];
    assert Slice(op, from, from + 8) == t;
    EightDigits(t);
  }

  /** Eight binary digits parse to the byte they denote. */
  lemma EightDigits(t: string)
    requires |t| == 8 && AllDigits(t, 2)
    ensures ParseInt(t, 2) == Some(DigitsValue(t, 2) as int) && DigitsValue(t, 2) < 256
    ensures Low(DigitsValue(t, 2)) == DigitsValue(t, 2)
  {
    ParseDigits(t, 2);
    BinaryBelow(t);
    assert Pow2(8) == 256 by { Pow2Small(); }
    SmallInt32(DigitsValue(t, 2));
  }

  /** `LPM` loads the program byte `Z` addresses: into `R0` with no operand, into `Rd` with
      `LPM Rd, Z` or `LPM Rd, Z+`, and the `+` form then moves `Z` up by one. A missing slot
      or opcode is a `TypeError` before any change; a lone operand is one after the load. */
  lemma ProgramLoadByte(m: Machine, ins: Instr)
    requires ins.m == LPM
    ensures var e := ProgramLoad(m, ins);
            var z := Pair(m.dmem, ZL);
            var pb := ProgramByte(m.pmem, z);
            var i := Index(ins, 0);
            && (pb.None? ==> e == Fault(m, LpmFault))
            && (pb.Some? && ins.args == [] ==>
                  e.Advance? && e.m.dmem[0] == pb.value && forall c :: 1 <= c < MEM_SIZE ==> e.m.dmem[c] == m.dmem[c])
            && (pb.Some? && |ins.args| == 1 ==> e.Fault? && (IsRegister(i) ==> e.m.dmem[i] == pb.value))
            && (pb.Some? && |ins.args| >= 2 && IsRegister(i) && i < ZL ==>
                  && e.Advance? && e.m.dmem[i] == pb.value
                  && Pair(e.m.dmem, ZL) == (if '+' in Text(ins, 1) then (z + 1) % 0x10000 else z)
                  && forall c :: 0 <= c < MEM_SIZE && c != i && c != ZL && c != ZL + 1 ==> e.m.dmem[c] == m.dmem[c])
  {
    var pb := ProgramByte(m.pmem, Pair(m.dmem, ZL));
    if pb.Some? {
      LoadByteInto(m, ins, pb.value);
    }
  }

  /** Where the byte read goes, and what happens to `Z`. */
  lemma LoadByteInto(m: Machine, ins: Instr, v: Byte)
    ensures var e := LoadByte(m, ins, v);
            var z := Pair(m.dmem, ZL);
            var i := Index(ins, 0);
            && (ins.args == [] ==> e.Advance? && e.m.dmem[0] == v && forall c :: 1 <= c < MEM_SIZE ==> e.m.dmem[c] == m.dmem[c])
            && (|ins.args| == 1 ==> e.Fault? && (IsRegister(i) ==> e.m.dmem[i] == v))
            && (|ins.args| >= 2 && IsRegister(i) && i < ZL ==>
                  && e.Advance? && e.m.dmem[i] == v
                  && Pair(e.m.dmem, ZL) == (if '+' in Text(ins, 1) then (z + 1) % 0x10000 else z)
                  && forall c :: 0 <= c < MEM_SIZE && c != i && c != ZL && c != ZL + 1 ==> e.m.dmem[c] == m.dmem[c])
  {
    var i := Index(ins, 0);
    if ins.args == [] {
      var d1 := Put(m.dmem, 0, v);
      assert d1[0] == v;
    } else {
      var d1 := Put(m.dmem, i, v);
      if IsRegister(i) {
        assert d1[i] == v;
        if i < ZL {
          assert Pair(d1, ZL) == Pair(m.dmem, ZL);
          IncPairValue(d1, ZL);
        }
      }
    }
  }
}
