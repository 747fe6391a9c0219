/** The objects of the simulator that change in place: `Register` (simulator.js:23-70) and
    `Interpreter` (simulator.js:1590-2922). The interpreter keeps data memory as one flat
    byte array and its program counter in two `Register` objects; every step is proved to
    leave the state that `Execution.Next` gives, and a run the state `Execution.Run` gives. */
module Simulator {
  import opened Base
  import opened Tokens
  import opened Isa
  import opened Resolve
  import opened Symbols
  import opened Sections
  import opened TextSection
  import opened Assembler
  import opened Execution

  /** A named byte cell that remembers its previous value and whether it was written since
      the last `clearChange()`. */
  class Register {
    const name: string
    var value: Byte
    var lastValue: Byte
    var changed: bool

    constructor(name: string, value: Byte, changed: bool)
      ensures this.name == name && this.value == value && lastValue == value && this.changed == changed
    {
      this.name := name;
      this.value := value;
      this.lastValue := value;
      this.changed := changed;
    }

    /** `clearChange()`, done before every instruction by the display. */
    method ClearChange()
      modifies this
      ensures !changed && value == old(value) && lastValue == old(lastValue)
    {
      changed := false;
    }

    /** `setValue(v)`: the old value is remembered and `v & 0xff` kept. */
    method SetValue(v: int)
      modifies this
      ensures value == Low(v) && lastValue == old(value) && changed
    {
      lastValue := value;
      value := Low(v);
      changed := true;
    }

    /** `inc()`: the value goes up by one modulo 256. */
    method Inc()
      modifies this
      ensures value == (old(value) + 1) % 256 && lastValue == old(value) && changed
    {
      SetValue(value + 1);
    }

    /** `dec()`: the value goes down by one modulo 256. */
    method Dec()
      modifies this
      ensures value == (old(value) + 255) % 256 && lastValue == old(value) && changed
    {
      SetValue(value - 1);
    }
  }

  /** `inc()` and `dec()` undo each other on every byte, 0 and 255 included. */
  lemma IncDecInverse(v: Byte)
    ensures Low(Low(v + 1) - 1) == v && Low(Low(v - 1) + 1) == v
    ensures (v + 1) % 256 == 0 <==> v == 255
  {
  }

  /** The parser's data memory in a fresh array grown with zero cells to the full size. */
  method GrowData(d: seq<Byte>) returns (a: array<Byte>)
    requires |d| <= MEM_SIZE
    ensures fresh(a) && a[..] == Grown(d)
  {
    a := new Byte[MEM_SIZE](i => if 0 <= i < |d| then d[i] else 0);
  }

  /** The interpreter: program memory with the source line of each slot, data memory (which
      holds `SPL`, `SPH` and `SREG` at 0x5D to 0x5F), the two program counter registers,
      `ramend`, the step count and whether the run is over. */
  class Interpreter {
    var pmem: seq<Option<Instr>>
    var lineNumbers: seq<int>
    var dmem: array<Byte>
    var pcl: Register
    var pch: Register
    var ramend: int
    var stepCount: nat
    var finished: bool

    /** Data memory has its full size and the two halves of the program counter are two
        registers. */
    predicate Valid()
      reads this
    {
      dmem.Length == MEM_SIZE && pcl != pch
    }

    /** The state held in the fields. */
    function Snapshot(): Machine
      requires Valid()
      reads this, dmem, pcl, pch
    {
      Machine(pmem, lineNumbers, dmem[..], pcl.value, pch.value, ramend, stepCount, finished)
    }

    /** `emptyData()`: no program, and data memory all zeros. */
    constructor()
      ensures Valid() && fresh(dmem) && pmem == [] && lineNumbers == []
      ensures dmem[..] == seq(MEM_SIZE, i => 0) && stepCount == 0 && !finished
    {
      pmem := [];
      lineNumbers := [];
      dmem := new Byte[MEM_SIZE](i => 0);
      pcl := new Register("PCL", 0, false);
      pch := new Register("PCH", 0, false);
      ramend := 0;
      stepCount := 0;
      finished := false;
    }

    /** `getPC()` */
    function PC(): nat
      reads this, pcl, pch
    {
      pch.value as int * 256 + pcl.value
    }

    /** `setPC(v)`: both registers take their byte of `v`. */
    method SetPC(v: int)
      requires pcl != pch
      modifies pcl, pch
      ensures pch.value == High(v) && pcl.value == Low(v)
    {
      pch.SetValue(High(v));
      pcl.SetValue(Low(v));
    }

    /** `setSP(v)`: the cells `SPH` and `SPL` take their byte of `v`; no other cell changes. */
    method SetSP(v: int)
      requires Valid()
      modifies dmem
      ensures dmem[..] == old(dmem[..])[SPH := High(v)][SPL := Low(v)]
    {
      dmem[SPH] := High(v);
      dmem[SPL] := Low(v);
    }

    /** The first half of `newData`: the memories taken over (data memory grown with zero
        cells), the program counter registers made from cells 0x5B and 0x5C, which are then
        cleared, and `ramend` the last cell the parser made. */
    method Load(p: seq<Option<Instr>>, d: seq<Byte>, lines: seq<int>)
      requires SREG < |d| <= MEM_SIZE
      modifies this
      ensures Valid() && fresh(dmem) && fresh(pcl) && fresh(pch)
      ensures pmem == p && lineNumbers == lines && ramend == |d| - 1 && stepCount == 0 && !finished
      ensures dmem[..] == Grown(d)[ENTRY_LO := 0][ENTRY_HI := 0]
      ensures pcl.value == d[ENTRY_LO] && pch.value == d[ENTRY_HI]
    {
      pmem := p;
      lineNumbers := lines;
      finished := false;
      stepCount := 0;
      dmem := GrowData(d);
      pcl := new Register("PCL", d[ENTRY_LO], false);
      pch := new Register("PCH", d[ENTRY_HI], false);
      dmem[ENTRY_LO] := 0;
      dmem[ENTRY_HI] := 0;
      ramend := |d| - 1;
    }

    /** `newData(pmem, dmem, line_numbers)`: the memories and registers loaded, then the
        program counter set from the entry cells and the stack pointer set to `ramend`. */
    method NewData(p: seq<Option<Instr>>, d: seq<Byte>, lines: seq<int>)
      requires SREG < |d| <= MEM_SIZE
      modifies this
      ensures Valid() && fresh(dmem) && fresh(pcl) && fresh(pch)
      ensures Snapshot() == Reset(p, d, lines)
    {
      Load(p, d, lines);
      SetPC(pch.value as int * 256 + pcl.value);
      SetSP(ramend);
      ResetFields(p, d, lines);
    }

    /** Stores a machine state's data memory and program counter in the fields. */
    method Store(m: Machine)
      requires Valid() && m.pmem == pmem && m.lines == lineNumbers && m.ramend == ramend
      requires m.steps == stepCount && m.finished == finished
      modifies dmem, pcl, pch
      ensures Valid() && Snapshot() == m
    {
      forall i | 0 <= i < dmem.Length {
        dmem[i] := m.dmem[i];
      }
      pcl.SetValue(m.pcl);
      pch.SetValue(m.pch);
    }

    /** `incPC()` */
    method IncPC()
      requires Valid()
      modifies pcl, pch
      ensures Valid() && Snapshot() == old(Snapshot()).IncPC()
    {
      SetPC(PC() + 1);
    }

    /** `step()`: nothing once the run is over; the end of the run once the program counter
        reaches `flashend`; otherwise the case of the current instruction, then the
        increment unless the case skips it, the step count and the step guard. An error ends
        the run (a `TypeError` from a continuation slot or `LPM` does not set `finished`). */
    method Step() returns (outcome: Outcome)
      requires Valid()
      modifies this, dmem, pcl, pch
      ensures Valid() && dmem == old(dmem) && pcl == old(pcl) && pch == old(pch)
      ensures Snapshot() == Next(old(Snapshot())).m && outcome == Next(old(Snapshot())).outcome
    {
      ghost var m0 := Snapshot();
      if finished {
        return Pass;
      }
      if PC() >= |pmem| - 1 {
        finished := true;
        SetPC(|pmem| - 1);
        assert Snapshot() == m0.(finished := true).WithPC(m0.Flashend());
        return Pass;
      }
      var line := if PC() < |lineNumbers| then lineNumbers[PC()] else 0;
      var slot := pmem[PC()];
      if slot.None? {
        return Fail(Error(ContinuationFetch, line));
      }
      assert Next(m0) == Settle(m0, Execute(m0, slot.value));
      outcome := Perform(m0, slot.value, line);
    }

    /** The case of an instruction in `step()` and what follows it. */
    method Perform(ghost m0: Machine, ins: Instr, line: int) returns (outcome: Outcome)
      requires Valid() && Snapshot() == m0 && line == m0.Line()
      modifies this, dmem, pcl, pch
      ensures Valid() && dmem == old(dmem) && pcl == old(pcl) && pch == old(pch)
      ensures Snapshot() == Settle(m0, Execute(m0, ins)).m && outcome == Settle(m0, Execute(m0, ins)).outcome
    {
      var e := Execute(Snapshot(), ins);
      Store(e.m);
      outcome := Conclude(m0, e, line);
    }

    /** What follows a case in `step()`: the run ends at `RET` with an empty stack or at an
        error; otherwise the increment unless the case skipped it, the step count and the
        step guard. */
    method Conclude(ghost m0: Machine, e: Effect, line: int) returns (outcome: Outcome)
      requires Valid() && Snapshot() == e.m && line == m0.Line()
      modifies this, pcl, pch
      ensures Valid() && dmem == old(dmem) && pcl == old(pcl) && pch == old(pch)
      ensures Snapshot() == Settle(m0, e).m && outcome == Settle(m0, e).outcome
    {
      match e {
        case Halt(_) =>
          finished := true;
          return Pass;
        case Raise(_, k) =>
          finished := true;
          return Fail(Error(k, line));
        case Fault(_, k) =>
          return Fail(Error(k, line));
        case Advance(_) =>
          IncPC();
        case Jump(_) =>
      }
      stepCount := stepCount + 1;
      if stepCount > STEP_LIMIT {
        finished := true;
        return Fail(Error(StepLimit, 0));
      }
      return Pass;
    }

    /** `run()`: steps until the run is over; an error a step throws ends the run there. */
    method Run() returns (outcome: Outcome)
      requires Valid()
      modifies this, dmem, pcl, pch
      ensures Valid() && dmem == old(dmem) && pcl == old(pcl) && pch == old(pch)
      ensures Snapshot() == Execution.Run(old(Snapshot())).m && outcome == Execution.Run(old(Snapshot())).outcome
    {
      outcome := Pass;
      while !finished
        invariant Valid() && dmem == old(dmem) && pcl == old(pcl) && pch == old(pch)
        invariant Execution.Run(Snapshot()) == Execution.Run(old(Snapshot()))
        invariant outcome == Pass
        decreases Fuel(Snapshot())
      {
        outcome := Step();
        if outcome.Fail? {
          return;
        }
      }
    }
  }

  /** The fields `newData` sets, one by one. */
  lemma ResetFields(p: seq<Option<Instr>>, d: seq<Byte>, lines: seq<int>)
    requires SREG < |d| <= MEM_SIZE
    ensures var v, r := d[ENTRY_HI] as int * 256 + d[ENTRY_LO], |d| - 1;
            var cleared := Grown(d)[ENTRY_LO := 0][ENTRY_HI := 0];
            Reset(p, d, lines) == Machine(p, lines, cleared[SPH := High(r)][SPL := Low(r)], Low(v), High(v), r, 0, false)
  {
  }

  /** A program of the shape the assembler produces starts at the first `.global` label
      (when its name was written as a reference), with `ramend` and the stack pointer at
      `RAMEND` and `flashend` at `FLASHEND`. */
  lemma AssembledStart(p: Program)
    requires |p.pmem| == FLASHEND + 1 && |p.dmem| == RAMEND + 1 && EntryStored(p.dmem, p.tables, p.globals)
    ensures var m := Reset(p.pmem, p.dmem, p.fileLines);
            && m.ramend == RAMEND && m.SP() == RAMEND && m.Flashend() == FLASHEND
            && m.steps == 0 && !m.finished
            && (p.globals[0].VStr? ==> m.PC() == p.tables.labels[p.globals[0].s] % 0x10000)
  {
    if p.globals[0].VStr? {
      var a := p.tables.labels[p.globals[0].s];
      ByteSelectors(a);
      HighLow(a);
    }
  }
}
