/** `Parser.newData` and the order of the passes of `Parser.parse` (simulator.js:599-1424):
    the section checks, token normalisation, the text section, the data section, reference
    resolution and the final check, then the padding of both memories to their full size. */
module Assembler {
  import opened Base
  import opened Tokens
  import opened Isa
  import opened Symbols
  import opened Sections
  import opened TextSection
  import opened DataSection
  import opened Resolve

  /** What the parser hands to the interpreter: program memory (an instruction or the empty
      continuation slot of a two-word instruction), data memory as byte values, the source
      line of every code slot, the symbol tables and the `.global` names. */
  datatype Program = Program(pmem: seq<Option<Instr>>, dmem: seq<Byte>, fileLines: seq<int>, tables: Tables,
                             globals: seq<Value>)

  /** The instruction program memory is filled up with. */
  const NopInstr := Instr(Token(INST, VStr("NOP")), NOP, [])

  /** Program memory filled with `NOP` up to `FLASHEND`. */
  function PadCode(code: seq<Option<Instr>>): (p: seq<Option<Instr>>)
    requires |code| <= FLASHEND + 1
    ensures |p| == FLASHEND + 1 && p[..|code|] == code
    ensures forall i :: |code| <= i < |p| ==> p[i] == Some(NopInstr)
  {
    code + seq(FLASHEND + 1 - |code|, i => Some(NopInstr))
  }

  /** Data memory filled with zeros up to `RAMEND`. */
  function PadData(d: seq<Byte>): (p: seq<Byte>)
    requires |d| <= RAMEND + 1
    ensures |p| == RAMEND + 1 && p[..|d|] == d
    ensures forall i :: |d| <= i < |p| ==> p[i] == 0
  {
    d + seq(RAMEND + 1 - |d|, i => 0)
  }

  /** Normalisation keeps the `.end` line and the index of the text section valid. */
  lemma NormalisedSections(lines: seq<seq<Token>>, numbers: seq<int>, ts: nat)
    requires Shaped(lines, numbers) && CheckSections(lines, numbers) == Ok(ts)
    ensures NormaliseFrom(lines, numbers, 0).Ok? ==>
              var out := NormaliseFrom(lines, numbers, 0).value;
              Shaped(out, numbers) && ts + 1 < |out| && IsEndLine(out[|out| - 1])
  {
    NormalisedShape(lines, numbers);
    if NormaliseFrom(lines, numbers, 0).Ok? {
      var out := NormaliseFrom(lines, numbers, 0).value;
      var last := |out| - 1;
      assert |out[last]| == |lines[last]| == 1;
      assert out[last][0] == lines[last][0];
    }
  }

  /** The section checks and the normalisation pass: the normalised lines and the index of
      the `.section .text` line. */
  function Checked(lines: seq<seq<Token>>, numbers: seq<int>): (r: Result<(seq<seq<Token>>, nat)>)
    requires Shaped(lines, numbers)
    ensures r.Ok? ==> Shaped(r.value.0, numbers) && r.value.1 + 1 < |r.value.0| && IsEndLine(r.value.0[|r.value.0| - 1])
  {
    match CheckSections(lines, numbers)
    case Err(e) => Err(e)
    case Ok(ts) =>
      NormalisedSections(lines, numbers, ts);
      match NormaliseFrom(lines, numbers, 0)
      case Err(e) => Err(e)
      case Ok(norm) => Ok((norm, ts))
  }

  /** The text section, then the data section, over the normalised lines. */
  function Built(norm: seq<seq<Token>>, numbers: seq<int>, ts: nat): (r: Result<Image>)
    requires Shaped(norm, numbers) && ts + 1 < |norm| && IsEndLine(norm[|norm| - 1])
    ensures r.Ok? ==> Slotted(r.value.pmem) && |r.value.fileLines| == |r.value.pmem|
    ensures r.Ok? ==> |r.value.pmem| <= FLASHEND && 256 <= |r.value.dmem| <= RAMEND
    ensures r.Ok? ==> EntryStored(r.value.dmem, r.value.tables, r.value.globals)
  {
    match BuildText(norm, numbers, ts)
    case Err(e) => Err(e)
    case Ok(st) =>
      BuildTextSlotted(norm, numbers, ts);
      BuildTextEntry(norm, numbers, ts);
      var r := BuildData(st, norm, numbers, ts);
      DataKeepsEntry(st, r);
      r
  }

  /** The build is the data section run over what the text section built. */
  lemma BuiltInTwo(norm: seq<seq<Token>>, numbers: seq<int>, ts: nat)
    requires Shaped(norm, numbers) && ts + 1 < |norm| && IsEndLine(norm[|norm| - 1])
    ensures BuildText(norm, numbers, ts).Err? ==> Built(norm, numbers, ts) == Err(BuildText(norm, numbers, ts).error)
    ensures BuildText(norm, numbers, ts).Ok? ==>
              Built(norm, numbers, ts) == BuildData(BuildText(norm, numbers, ts).value, norm, numbers, ts)
  {
  }

  /** The data section appends to data memory and adds labels without rebinding any, so the
      entry cells keep the address the text section stored. */
  lemma DataKeepsEntry(st: Image, r: Result<Image>)
    requires EntryStored(st.dmem, st.tables, st.globals)
    requires r.Ok? ==> r.value.globals == st.globals && |r.value.dmem| >= |st.dmem| && r.value.dmem[..|st.dmem|] == st.dmem
    requires r.Ok? ==> Keeps(st.tables.labels, r.value.tables.labels)
    ensures r.Ok? ==> EntryStored(r.value.dmem, r.value.tables, r.value.globals)
  {
    if r.Ok? {
      assert r.value.dmem[ENTRY_LO] == r.value.dmem[..|st.dmem|][ENTRY_LO];
      assert r.value.dmem[ENTRY_HI] == r.value.dmem[..|st.dmem|][ENTRY_HI];
    }
  }

  /** Resolution and the final check over the built memories, then the padding. */
  function Completed(st: Image): (r: Result<Program>)
    requires Slotted(st.pmem) && |st.fileLines| == |st.pmem| && |st.pmem| <= FLASHEND && |st.dmem| <= RAMEND
    ensures r.Ok? ==> |r.value.pmem| == FLASHEND + 1 && |r.value.dmem| == RAMEND + 1
    ensures r.Ok? ==> r.value.dmem[..|st.dmem|] == st.dmem && r.value.tables == st.tables && r.value.globals == st.globals
  {
    match ResolveFrom(st.tables, st.pmem, st.fileLines)
    case Err(e) => Err(e)
    case Ok(code) =>
      ResolveSlotted(st.tables, st.pmem, st.fileLines);
      match FinishFrom(code, st.fileLines)
      case Err(e) => Err(e)
      case Ok(pmem) => Ok(Program(PadCode(pmem), PadData(st.dmem), st.fileLines, st.tables, st.globals))
  }

  /** The whole assembler: the passes in the source's order, each stopping at its first
      error, then both memories padded. */
  function Assemble(lines: seq<seq<Token>>, numbers: seq<int>): (r: Result<Program>)
    requires Shaped(lines, numbers)
    ensures r.Ok? ==> |r.value.pmem| == FLASHEND + 1 && |r.value.dmem| == RAMEND + 1
    ensures r.Ok? ==> EntryStored(r.value.dmem, r.value.tables, r.value.globals)
  {
    match Checked(lines, numbers)
    case Err(e) => Err(e)
    case Ok((norm, ts)) =>
      match Built(norm, numbers, ts)
      case Err(e) => Err(e)
      case Ok(st) =>
        var r := Completed(st);
        if r.Ok? then
          assert r.value.dmem[ENTRY_LO] == st.dmem[ENTRY_LO] && r.value.dmem[ENTRY_HI] == st.dmem[ENTRY_HI];
          r
        else r
  }

  // ---------------------------------------------------------------------------
  // what the assembled program memory looks like

  /** Padding with `NOP`, a one-word instruction, keeps the slot shape. */
  lemma PadSlotted(code: seq<Option<Instr>>)
    requires |code| <= FLASHEND + 1 && SlottedCode(code)
    ensures SlottedCode(PadCode(code))
  {
    var p := PadCode(code);
    forall i | 0 <= i < |p| && p[i].None?
      ensures 0 < i && p[i - 1].Some? && TwoWord(p[i - 1].value.inst.value)
    {
      assert i < |code| && code[i] == p[i];
    }
    forall i | 0 <= i < |p| && p[i].Some? && TwoWord(p[i].value.inst.value)
      ensures i + 1 < |p| && p[i + 1].None?
    {
      assert i < |code| && code[i] == p[i];
    }
  }

  /** Program memory after the last passes: every continuation slot of the text section
      stays empty and every instruction slot holds the instruction of its own line, with
      operands the operand table accepts; the slot shape holds; the rest is `NOP`. */
  lemma CompletedCode(st: Image)
    requires Slotted(st.pmem) && |st.fileLines| == |st.pmem| && |st.pmem| <= FLASHEND && |st.dmem| <= RAMEND
    ensures var r := Completed(st);
            r.Ok? ==>
              && SlottedCode(r.value.pmem)
              && (forall i :: |st.pmem| <= i < |r.value.pmem| ==> r.value.pmem[i] == Some(NopInstr))
              && (forall i :: 0 <= i < |st.pmem| ==> (st.pmem[i].None? <==> r.value.pmem[i].None?))
              && (forall i :: 0 <= i < |st.pmem| && r.value.pmem[i].Some? ==>
                    var ins := r.value.pmem[i].value;
                    && ins.inst == st.pmem[i].value[0]
                    && ((ins.m == LPM && ins.args == []) || OperandsLegal(ins.m, ins.args, st.fileLines[i])))
  {
    var res := ResolveFrom(st.tables, st.pmem, st.fileLines);
    if res.Ok? {
      var code := res.value;
      ResolvedHeads(st.tables, st.pmem, st.fileLines);
      ResolveSlotted(st.tables, st.pmem, st.fileLines);
      var fin := FinishFrom(code, st.fileLines);
      if fin.Ok? {
        FinishedSlots(code, st.fileLines);
        FinishSlotted(code, st.fileLines);
        assert Completed(st).value.pmem == PadCode(fin.value);
        PaddedSlots(st.pmem, st.fileLines, code, fin.value);
      }
    }
  }

  /** The resolution pass keeps every slot's kind and every instruction's mnemonic. */
  lemma ResolvedHeads(t: Tables, pmem: seq<Option<seq<Token>>>, fileLines: seq<int>)
    requires Slotted(pmem) && |fileLines| == |pmem|
    ensures var r := ResolveFrom(t, pmem, fileLines);
            r.Ok? ==> forall j :: 0 <= j < |pmem| ==>
                        && (pmem[j].None? <==> r.value[j].None?)
                        && (pmem[j].Some? ==> r.value[j].value != [] && r.value[j].value[0] == pmem[j].value[0])
  {
    ResolveSlots(t, pmem, fileLines);
  }

  /** The final pass keeps every slot's kind and makes each instruction of its own
      mnemonic token, with operands the operand table accepts. */
  lemma FinishedSlots(code: seq<Option<seq<Token>>>, fileLines: seq<int>)
    requires Slotted(code) && |fileLines| == |code|
    ensures var r := FinishFrom(code, fileLines);
            r.Ok? ==> forall j :: 0 <= j < |code| ==>
                        && (code[j].None? <==> r.value[j].None?)
                        && (code[j].Some? ==>
                              var ins := r.value[j].value;
                              ins.inst == code[j].value[0] && ((ins.m == LPM && ins.args == []) || OperandsLegal(ins.m, ins.args, fileLines[j])))
  {
    FinishSlots(code, fileLines);
  }

  /** The slot facts of both passes carried over to padded program memory. */
  lemma PaddedSlots(pmem: seq<Option<seq<Token>>>, fileLines: seq<int>, code: seq<Option<seq<Token>>>, fin: seq<Option<Instr>>)
    requires Slotted(pmem) && |fileLines| == |pmem| && |pmem| <= FLASHEND && |code| == |pmem| && |fin| == |pmem|
    requires SlottedCode(fin)
    requires forall j :: 0 <= j < |pmem| ==>
               && (pmem[j].None? <==> code[j].None?)
               && (pmem[j].Some? ==> code[j].value != [] && code[j].value[0] == pmem[j].value[0])
    requires forall j :: 0 <= j < |code| ==>
               && (code[j].None? <==> fin[j].None?)
               && (code[j].Some? ==>
                     var ins := fin[j].value;
                     ins.inst == code[j].value[0] && ((ins.m == LPM && ins.args == []) || OperandsLegal(ins.m, ins.args, fileLines[j])))
    ensures var p := PadCode(fin);
            && SlottedCode(p)
            && (forall i :: |pmem| <= i < |p| ==> p[i] == Some(NopInstr))
            && (forall i :: 0 <= i < |pmem| ==> (pmem[i].None? <==> p[i].None?))
            && (forall i :: 0 <= i < |pmem| && p[i].Some? ==>
                  var ins := p[i].value;
                  && ins.inst == pmem[i].value[0]
                  && ((ins.m == LPM && ins.args == []) || OperandsLegal(ins.m, ins.args, fileLines[i])))
  {
    PadSlotted(fin);
    var p := PadCode(fin);
    forall i | 0 <= i < |pmem|
      ensures p[i] == fin[i]
    {
      assert p[..|fin|][i] == fin[i];
    }
  }
}
