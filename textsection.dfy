/** The text-section build of `Parser.parse` (simulator.js:840-966): labels are stripped
    and bound to the program-memory index of their line, `.global` names are collected,
    instruction lines are placed in program memory with an empty continuation slot after
    every two-word instruction, and the entry point is written to data memory at 0x5B-0x5C. */
module TextSection {
  import opened Base
  import opened Tokens
  import opened Symbols
  import opened Sections

  const RAMEND := 0x8FF
  const FLASHEND := 0x3FFF

  /** The data-memory cells that hand the entry point to the interpreter. */
  const ENTRY_LO := 0x5B
  const ENTRY_HI := 0x5C

  /** The parser's state while it builds memory: the symbol tables, program memory (one
      token line per instruction, `None` for the continuation slot of a 32-bit instruction),
      the source line of every program-memory slot, data memory as byte values, and the
      `.global` names. */
  datatype Image = Image(tables: Tables, pmem: seq<Option<seq<Token>>>, fileLines: seq<int>,
                         dmem: seq<Byte>, globals: seq<Value>)

  /** The register cells data memory starts with. */
  function Registers(): (d: seq<Byte>)
    ensures |d| == 256 && forall i :: 0 <= i < 256 ==> d[i] == 0
  {
    seq(256, i => 0)
  }

  /** The tables before any line is read: the register pairs' names as defs. */
  function Seeded(): (t: Tables)
    ensures t.labels == map[] && t.equs == map[]
    ensures t.defs == map["ZH" := 31, "ZL" := 30, "YH" := 29, "YL" := 28, "XH" := 27, "XL" := 26]
  {
    Tables(map[], map[], map["ZH" := 31, "ZL" := 30, "YH" := 29, "YL" := 28, "XH" := 27, "XL" := 26])
  }

  /** The instructions that take a second program word: `['CALL','JMP','LDS','STS']`. */
  predicate TwoWord(v: Value) {
    v == VStr("CALL") || v == VStr("JMP") || v == VStr("LDS") || v == VStr("STS")
  }

  /** The name a label token binds: its text without the colon, trimmed. */
  function LabelName(v: Value): string {
    var s := ValueText(v);
    if s == [] then [] else Trim(s[..|s| - 1])
  }

  /** The entry point's two bytes stored in the cells the interpreter reads it from. */
  function SetEntry(dmem: seq<Byte>, pc: nat): (d: seq<Byte>)
    requires |dmem| > ENTRY_HI
    ensures |d| == |dmem| && d[ENTRY_LO] == Lo8(VInt(pc)) && d[ENTRY_HI] == Hi8(VInt(pc))
    ensures forall i :: 0 <= i < |d| && i != ENTRY_LO && i != ENTRY_HI ==> d[i] == dmem[i]
  {
    dmem[ENTRY_LO := Lo8(VInt(pc))][ENTRY_HI := Hi8(VInt(pc))]
  }

  /** The state invariant of the build. */
  predicate Good(st: Image) {
    |st.fileLines| == |st.pmem| && |st.dmem| > ENTRY_HI && |st.globals| > 0
  }

  /** What binding the leading labels of `line` does: from `st` to `st'`, with `rest` the
      line after them. Only labels change, and each new one is bound to the length of
      program memory; `rest` is the line without its leading labels and holds none. */
  ghost predicate Stripped(st: Image, line: seq<Token>, st': Image, rest: seq<Token>) {
    && Good(st') && |st'.dmem| == |st.dmem| && st'.pmem == st.pmem && st'.fileLines == st.fileLines && st'.globals == st.globals
    && st'.tables.equs == st.tables.equs && st'.tables.defs == st.tables.defs
    && st.tables.labels.Keys <= st'.tables.labels.Keys
    && (forall n :: n in st'.tables.labels ==>
          st'.tables.labels[n] == if n in st.tables.labels then st.tables.labels[n] else |st.pmem|)
    && |rest| <= |line| && rest == line[|line| - |rest|..]
    && (forall i :: 0 <= i < |rest| ==> rest[i].kind != LABEL)
    && (forall i :: 0 <= i < |line| - |rest| ==> line[i].kind == LABEL)
  }

  /** A leading label bound, then the rest of the labels. */
  lemma StrippedCons(st: Image, line: seq<Token>, st1: Image, st': Image, rest: seq<Token>, name: string)
    requires Good(st) && line != [] && line[0].kind == LABEL && name !in st.tables.labels
    requires st1.tables.labels == st.tables.labels[name := |st.pmem|]
    requires st1.tables.equs == st.tables.equs && st1.tables.defs == st.tables.defs
    requires |st1.dmem| == |st.dmem| && st1.pmem == st.pmem && st1.fileLines == st.fileLines && st1.globals == st.globals
    requires Stripped(st1, line[1..], st', rest)
    ensures Stripped(st, line, st', rest)
  {
    assert line[1..][|line[1..]| - |rest|..] == line[|line| - |rest|..];
    forall i | 0 <= i < |line| - |rest|
      ensures line[i].kind == LABEL
    {
      if i > 0 { assert line[i] == line[1..][i - 1]; }
    }
  }

  /** The labels at the start of a line, bound one after the other to the current
      program-memory length; then any label left on the line is out of place. */
  function StripLabels(st: Image, line: seq<Token>, number: int): (r: Result<(Image, seq<Token>)>)
    requires Good(st)
    ensures r.Ok? ==> Stripped(st, line, r.value.0, r.value.1)
    decreases |line|
  {
    if line != [] && line[0].kind == LABEL then
      var name := LabelName(line[0].value);
      match NewLabel(st.tables, name, |st.pmem|, number)
      case Err(e) => Err(e)
      case Ok(t) =>
        var dmem := if VStr(name) == st.globals[0] then SetEntry(st.dmem, |st.pmem|) else st.dmem;
        var st1 := st.(tables := t, dmem := dmem);
        var r := StripLabels(st1, line[1..], number);
        if r.Ok? then
          StrippedCons(st, line, st1, r.value.0, r.value.1, name);
          r
        else r
    else if exists i :: 0 <= i < |line| && line[i].kind == LABEL then Err(Error(IllegalLabelLocation, number))
    else Ok((st, line))
  }

  /** An instruction line placed in program memory, with the continuation slot. */
  function Place(st: Image, line: seq<Token>, number: int): (st': Image)
    requires Good(st) && line != []
    ensures Good(st') && st'.tables == st.tables && st'.dmem == st.dmem && st'.globals == st.globals
    ensures st'.pmem == st.pmem + (if TwoWord(line[0].value) then [Some(line), None] else [Some(line)])
    ensures st'.fileLines == st.fileLines + (if TwoWord(line[0].value) then [number, number] else [number])
  {
    if TwoWord(line[0].value) then
      st.(pmem := st.pmem + [Some(line), None], fileLines := st.fileLines + [number, number])
    else st.(pmem := st.pmem + [Some(line)], fileLines := st.fileLines + [number])
  }

  /** One line of the text section. */
  function TextLine(st: Image, line: seq<Token>, number: int): (r: Result<Image>)
    requires Good(st)
    ensures r.Ok? ==> Good(r.value) && |r.value.dmem| == |st.dmem|
  {
    match StripLabels(st, line, number)
    case Err(e) => Err(e)
    case Ok((st1, rest)) =>
      if rest == [] then Ok(st1)
      else if rest[0].kind == DIR && rest[0].value == VStr(".GLOBAL") then
        if |st1.pmem| > 0 then Err(Error(IllegalGlobal, number))
        else if |rest| != 2 then Err(Error(GlobalArgCount, number))
        else if rest[1].kind != REF then Err(Error(GlobalArgType, number))
        else Ok(st1.(globals := st1.globals + [rest[1].value]))
      else if rest[0].kind != INST then Err(Error(IllegalTextToken, number))
      else Ok(Place(st1, rest, number))
  }

  /** The text-section loop from line `k` up to, not including, the `.end` line. */
  function TextFrom(st: Image, lines: seq<seq<Token>>, numbers: seq<int>, k: nat): (r: Result<Image>)
    requires Good(st) && |numbers| == |lines| && 0 < |lines| && k <= |lines| - 1
    ensures r.Ok? ==> Good(r.value) && |r.value.dmem| == |st.dmem|
    decreases |lines| - k
  {
    if k == |lines| - 1 then Ok(st)
    else match TextLine(st, lines[k], numbers[k])
      case Err(e) => Err(e)
      case Ok(st') => TextFrom(st', lines, numbers, k + 1)
  }

  /** The first `.global` name that is not a label, if any. */
  function UnlabelledGlobal(labels: map<string, int>, globals: seq<Value>): (r: Option<Value>)
    ensures r.None? <==> forall i :: 0 <= i < |globals| ==> ValueText(globals[i]) in labels
    ensures r.Some? ==> r.value in globals && ValueText(r.value) !in labels
  {
    if globals == [] then None
    else if ValueText(globals[0]) !in labels then Some(globals[0])
    else
      var r := UnlabelledGlobal(labels, globals[1..]);
      assert forall i :: 1 <= i < |globals| ==> globals[i] == globals[1..][i - 1];
      r
  }

  /** The text section from the `.global` line after `.section .text` (at index `ts`) to
      the line before `.end`, then the size check and the check that every `.global` name is
      a label. */
  function BuildText(lines: seq<seq<Token>>, numbers: seq<int>, ts: nat): (r: Result<Image>)
    requires Shaped(lines, numbers) && ts + 1 < |lines| && IsEndLine(lines[|lines| - 1])
    ensures r.Ok? ==> Good(r.value) && |r.value.pmem| <= FLASHEND && |r.value.dmem| == 256
    ensures r.Ok? ==> forall i :: 0 <= i < |r.value.globals| ==> ValueText(r.value.globals[i]) in r.value.tables.labels
  {
    var g := lines[ts + 1];
    if |g| != 2 || g[0].value != VStr(".GLOBAL") then Err(Error(MissingGlobal, numbers[ts + 1]))
    else
      var st0 := Image(Seeded(), [], [], Registers(), [g[1].value]);
      TextChecked(TextFrom(st0, lines, numbers, ts + 2))
  }

  /** The checks after the last line of the text section: program memory within
      `FLASHEND` and a label for every `.global` name. */
  function TextChecked(t: Result<Image>): (r: Result<Image>)
    ensures t.Err? ==> r == t
    ensures r.Ok? <==> t.Ok? && |t.value.pmem| <= FLASHEND && UnlabelledGlobal(t.value.tables.labels, t.value.globals).None?
    ensures r.Ok? ==> r == t
  {
    match t
    case Err(e) => Err(e)
    case Ok(st) =>
      if |st.pmem| > FLASHEND then Err(Error(TooMuchCode, 0))
      else if UnlabelledGlobal(st.tables.labels, st.globals).Some? then Err(Error(GlobalLabelMissing, 0))
      else Ok(st)
  }

  // ---------------------------------------------------------------------------
  // properties of the build

  /** Program memory's shape: every occupied slot holds an instruction line; every
      two-word instruction is followed by exactly one empty slot, and no other slot is
      empty. */
  predicate Slotted(pmem: seq<Option<seq<Token>>>) {
    && (forall i :: 0 <= i < |pmem| && pmem[i].Some? ==> pmem[i].value != [] && pmem[i].value[0].kind == INST)
    && (forall i :: 0 <= i < |pmem| && pmem[i].Some? && TwoWord(pmem[i].value[0].value) ==>
          i + 1 < |pmem| && pmem[i + 1].None?)
    && (forall i :: 0 <= i < |pmem| && pmem[i].None? ==>
          0 < i && pmem[i - 1].Some? && TwoWord(pmem[i - 1].value[0].value))
  }

  lemma PlaceSlotted(st: Image, line: seq<Token>, number: int)
    requires Good(st) && line != [] && line[0].kind == INST && Slotted(st.pmem)
    ensures Slotted(Place(st, line, number).pmem)
  {
    var p := Place(st, line, number).pmem;
    var n := |st.pmem|;
    assert forall i :: 0 <= i < n ==> p[i] == st.pmem[i];
    assert p[n] == Some(line);
  }

  lemma TextLineSlotted(st: Image, line: seq<Token>, number: int)
    requires Good(st) && Slotted(st.pmem)
    ensures TextLine(st, line, number).Ok? ==> Slotted(TextLine(st, line, number).value.pmem)
  {
    var r := StripLabels(st, line, number);
    if r.Ok? {
      var (st1, rest) := r.value;
      if rest != [] && rest[0].kind == INST {
        PlaceSlotted(st1, rest, number);
      }
    }
  }

  lemma {:induction false} TextFromSlotted(st: Image, lines: seq<seq<Token>>, numbers: seq<int>, k: nat)
    requires Good(st) && |numbers| == |lines| && 0 < |lines| && k <= |lines| - 1 && Slotted(st.pmem)
    ensures TextFrom(st, lines, numbers, k).Ok? ==> Slotted(TextFrom(st, lines, numbers, k).value.pmem)
    decreases |lines| - k
  {
    if k < |lines| - 1 && TextLine(st, lines[k], numbers[k]).Ok? {
      TextLineSlotted(st, lines[k], numbers[k]);
      TextFromSlotted(TextLine(st, lines[k], numbers[k]).value, lines, numbers, k + 1);
    }
  }

  /** A built text section has the continuation-slot shape. */
  lemma BuildTextSlotted(lines: seq<seq<Token>>, numbers: seq<int>, ts: nat)
    requires Shaped(lines, numbers) && ts + 1 < |lines| && IsEndLine(lines[|lines| - 1])
    ensures BuildText(lines, numbers, ts).Ok? ==> Slotted(BuildText(lines, numbers, ts).value.pmem)
  {
    var g := lines[ts + 1];
    if BuildText(lines, numbers, ts).Ok? {
      var st0 := Image(Seeded(), [], [], Registers(), [g[1].value]);
      TextFromSlotted(st0, lines, numbers, ts + 2);
    }
  }

  /** A line's labels are bound to the program-memory index its instruction gets; labels
      bound before keep their address. */
  lemma LabelsMarkTheirLine(st: Image, line: seq<Token>, number: int)
    requires Good(st)
    ensures TextLine(st, line, number).Ok? ==>
              var st' := TextLine(st, line, number).value;
              && (forall n :: n in st.tables.labels ==> n in st'.tables.labels && st'.tables.labels[n] == st.tables.labels[n])
              && (forall n :: n in st'.tables.labels && n !in st.tables.labels ==> st'.tables.labels[n] == |st.pmem|)
              && |st'.pmem| >= |st.pmem| && st'.pmem[..|st.pmem|] == st.pmem
              && (|st'.pmem| > |st.pmem| ==> st'.pmem[|st.pmem|].Some? && st'.fileLines[|st.pmem|] == number)
  {
    var r := StripLabels(st, line, number);
    var res := TextLine(st, line, number);
    if res.Ok? {
      var (st1, rest) := r.value;
      var st' := res.value;
      TextLineCases(st, line, number);
      if rest != [] && rest[0].kind == INST {
        assert st'.pmem[..|st.pmem|] == st.pmem;
      }
      StrippedLabels(st, line, st1, rest, st');
    }
  }

  /** A line that succeeds has had its labels stripped, and then either placed an
      instruction or left program memory and the labels as they were after the strip. */
  lemma TextLineCases(st: Image, line: seq<Token>, number: int)
    requires Good(st) && TextLine(st, line, number).Ok?
    ensures StripLabels(st, line, number).Ok?
    ensures var (st1, rest) := StripLabels(st, line, number).value;
            var st' := TextLine(st, line, number).value;
            && st'.tables == st1.tables
            && if rest != [] && rest[0].kind == INST then st' == Place(st1, rest, number)
               else st'.pmem == st1.pmem
  {
  }

  /** The labels a line leaves behind are those its leading labels bound. */
  lemma StrippedLabels(st: Image, line: seq<Token>, st1: Image, rest: seq<Token>, st': Image)
    requires Stripped(st, line, st1, rest) && st'.tables.labels == st1.tables.labels
    ensures forall n :: n in st.tables.labels ==> n in st'.tables.labels && st'.tables.labels[n] == st.tables.labels[n]
    ensures forall n :: n in st'.tables.labels && n !in st.tables.labels ==> st'.tables.labels[n] == |st.pmem|
  {
  }

  /** Over the whole loop, labels are never rebound, and every label bound in it points
      into the program memory built so far (at most one past its end, for a label on the
      last lines with no instruction after it). */
  lemma {:induction false} TextFromLabels(st: Image, lines: seq<seq<Token>>, numbers: seq<int>, k: nat)
    requires Good(st) && |numbers| == |lines| && 0 < |lines| && k <= |lines| - 1
    ensures TextFrom(st, lines, numbers, k).Ok? ==>
              var st' := TextFrom(st, lines, numbers, k).value;
              && (forall n :: n in st.tables.labels ==> n in st'.tables.labels && st'.tables.labels[n] == st.tables.labels[n])
              && (forall n :: n in st'.tables.labels && n !in st.tables.labels ==>
                    |st.pmem| <= st'.tables.labels[n] <= |st'.pmem|)
              && |st'.pmem| >= |st.pmem| && st'.pmem[..|st.pmem|] == st.pmem
    decreases |lines| - k
  {
    if k < |lines| - 1 && TextLine(st, lines[k], numbers[k]).Ok? {
      var st1 := TextLine(st, lines[k], numbers[k]).value;
      LabelsMarkTheirLine(st, lines[k], numbers[k]);
      TextFromLabels(st1, lines, numbers, k + 1);
      if TextFrom(st, lines, numbers, k).Ok? {
        var st' := TextFrom(st, lines, numbers, k).value;
        assert st'.pmem[..|st.pmem|] == st'.pmem[..|st1.pmem|][..|st.pmem|];
      }
    }
  }

  /** The entry cells hold the address of the first `.global` name once it is bound as a
      label, and zero before. */
  predicate EntryRecorded(st: Image)
    requires Good(st)
  {
    var g := st.globals[0];
    if g.VStr? && g.s in st.tables.labels then
      st.tables.labels[g.s] >= 0 && st.dmem[ENTRY_LO] == Lo8(VInt(st.tables.labels[g.s]))
      && st.dmem[ENTRY_HI] == Hi8(VInt(st.tables.labels[g.s]))
    else st.dmem[ENTRY_LO] == 0 && st.dmem[ENTRY_HI] == 0
  }

  lemma {:induction false} StripLabelsEntry(st: Image, line: seq<Token>, number: int)
    requires Good(st) && EntryRecorded(st)
    ensures StripLabels(st, line, number).Ok? ==> EntryRecorded(StripLabels(st, line, number).value.0)
    decreases |line|
  {
    if line != [] && line[0].kind == LABEL {
      var name := LabelName(line[0].value);
      if NewLabel(st.tables, name, |st.pmem|, number).Ok? {
        var t := NewLabel(st.tables, name, |st.pmem|, number).value;
        var dmem := if VStr(name) == st.globals[0] then SetEntry(st.dmem, |st.pmem|) else st.dmem;
        var st1 := st.(tables := t, dmem := dmem);
        StripLabelsEntry(st1, line[1..], number);
      }
    }
  }

  lemma TextLineEntry(st: Image, line: seq<Token>, number: int)
    requires Good(st) && EntryRecorded(st)
    ensures TextLine(st, line, number).Ok? ==> EntryRecorded(TextLine(st, line, number).value)
  {
    StripLabelsEntry(st, line, number);
    var s := StripLabels(st, line, number);
    if s.Ok? && TextLine(st, line, number).Ok? {
      var (st1, rest) := s.value;
      var r := TextLine(st, line, number).value;
      if rest != [] && rest[0].kind == DIR && rest[0].value == VStr(".GLOBAL") {
        assert r == st1.(globals := st1.globals + [rest[1].value]);
      } else if rest != [] {
        assert r == Place(st1, rest, number);
      }
      EntryRecordedSame(st1, r);
    }
  }

  lemma EntryRecordedSame(a: Image, b: Image)
    requires Good(a) && Good(b) && EntryRecorded(a)
    requires a.tables == b.tables && a.dmem == b.dmem && a.globals[0] == b.globals[0]
    ensures EntryRecorded(b)
  {
  }

  lemma {:induction false} TextFromEntry(st: Image, lines: seq<seq<Token>>, numbers: seq<int>, k: nat)
    requires Good(st) && |numbers| == |lines| && 0 < |lines| && k <= |lines| - 1 && EntryRecorded(st)
    ensures TextFrom(st, lines, numbers, k).Ok? ==> EntryRecorded(TextFrom(st, lines, numbers, k).value)
    decreases |lines| - k
  {
    if k < |lines| - 1 && TextLine(st, lines[k], numbers[k]).Ok? {
      TextLineEntry(st, lines[k], numbers[k]);
      TextFromEntry(TextLine(st, lines[k], numbers[k]).value, lines, numbers, k + 1);
    }
  }

  /** The entry cells of data memory hold the two bytes of the address of the first
      `.global` label (when its name was written as a reference). */
  predicate EntryStored(dmem: seq<Byte>, tables: Tables, globals: seq<Value>) {
    && |globals| > 0 && |dmem| > ENTRY_HI
    && (globals[0].VStr? ==>
          globals[0].s in tables.labels
          && dmem[ENTRY_LO] == Lo8(VInt(tables.labels[globals[0].s]))
          && dmem[ENTRY_HI] == Hi8(VInt(tables.labels[globals[0].s])))
  }

  /** After a successful build, the entry cells hold the two bytes of the address of the
      first `.global` label (when its name was written as a reference). */
  lemma BuildTextEntry(lines: seq<seq<Token>>, numbers: seq<int>, ts: nat)
    requires Shaped(lines, numbers) && ts + 1 < |lines| && IsEndLine(lines[|lines| - 1])
    ensures BuildText(lines, numbers, ts).Ok? ==>
              var st := BuildText(lines, numbers, ts).value;
              EntryStored(st.dmem, st.tables, st.globals)
  {
    var g := lines[ts + 1];
    if BuildText(lines, numbers, ts).Ok? {
      var st0 := Image(Seeded(), [], [], Registers(), [g[1].value]);
      TextFromEntry(st0, lines, numbers, ts + 2);
      var st := BuildText(lines, numbers, ts).value;
      assert ValueText(st.globals[0]) in st.tables.labels;
    }
  }
}
