/** The `Parser` object (simulator.js:584-1424): `newData` resets the tables and memories,
    `parse` runs its passes one after the other over the object's fields, and `newData` then
    fills both memories up to their full size. Each pass is a loop over the fields, proved
    to compute what the corresponding pass of the assembler computes. */
module Parsing {
  import opened Base
  import opened Tokens
  import opened Isa
  import opened Symbols
  import opened Sections
  import opened TextSection
  import opened DataSection
  import opened Resolve
  import opened Assembler

  /** The lines already done in front of what a pass still has to do. */
  function Then<T>(done: seq<T>, r: Result<seq<T>>): Result<seq<T>> {
    if r.Ok? then Ok(done + r.value) else r
  }

  /** One more line of the normalisation pass moves from "to do" to "done". */
  lemma NormaliseStep(lines: seq<seq<Token>>, numbers: seq<int>, k: nat, done: seq<seq<Token>>)
    requires Shaped(lines, numbers) && k < |lines|
    ensures NormaliseLine(lines[k], numbers[k]).Err? ==>
              Then(done, NormaliseFrom(lines, numbers, k)) == Err(NormaliseLine(lines[k], numbers[k]).error)
    ensures NormaliseLine(lines[k], numbers[k]).Ok? ==>
              Then(done, NormaliseFrom(lines, numbers, k)) ==
              Then(done + [NormaliseLine(lines[k], numbers[k]).value], NormaliseFrom(lines, numbers, k + 1))
  {
    var rest := NormaliseFrom(lines, numbers, k + 1);
    if NormaliseLine(lines[k], numbers[k]).Ok? && rest.Ok? {
      var line := NormaliseLine(lines[k], numbers[k]).value;
      assert done + ([line] + rest.value) == done + [line] + rest.value;
    }
  }

  /** The search for the text section after the checks on the first and the last line. */
  method SectionStart(lines: seq<seq<Token>>, numbers: seq<int>) returns (r: Result<nat>)
    requires Shaped(lines, numbers)
    ensures r == CheckSections(lines, numbers)
  {
    if |lines| == 0 {
      return Err(Error(EmptyProgram, 0));
    }
    var first := lines[0];
    if !IsSectionLine(first) {
      return Err(Error(FirstLineNotSection, 0));
    }
    if !ValidSection(first) {
      return Err(Error(FirstLineBadSection, 0));
    }
    var last := lines[|lines| - 1];
    if |last| > 1 || last[0].kind != DIR || last[0].value != VStr(".END") {
      return Err(Error(FinalLineNotEnd, 0));
    }
    var k := 0;
    while k < |lines|
      invariant k <= |lines|
      invariant FindText(lines, numbers, 0) == FindText(lines, numbers, k)
      decreases |lines| - k
    {
      var line := lines[k];
      if IsSectionLine(line) {
        if !ValidSection(line) {
          return Err(Error(InvalidSection, numbers[k]));
        }
        if line[1].value == VStr(".TEXT") {
          return Ok(k);
        }
      }
      k := k + 1;
    }
    return Err(Error(NoTextSection, 0));
  }

  class Parser {
    var tokenLines: seq<seq<Token>>
    var lineNumbers: seq<int>
    var labels: map<string, int>
    var equs: map<string, Value>
    var defs: map<string, int>
    /** Program memory while it still holds token lines. */
    var pmemLines: seq<Option<seq<Token>>>
    var pmemLineNumbers: seq<int>
    var dmem: seq<Byte>
    var globals: seq<Value>
    /** Program memory once the final pass has made instructions of its lines. */
    var pmem: seq<Option<Instr>>

    /** The build state held in the fields. */
    function Snapshot(): Image
      reads this
    {
      Image(Tables(labels, equs, defs), pmemLines, pmemLineNumbers, dmem, globals)
    }

    /** What the parser hands to the interpreter. */
    function Output(): Program
      reads this
    {
      Program(pmem, dmem, pmemLineNumbers, Tables(labels, equs, defs), globals)
    }

    constructor()
      ensures tokenLines == [] && lineNumbers == [] && pmem == [] && dmem == []
      ensures Snapshot() == Image(Tables(map[], map[], map[]), [], [], [], [])
    {
      tokenLines := [];
      lineNumbers := [];
      labels := map[];
      equs := map[];
      defs := map[];
      pmemLines := [];
      pmemLineNumbers := [];
      dmem := [];
      globals := [];
      pmem := [];
    }

    /** Stores a build state in the fields. */
    method Store(st: Image)
      modifies this
      ensures Snapshot() == st
      ensures tokenLines == old(tokenLines) && lineNumbers == old(lineNumbers) && pmem == old(pmem)
    {
      labels := st.tables.labels;
      equs := st.tables.equs;
      defs := st.tables.defs;
      pmemLines := st.pmem;
      pmemLineNumbers := st.fileLines;
      dmem := st.dmem;
      globals := st.globals;
    }

    /** The token pass: every line normalised, the lines replaced once all are done. */
    method NormaliseTokens() returns (r: Outcome)
      requires Shaped(tokenLines, lineNumbers)
      modifies this`tokenLines
      ensures var n := NormaliseFrom(old(tokenLines), lineNumbers, 0);
              && (n.Ok? ==> r == Pass && tokenLines == n.value)
              && (n.Err? ==> r == Fail(n.error))
    {
      var lines, numbers := tokenLines, lineNumbers;
      var out: seq<seq<Token>> := [];
      assert Then(out, NormaliseFrom(lines, numbers, 0)) == NormaliseFrom(lines, numbers, 0) by {
        if NormaliseFrom(lines, numbers, 0).Ok? { assert [] + NormaliseFrom(lines, numbers, 0).value == NormaliseFrom(lines, numbers, 0).value; }
      }
      var k := 0;
      while k < |lines|
        invariant k <= |lines|
        invariant NormaliseFrom(lines, numbers, 0) == Then(out, NormaliseFrom(lines, numbers, k))
        decreases |lines| - k
      {
        var line := NormaliseLine(lines[k], numbers[k]);
        NormaliseStep(lines, numbers, k, out);
        if line.Err? {
          return Fail(line.error);
        }
        out := out + [line.value];
        k := k + 1;
      }
      assert out + [] == out;
      tokenLines := out;
      return Pass;
    }

    /** The text-section pass: the tables and memories reset, the `.global` line, then
        every line up to `.end`, then the size and `.global` checks. */
    method TextPass(ts: nat) returns (r: Outcome)
      requires Shaped(tokenLines, lineNumbers) && ts + 1 < |tokenLines| && IsEndLine(tokenLines[|tokenLines| - 1])
      modifies this
      ensures tokenLines == old(tokenLines) && lineNumbers == old(lineNumbers) && pmem == old(pmem)
      ensures var b := BuildText(tokenLines, lineNumbers, ts);
              && (b.Ok? ==> r == Pass && Snapshot() == b.value)
              && (b.Err? ==> r == Fail(b.error))
    {
      var g := tokenLines[ts + 1];
      if |g| != 2 || g[0].value != VStr(".GLOBAL") {
        return Fail(Error(MissingGlobal, lineNumbers[ts + 1]));
      }
      var st0 := Image(Seeded(), [], [], Registers(), [g[1].value]);
      ghost var t := TextFrom(st0, tokenLines, lineNumbers, ts + 2);
      assert BuildText(tokenLines, lineNumbers, ts) == TextChecked(t);
      Store(st0);
      r := TextLines(ts + 2);
      if r.Fail? {
        return;
      }
      if |pmemLines| > FLASHEND {
        return Fail(Error(TooMuchCode, 0));
      }
      if UnlabelledGlobal(labels, globals).Some? {
        return Fail(Error(GlobalLabelMissing, 0));
      }
      return Pass;
    }

    /** The lines of the text section from line `start` up to `.end`, applied one after the
        other to the state held in the fields; the state reached is stored when the last line
        is done. */
    method TextLines(start: nat) returns (r: Outcome)
      requires Shaped(tokenLines, lineNumbers) && start <= |tokenLines| - 1 && Good(Snapshot())
      modifies this
      ensures tokenLines == old(tokenLines) && lineNumbers == old(lineNumbers) && pmem == old(pmem)
      ensures var t := TextFrom(old(Snapshot()), tokenLines, lineNumbers, start);
              && (t.Ok? ==> r == Pass && Snapshot() == t.value)
              && (t.Err? ==> r == Fail(t.error))
    {
      var lines, numbers := tokenLines, lineNumbers;
      var cur := Snapshot();
      ghost var st0 := cur;
      var k := start;
      while k < |lines| - 1
        invariant start <= k <= |lines| - 1 && Good(cur)
        invariant TextFrom(st0, lines, numbers, start) == TextFrom(cur, lines, numbers, k)
        decreases |lines| - k
      {
        var next := TextLine(cur, lines[k], numbers[k]);
        if next.Err? {
          return Fail(next.error);
        }
        cur := next.value;
        k := k + 1;
        assert TextFrom(st0, lines, numbers, start) == TextFrom(cur, lines, numbers, k);
      }
      Store(cur);
      return Pass;
    }

    /** The data-section pass over the lines after `.section .data`, then the size check. */
    method DataPass(ts: nat) returns (r: Outcome)
      requires Shaped(tokenLines, lineNumbers) && ts < |tokenLines|
      modifies this
      ensures tokenLines == old(tokenLines) && lineNumbers == old(lineNumbers) && pmem == old(pmem)
      ensures var b := BuildData(old(Snapshot()), tokenLines, lineNumbers, ts);
              && (b.Ok? ==> r == Pass && Snapshot() == b.value)
              && (b.Err? ==> r == Fail(b.error))
    {
      ghost var st0 := Snapshot();
      if ts != 0 {
        var k := 1;
        while k < ts
          invariant tokenLines == old(tokenLines) && lineNumbers == old(lineNumbers) && pmem == old(pmem)
          invariant 1 <= k <= ts
          invariant DataFrom(st0, tokenLines, lineNumbers, 1, ts) == DataFrom(Snapshot(), tokenLines, lineNumbers, k, ts)
          decreases ts - k
        {
          var next := DataLine(Snapshot(), tokenLines[k], lineNumbers[k]);
          if next.Err? {
            return Fail(next.error);
          }
          Store(next.value);
          k := k + 1;
        }
      }
      if |dmem| > RAMEND {
        return Fail(Error(TooMuchData, 0));
      }
      return Pass;
    }

    /** The reference pass: every instruction line of program memory resolved in place. */
    method ResolvePass() returns (r: Outcome)
      requires Slotted(pmemLines) && |pmemLineNumbers| == |pmemLines|
      modifies this`pmemLines
      ensures var p := ResolveFrom(Tables(labels, equs, defs), old(pmemLines), pmemLineNumbers);
              && (p.Ok? ==> r == Pass && pmemLines == p.value)
              && (p.Err? ==> r == Fail(p.error))
    {
      ghost var orig := pmemLines;
      var t := Tables(labels, equs, defs);
      var i := 0;
      while i < |pmemLines|
        invariant |pmemLines| == |orig| && i <= |orig|
        invariant forall j :: i <= j < |orig| ==> pmemLines[j] == orig[j]
        invariant forall j :: 0 <= j < i ==> (orig[j].None? <==> pmemLines[j].None?)
        invariant forall j :: 0 <= j < i && orig[j].Some? ==>
                    ResolveLine(t, orig[j].value, j, pmemLineNumbers[j]) == Ok(pmemLines[j].value)
        decreases |orig| - i
      {
        if pmemLines[i].Some? {
          var line := ResolveLine(t, pmemLines[i].value, i, pmemLineNumbers[i]);
          if line.Err? {
            ResolveFirstError(t, orig, pmemLineNumbers, i);
            return Fail(line.error);
          }
          pmemLines := pmemLines[i := Some(line.value)];
        }
        i := i + 1;
      }
      ResolveSucceeds(t, orig, pmemLineNumbers, pmemLines);
      return Pass;
    }

    /** The final pass: every instruction line checked and made an instruction. */
    method FinishPass() returns (r: Outcome)
      requires Slotted(pmemLines) && |pmemLineNumbers| == |pmemLines|
      modifies this`pmem
      ensures var p := FinishFrom(pmemLines, pmemLineNumbers);
              && (p.Ok? ==> r == Pass && pmem == p.value)
              && (p.Err? ==> r == Fail(p.error))
    {
      var lines, numbers := pmemLines, pmemLineNumbers;
      var code: seq<Option<Instr>> := [];
      var i := 0;
      while i < |lines|
        invariant i <= |lines| && |code| == i
        invariant forall j :: 0 <= j < i ==> (lines[j].None? <==> code[j].None?)
        invariant forall j :: 0 <= j < i && lines[j].Some? ==> FinishLine(lines[j].value, numbers[j]) == Ok(code[j].value)
        decreases |lines| - i
      {
        var slot: Option<Instr> := None;
        if lines[i].Some? {
          var ins := FinishLine(lines[i].value, numbers[i]);
          if ins.Err? {
            FinishFirstError(lines, numbers, i);
            return Fail(ins.error);
          }
          slot := Some(ins.value);
        }
        FinishedOneMore(lines, numbers, code, i, slot);
        code := code + [slot];
        i := i + 1;
      }
      FinishSucceeds(lines, numbers, code);
      pmem := code;
      return Pass;
    }

    /** The section checks and the token pass. */
    method Check() returns (r: Result<nat>)
      requires Shaped(tokenLines, lineNumbers)
      modifies this`tokenLines
      ensures var c := Checked(old(tokenLines), lineNumbers);
              && (c.Err? ==> r == Err(c.error))
              && (c.Ok? ==> r == Ok(c.value.1) && tokenLines == c.value.0)
    {
      ghost var lines := tokenLines;
      r := SectionStart(tokenLines, lineNumbers);
      if r.Err? {
        return;
      }
      NormalisedSections(lines, lineNumbers, r.value);
      var n := NormaliseTokens();
      if n.Fail? {
        return Err(n.error);
      }
    }

    /** The text section, then the data section. */
    method Sections(ts: nat) returns (r: Outcome)
      requires Shaped(tokenLines, lineNumbers) && ts + 1 < |tokenLines| && IsEndLine(tokenLines[|tokenLines| - 1])
      modifies this
      ensures tokenLines == old(tokenLines) && lineNumbers == old(lineNumbers)
      ensures var b := Built(tokenLines, lineNumbers, ts);
              && (b.Err? ==> r == Fail(b.error))
              && (b.Ok? ==> r == Pass && Snapshot() == b.value)
    {
      ghost var lines, numbers := tokenLines, lineNumbers;
      BuiltInTwo(lines, numbers, ts);
      BuildTextSlotted(lines, numbers, ts);
      r := TextPass(ts);
      if r.Fail? {
        return;
      }
      ghost var text := Snapshot();
      assert text == BuildText(lines, numbers, ts).value;
      r := DataPass(ts);
      assert Built(lines, numbers, ts) == BuildData(text, lines, numbers, ts);
    }

    /** The passes up to the data section: the section checks, the token pass, the text
        section and the data section. */
    method Build() returns (r: Outcome)
      requires Shaped(tokenLines, lineNumbers)
      modifies this
      ensures lineNumbers == old(lineNumbers)
      ensures var c := Checked(old(tokenLines), lineNumbers);
              && (c.Err? ==> r == Fail(c.error))
              && (c.Ok? ==> var b := Built(c.value.0, lineNumbers, c.value.1);
                              && (b.Err? ==> r == Fail(b.error))
                              && (b.Ok? ==> r == Pass && Snapshot() == b.value))
    {
      var ts := Check();
      if ts.Err? {
        return Fail(ts.error);
      }
      r := Sections(ts.value);
    }

    /** The reference pass and the final pass over the built memories. */
    method Complete() returns (r: Outcome)
      requires Slotted(pmemLines) && |pmemLineNumbers| == |pmemLines| && |pmemLines| <= FLASHEND && |dmem| <= RAMEND
      modifies this
      ensures var c := Completed(old(Snapshot()));
              && (c.Err? ==> r == Fail(c.error))
              && (c.Ok? ==> r == Pass && |pmem| <= FLASHEND && |dmem| <= RAMEND
                            && Output().(pmem := PadCode(pmem), dmem := PadData(dmem)) == c.value)
    {
      ghost var built := Snapshot();
      ResolveSlotted(built.tables, built.pmem, built.fileLines);
      r := ResolvePass();
      if r.Fail? {
        return;
      }
      r := FinishPass();
    }

    /** `parse`: the passes in order, each stopping at its first error; on success both
        memories are at most their full size, and padding them gives what the assembler
        computes. */
    method Parse() returns (r: Outcome)
      requires Shaped(tokenLines, lineNumbers)
      modifies this
      ensures var a := Assemble(old(tokenLines), old(lineNumbers));
              && (a.Err? ==> r == Fail(a.error))
              && (a.Ok? ==> r == Pass && |pmem| <= FLASHEND && |dmem| <= RAMEND
                            && a.value == Output().(pmem := PadCode(pmem), dmem := PadData(dmem)))
    {
      r := Build();
      if r.Pass? {
        r := Complete();
      }
    }

    /** Data memory filled with zeros up to `RAMEND`. */
    method FillData()
      requires |dmem| <= RAMEND + 1
      modifies this`dmem
      ensures dmem == PadData(old(dmem))
    {
      ghost var d0 := dmem;
      while |dmem| < RAMEND + 1
        invariant |d0| <= |dmem| <= RAMEND + 1
        invariant dmem[..|d0|] == d0 && forall i :: |d0| <= i < |dmem| ==> dmem[i] == 0
        decreases RAMEND + 1 - |dmem|
      {
        dmem := dmem + [0];
      }
    }

    /** Program memory filled with `NOP` up to `FLASHEND`. */
    method FillCode()
      requires |pmem| <= FLASHEND + 1
      modifies this`pmem
      ensures pmem == PadCode(old(pmem))
    {
      ghost var p0 := pmem;
      while |pmem| < FLASHEND + 1
        invariant |p0| <= |pmem| <= FLASHEND + 1
        invariant pmem[..|p0|] == p0 && forall i :: |p0| <= i < |pmem| ==> pmem[i] == Some(NopInstr)
        decreases FLASHEND + 1 - |pmem|
      {
        pmem := pmem + [Some(NopInstr)];
      }
    }

    /** Both memories filled up to their full size after a successful parse. */
    method Fill()
      requires |pmem| <= FLASHEND && |dmem| <= RAMEND
      modifies this`pmem, this`dmem
      ensures Output() == old(Output().(pmem := PadCode(pmem), dmem := PadData(dmem)))
    {
      FillData();
      FillCode();
    }

    /** `newData`: keep the token lines, parse them, then fill data memory with zeros and
        program memory with `NOP` up to their full size. */
    method NewData(lines: seq<seq<Token>>, numbers: seq<int>) returns (r: Outcome)
      requires Shaped(lines, numbers)
      modifies this
      ensures var a := Assemble(lines, numbers);
              && (a.Err? ==> r == Fail(a.error))
              && (a.Ok? ==> r == Pass && Output() == a.value)
    {
      tokenLines := lines;
      lineNumbers := numbers;
      r := Parse();
      if r.Pass? {
        Fill();
      }
    }
  }
}
