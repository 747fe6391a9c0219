/** The data-section pass of `Parser.parse` (simulator.js:968-1205): every line between
    `.section .data` and `.section .text` is a directive, optionally after a label bound to
    the current data-memory length, and the directive appends bytes to data memory or
    defines an equ. */
module DataSection {
  import opened Base
  import opened Tokens
  import opened Symbols
  import opened Sections
  import opened Expr
  import opened TextSection

  // ---------------------------------------------------------------------------
  // string directives

  /** The UTF-16 code units of a character, as a JavaScript string holds it: one unit up to
      U+FFFF, a surrogate pair above. */
  function UnitsOf(c: char): (u: seq<int>)
    ensures 1 <= |u| <= 2 && forall i :: 0 <= i < |u| ==> 0 <= u[i] < 0x10000
    ensures |u| == 2 <==> c as int >= 0x10000
    ensures |u| == 2 ==> 0xD800 <= u[0] < 0xDC00 && 0xDC00 <= u[1] < 0xE000
  {
    var v := c as int;
    if v < 0x10000 then [v] else [0xD800 + (v - 0x10000) / 0x400, 0xDC00 + (v - 0x10000) % 0x400]
  }

  /** The code units of a text: what `length` counts and `text[i]` indexes. */
  function Units(s: string): (u: seq<int>)
    ensures |u| >= |s|
    decreases |s|
  {
    if s == [] then [] else UnitsOf(s[0]) + Units(s[1..])
  }

  lemma {:induction false} UnitsAppend(a: string, b: string)
    ensures Units(a + b) == Units(a) + Units(b)
    decreases |a|
  {
    if a != [] {
      assert (a + b)[0] == a[0] && (a + b)[1..] == a[1..] + b;
      assert Units(a + b) == UnitsOf(a[0]) + Units(a[1..] + b);
      assert Units(a) == UnitsOf(a[0]) + Units(a[1..]);
      UnitsAppend(a[1..], b);
    } else {
      assert a + b == b;
    }
  }

  /** The escape table of the string directives: `\\ \n \t \" \' \r \a \b \f \v \0`. */
  function EscapeCode(c: int): Option<int> {
    if c == '\\' as int then Some(0x5c)
    else if c == 'n' as int then Some(0x0a)
    else if c == 't' as int then Some(0x09)
    else if c == '"' as int then Some(0x22)
    else if c == '\'' as int then Some(0x27)
    else if c == 'r' as int then Some(0x0d)
    else if c == 'a' as int then Some(0x07)
    else if c == 'b' as int then Some(0x08)
    else if c == 'f' as int then Some(0x0c)
    else if c == 'v' as int then Some(0x0b)
    else if c == '0' as int then Some(0x00)
    else None
  }

  /** `charCodeAt(0) & 0xff` of a code unit. */
  function UnitByte(u: int): Byte { u % 256 }

  /** The bytes of a string's code units: each unit's low byte, with a backslash and the
      unit after it read through the escape table. A backslash at the end or before a unit
      outside the table is an error. */
  function Unescape(u: seq<int>, number: int): (r: Result<seq<Byte>>)
    ensures r.Err? ==> r.error == Error(BadEscape, number)
    decreases |u|
  {
    if u == [] then Ok([])
    else if u[0] == '\\' as int then
      if |u| == 1 then Err(Error(BadEscape, number))
      else match EscapeCode(u[1])
        case None => Err(Error(BadEscape, number))
        case Some(b) =>
          (match Unescape(u[2..], number)
           case Err(e) => Err(e)
           case Ok(rest) => Ok([b] + rest))
    else
      match Unescape(u[1..], number)
      case Err(e) => Err(e)
      case Ok(rest) => Ok([UnitByte(u[0])] + rest)
  }

  /** The escape sequence for each character that has one, the character itself for the
      others: the inverse of the escape table. */
  function EscapeChar(c: char): string {
    if c == '\\' then "\\\\"
    else if c == '\n' then "\\n"
    else if c == '\t' then "\\t"
    else if c == '"' then "\\\""
    else if c == '\'' then "\\'"
    else if c == '\r' then "\\r"
    else if c == '\U{0007}' then "\\a"
    else if c == '\U{0008}' then "\\b"
    else if c == '\U{000C}' then "\\f"
    else if c == '\U{000B}' then "\\v"
    else if c == '\U{0000}' then "\\0"
    else [c]
  }

  function Escape(t: string): string {
    if t == [] then [] else EscapeChar(t[0]) + Escape(t[1..])
  }

  /** The low byte of every code unit of a text. */
  function Codes(t: string): (b: seq<Byte>)
    ensures |b| == |Units(t)| && forall i :: 0 <= i < |b| ==> b[i] == UnitByte(Units(t)[i])
  {
    var u := Units(t);
    seq(|u|, i requires 0 <= i < |u| => UnitByte(u[i]))
  }

  lemma CodesAppend(a: string, b: string)
    ensures Codes(a + b) == Codes(a) + Codes(b)
  {
    UnitsAppend(a, b);
  }

  /** The bytes of one character: the low bytes of its one or two code units. */
  lemma CodesOne(c: char)
    ensures var u := UnitsOf(c);
            Codes([c]) == if |u| == 1 then [UnitByte(u[0])] else [UnitByte(u[0]), UnitByte(u[1])]
  {
    assert Units([c]) == UnitsOf(c) + Units([]);
  }

  /** A character beyond U+FFFF is stored as the low bytes of its two surrogates: the
      emoji U+1F600 gives 0x3D then 0x00. */
  lemma SurrogateBytes()
    ensures Codes("\U{1F600}") == [0x3D, 0x00]
  {
    assert Units("\U{1F600}") == UnitsOf('\U{1F600}') + Units([]);
    assert UnitsOf('\U{1F600}') == [0xD83D, 0xDE00];
  }

  /** Reading an escaped text gives back the low bytes of the text itself. */
  lemma {:induction false} UnescapeEscape(t: string, number: int)
    ensures Unescape(Units(Escape(t)), number) == Ok(Codes(t))
    decreases |t|
  {
    if t != [] {
      UnescapeEscape(t[1..], number);
      assert Escape(t) == EscapeChar(t[0]) + Escape(t[1..]);
      UnitsAppend(EscapeChar(t[0]), Escape(t[1..]));
      UnescapeOne(t[0], Units(Escape(t[1..])), number);
      assert t == [t[0]] + t[1..];
      CodesAppend([t[0]], t[1..]);
    }
  }

  /** Reading one escaped character in front of some code units gives the low bytes of the
      character's units in front of what the rest reads as. */
  lemma UnescapeOne(c: char, rest: seq<int>, number: int)
    ensures Unescape(Units(EscapeChar(c)) + rest, number) ==
            match Unescape(rest, number)
            case Err(e) => Err(e)
            case Ok(r) => Ok(Codes([c]) + r)
  {
    var e := EscapeChar(c);
    CodesOne(c);
    if |e| == 1 {
      assert e == [c] && Units(e) == UnitsOf(c) + Units([]);
      UnescapePlain(UnitsOf(c), rest, number);
    } else {
      UnescapeEscaped(c, rest, number);
      assert UnitsOf(c) == [c as int];
    }
  }

  /** One or two code units other than a backslash read as their low bytes. */
  lemma UnescapePlain(u: seq<int>, rest: seq<int>, number: int)
    requires 1 <= |u| <= 2 && forall i :: 0 <= i < |u| ==> u[i] != '\\' as int
    ensures Unescape(u + rest, number) ==
            match Unescape(rest, number)
            case Err(e) => Err(e)
            case Ok(r) => Ok((if |u| == 1 then [UnitByte(u[0])] else [UnitByte(u[0]), UnitByte(u[1])]) + r)
  {
    if |u| == 1 {
      assert (u + rest)[0] == u[0] && (u + rest)[1..] == rest;
    } else {
      assert (u + rest)[0] == u[0] && (u + rest)[1..] == [u[1]] + rest;
      assert ([u[1]] + rest)[0] == u[1] && ([u[1]] + rest)[1..] == rest;
      if Unescape(rest, number).Ok? {
        var r := Unescape(rest, number).value;
        assert [UnitByte(u[0])] + ([UnitByte(u[1])] + r) == [UnitByte(u[0]), UnitByte(u[1])] + r;
      }
    }
  }

  /** A character the escape table covers, written as its escape sequence, reads as its own
      code. */
  lemma UnescapeEscaped(c: char, rest: seq<int>, number: int)
    requires |EscapeChar(c)| == 2
    ensures c as int < 0x80
    ensures Unescape(Units(EscapeChar(c)) + rest, number) ==
            match Unescape(rest, number)
            case Err(e) => Err(e)
            case Ok(r) => Ok([UnitByte(c as int)] + r)
  {
    var e := EscapeChar(c);
    assert Units(e) == UnitsOf(e[0]) + (UnitsOf(e[1]) + Units([])) by {
      assert e[1..][1..] == [];
    }
    var u := Units(e);
    assert u == ['\\' as int, e[1] as int];
    assert (u + rest)[0] == '\\' as int && (u + rest)[2..] == rest;
    assert EscapeCode((u + rest)[1]) == Some(UnitByte(c as int));
  }

  /** `str.slice(1, str.length - 1)`: the text between the quotes. */
  function Unquoted(v: Value): string {
    var s := ValueText(v);
    if |s| >= 2 then s[1..|s| - 1] else []
  }

  // ---------------------------------------------------------------------------
  // directives

  const BYTE := VStr(".BYTE")
  const WORD := VStr(".WORD")
  const STRING := VStr(".STRING")
  const ASCII := VStr(".ASCII")
  const ASCIZ := VStr(".ASCIZ")
  const SPACE := VStr(".SPACE")
  const EQU := VStr(".EQU")
  const SET := VStr(".SET")

  /** The count a `.space` loop runs `i < n` for: no iteration for a negative count or `NaN`. */
  function Count(v: Value): nat {
    if v.VInt? && v.n > 0 then v.n else 0
  }

  function Repeat(b: Byte, n: nat): (r: seq<Byte>)
    ensures |r| == n && forall i :: 0 <= i < n ==> r[i] == b
  {
    seq(n, i => b)
  }

  /** The bytes a `.byte` or `.word` argument appends: the low byte, then for `.word` the
      high byte. */
  function ValueBytes(d: Value, v: Value): seq<Byte> {
    if d == WORD then [Lo8(v), Hi8(v)] else [Lo8(v)]
  }

  /** The directive loop over the tokens of a data line from `k` on, `line[0]` being the
      directive `d`. Arguments sit at an even distance from the end of the line, commas at
      an odd one. */
  function DataArgs(st: Image, line: seq<Token>, d: Value, k: nat, number: int): (r: Result<Image>)
    requires 1 <= k && |line| > 0 && line[0].kind == DIR
    ensures r.Ok? ==> r.value.pmem == st.pmem && r.value.fileLines == st.fileLines && r.value.globals == st.globals
    ensures r.Ok? ==> |r.value.dmem| >= |st.dmem| && r.value.dmem[..|st.dmem|] == st.dmem
    ensures r.Ok? ==> r.value.tables.labels == st.tables.labels && r.value.tables.defs == st.tables.defs
    decreases |line| - k
  {
    if k >= |line| then Ok(st)
    else
      var tok := line[k];
      var even := (|line| - 1 - k) % 2 == 0;
      if even && (d == BYTE || d == WORD) then
        if tok.kind == INT then
          var st' := st.(dmem := st.dmem + ValueBytes(d, tok.value));
          Append(st.dmem, ValueBytes(d, tok.value), st', line, d, k, number)
        else Err(Error(BadToken, number))
      else if even && (d == STRING || d == ASCII || d == ASCIZ) then
        if tok.kind != STR then Err(Error(BadToken, number))
        else match Unescape(Units(Unquoted(tok.value)), number)
          case Err(e) => Err(e)
          case Ok(bytes) =>
            var more := bytes + (if d == ASCII then [] else [0]);
            Append(st.dmem, more, st.(dmem := st.dmem + more), line, d, k, number)
      else if even && d == SPACE then
        if tok.kind != INT then Err(Error(BadToken, number))
        else if line[k - 1].kind == DIR then
          if k + 1 == |line| then
            var more := Repeat(0, Count(tok.value));
            Append(st.dmem, more, st.(dmem := st.dmem + more), line, d, k, number)
          else DataArgs(st, line, d, k + 1, number)
        else if k + 1 != |line| then Err(Error(TooManyArguments, number))
        else
          var more := Repeat(Lo8(tok.value), Count(line[k - 2].value));
          Append(st.dmem, more, st.(dmem := st.dmem + more), line, d, k, number)
      else if d == EQU || d == SET then
        if |line| - k != 3 then Err(Error(EquArgCount, number))
        else if tok.kind != REF || line[k + 1].kind != COMMA || line[k + 2].kind != INT then
          Err(Error(EquBadArgument, number))
        else match NewEqu(st.tables, ValueText(tok.value), line[k + 2].value, number)
          case Err(e) => Err(e)
          case Ok(t) => DataArgs(st.(tables := t), line, d, k + 3, number)
      else if !even && tok.kind != COMMA then Err(Error(MissingComma, number))
      else DataArgs(st, line, d, k + 1, number)
  }

  /** The rest of the directive loop after `more` was appended at token `k`. */
  function Append(before: seq<Byte>, more: seq<Byte>, st: Image, line: seq<Token>, d: Value, k: nat, number: int): (r: Result<Image>)
    requires 1 <= k < |line| && line[0].kind == DIR && st.dmem == before + more
    ensures r.Ok? ==> r.value.pmem == st.pmem && r.value.fileLines == st.fileLines && r.value.globals == st.globals
    ensures r.Ok? ==> |r.value.dmem| >= |before| && r.value.dmem[..|before|] == before
    ensures r.Ok? ==> r.value.tables.labels == st.tables.labels && r.value.tables.defs == st.tables.defs
    decreases |line| - k, 0
  {
    var r := DataArgs(st, line, d, k + 1, number);
    if r.Ok? then
      assert r.value.dmem[..|before|] == r.value.dmem[..|st.dmem|][..|before|];
      r
    else r
  }

  /** The directive's arguments made ready: for `.byte`, `.word` and `.space` every
      reference on the line is replaced and the expressions evaluated; for `.equ` and `.set`
      only the references after the name are replaced (without a line number in the error,
      as in the source) before the expressions are evaluated. */
  function Prepared(t: Tables, line: seq<Token>, number: int): (r: Result<seq<Token>>)
    requires |line| > 0 && line[0].kind == DIR
    ensures r.Ok? ==> |r.value| > 0 && r.value[0] == line[0]
  {
    var d := line[0].value;
    if d == BYTE || d == WORD || d == SPACE then
      match ReplaceRefs(t, line, number)
      case Err(e) => Err(e)
      case Ok(u) => Collapse(u, number)
    else if d == SET || d == EQU then
      if |line| <= 2 then Collapse(line, number)
      else match ReplaceRefs(t, line[2..], 0)
        case Err(e) => Err(e)
        case Ok(u) => Collapse(line[..2] + u, number)
    else Ok(line)
  }

  /** One line of the data section. */
  function DataLine(st: Image, line: seq<Token>, number: int): (r: Result<Image>)
    requires line != []
    ensures r.Ok? ==> r.value.pmem == st.pmem && r.value.fileLines == st.fileLines && r.value.globals == st.globals
    ensures r.Ok? ==> |r.value.dmem| >= |st.dmem| && r.value.dmem[..|st.dmem|] == st.dmem
    ensures r.Ok? ==> r.value.tables.defs == st.tables.defs
    ensures r.Ok? ==> r.value.tables.labels ==
                        (if line[0].kind == LABEL then st.tables.labels[LabelName(line[0].value) := |st.dmem|]
                         else st.tables.labels)
    ensures r.Ok? && line[0].kind == LABEL ==> LabelName(line[0].value) !in st.tables.labels
  {
    var labelled := line[0].kind == LABEL;
    var tables := if labelled then NewLabel(st.tables, LabelName(line[0].value), |st.dmem|, number) else Ok(st.tables);
    var rest := if labelled then line[1..] else line;
    match tables
    case Err(e) => Err(e)
    case Ok(t) =>
      if rest == [] then Ok(st.(tables := t))
      else if rest[0].kind != DIR then Err(Error(DataExpectsDirective, number))
      else match Prepared(t, rest, number)
        case Err(e) => Err(e)
        case Ok(u) => DataArgs(st.(tables := t), u, u[0].value, 1, number)
  }

  /** Every binding of `before` is still in `after`: a data label never rebinds a name. */
  predicate Keeps(before: map<string, int>, after: map<string, int>) {
    forall n :: n in before ==> n in after && after[n] == before[n]
  }

  /** The data-section loop over the lines before `end`. */
  function DataFrom(st: Image, lines: seq<seq<Token>>, numbers: seq<int>, k: nat, end: nat): (r: Result<Image>)
    requires Shaped(lines, numbers) && k <= end <= |lines|
    ensures r.Ok? ==> r.value.pmem == st.pmem && r.value.fileLines == st.fileLines && r.value.globals == st.globals
    ensures r.Ok? ==> |r.value.dmem| >= |st.dmem| && r.value.dmem[..|st.dmem|] == st.dmem
    ensures r.Ok? ==> Keeps(st.tables.labels, r.value.tables.labels)
    decreases end - k
  {
    if k == end then Ok(st)
    else match DataLine(st, lines[k], numbers[k])
      case Err(e) => Err(e)
      case Ok(st') =>
        var r := DataFrom(st', lines, numbers, k + 1, end);
        if r.Ok? then
          assert r.value.dmem[..|st.dmem|] == r.value.dmem[..|st'.dmem|][..|st.dmem|];
          r
        else r
  }

  /** The data section: the lines after `.section .data` up to the text section at `ts`
      (none when the text section comes first), then the size check. */
  function BuildData(st: Image, lines: seq<seq<Token>>, numbers: seq<int>, ts: nat): (r: Result<Image>)
    requires Shaped(lines, numbers) && ts < |lines|
    ensures r.Ok? ==> r.value.pmem == st.pmem && r.value.fileLines == st.fileLines && r.value.globals == st.globals
    ensures r.Ok? ==> |r.value.dmem| <= RAMEND && |r.value.dmem| >= |st.dmem| && r.value.dmem[..|st.dmem|] == st.dmem
    ensures |st.dmem| > RAMEND ==> r.Err?
    ensures r.Ok? ==> Keeps(st.tables.labels, r.value.tables.labels)
  {
    var r := if ts == 0 then Ok(st) else DataFrom(st, lines, numbers, 1, ts);
    match r
    case Err(e) => Err(e)
    case Ok(st') => if |st'.dmem| > RAMEND then Err(Error(TooMuchData, 0)) else Ok(st')
  }

  // ---------------------------------------------------------------------------
  // what the directives append

  /** Arguments separated by commas: `v0, v1, ..., vn` as integer tokens. */
  function ArgList(vals: seq<Value>): (t: seq<Token>)
    requires |vals| > 0
    ensures |t| == 2 * |vals| - 1
    decreases |vals|
  {
    if |vals| == 1 then [Token(INT, vals[0])]
    else [Token(INT, vals[0]), Token(COMMA, VStr(","))] + ArgList(vals[1..])
  }

  /** The bytes of every argument, in order. */
  function AllBytes(d: Value, vals: seq<Value>): seq<Byte>
    decreases |vals|
  {
    if vals == [] then [] else ValueBytes(d, vals[0]) + AllBytes(d, vals[1..])
  }

  /** An integer argument of `.byte` or `.word` appends its bytes and the loop goes on. */
  lemma ByteStep(st: Image, line: seq<Token>, d: Value, k: nat, number: int)
    requires 1 <= k < |line| && line[0].kind == DIR && (d == BYTE || d == WORD)
    requires line[k].kind == INT && (|line| - 1 - k) % 2 == 0
    ensures DataArgs(st, line, d, k, number) == DataArgs(st.(dmem := st.dmem + ValueBytes(d, line[k].value)), line, d, k + 1, number)
  {
    var st' := st.(dmem := st.dmem + ValueBytes(d, line[k].value));
    assert DataArgs(st, line, d, k, number) == Append(st.dmem, ValueBytes(d, line[k].value), st', line, d, k, number);
  }

  /** A comma between arguments is skipped. */
  lemma CommaStep(st: Image, line: seq<Token>, d: Value, k: nat, number: int)
    requires 1 <= k < |line| && line[0].kind == DIR && (d == BYTE || d == WORD)
    requires line[k].kind == COMMA && (|line| - 1 - k) % 2 == 1
    ensures DataArgs(st, line, d, k, number) == DataArgs(st, line, d, k + 1, number)
  {
  }

  /** The first argument of a list of several, and the comma after it, pass through the
      loop. */
  lemma FirstOfSeveral(st: Image, pre: seq<Token>, vals: seq<Value>, d: Value, number: int)
    requires |pre| >= 1 && pre[0].kind == DIR && (d == BYTE || d == WORD) && |vals| > 1
    ensures var pre' := pre + [Token(INT, vals[0]), Token(COMMA, VStr(","))];
            DataArgs(st, pre + ArgList(vals), d, |pre|, number)
              == DataArgs(st.(dmem := st.dmem + ValueBytes(d, vals[0])), pre' + ArgList(vals[1..]), d, |pre'|, number)
  {
    var line := pre + ArgList(vals);
    var k := |pre|;
    var pre' := pre + [Token(INT, vals[0]), Token(COMMA, VStr(","))];
    assert line == pre' + ArgList(vals[1..]);
    ByteStep(st, line, d, k, number);
    CommaStep(st.(dmem := st.dmem + ValueBytes(d, vals[0])), line, d, k + 1, number);
  }

  /** `.byte v0, ..., vn` appends the low byte of each value; `.word v0, ..., vn` appends
      the low byte and then the high byte of each. */
  lemma {:induction false} ByteArgs(st: Image, pre: seq<Token>, vals: seq<Value>, d: Value, number: int)
    requires |pre| >= 1 && pre[0].kind == DIR && (d == BYTE || d == WORD) && |vals| > 0
    ensures DataArgs(st, pre + ArgList(vals), d, |pre|, number) == Ok(st.(dmem := st.dmem + AllBytes(d, vals)))
    decreases |vals|
  {
    if |vals| == 1 {
      LastArg(st, pre, vals, d, number);
    } else {
      var st' := st.(dmem := st.dmem + ValueBytes(d, vals[0]));
      var pre' := pre + [Token(INT, vals[0]), Token(COMMA, VStr(","))];
      FirstOfSeveral(st, pre, vals, d, number);
      ByteArgs(st', pre', vals[1..], d, number);
      AppendInTwo(st, ValueBytes(d, vals[0]), AllBytes(d, vals[1..]), AllBytes(d, vals));
    }
  }

  /** Appending two pieces one after the other appends their concatenation. */
  lemma AppendInTwo(st: Image, head: seq<Byte>, tail: seq<Byte>, all: seq<Byte>)
    requires all == head + tail
    ensures st.(dmem := st.dmem + head).(dmem := st.dmem + head + tail) == st.(dmem := st.dmem + all)
  {
    assert (st.dmem + head) + tail == st.dmem + (head + tail);
  }

  /** The last argument of the list appends its bytes and ends the loop. */
  lemma LastArg(st: Image, pre: seq<Token>, vals: seq<Value>, d: Value, number: int)
    requires |pre| >= 1 && pre[0].kind == DIR && (d == BYTE || d == WORD) && |vals| == 1
    ensures DataArgs(st, pre + ArgList(vals), d, |pre|, number) == Ok(st.(dmem := st.dmem + AllBytes(d, vals)))
  {
    var st' := st.(dmem := st.dmem + ValueBytes(d, vals[0]));
    var line := pre + ArgList(vals);
    var k := |pre|;
    ByteStep(st, line, d, k, number);
    assert DataArgs(st', line, d, k + 1, number) == Ok(st');
    assert vals[1..] == [];
    assert AllBytes(d, vals) == ValueBytes(d, vals[0]);
  }

  /** Evaluating a directive line that holds one literal changes nothing. */
  lemma LiteralLine(t: Tables, d: Value, n: int, number: int)
    requires d == BYTE || d == WORD
    ensures Prepared(t, [Token(DIR, d), Token(INT, VInt(n))], number) == Ok([Token(DIR, d), Token(INT, VInt(n))])
  {
    var line := [Token(DIR, d), Token(INT, VInt(n))];
    LiteralRefs(t, line, number);
    LiteralCollapse(line, n, number);
  }

  /** A line whose only argument is a literal has no reference to replace. */
  lemma LiteralRefs(t: Tables, line: seq<Token>, number: int)
    requires |line| == 2 && line[0].kind == DIR && line[1].kind == INT
    ensures ReplaceRefs(t, line, number) == Ok(line)
  {
    ReplaceRefsMeaning(t, line, number);
    assert ReplaceRefs(t, line, number).Ok?;
    var u := ReplaceRefs(t, line, number).value;
    assert u[0] == line[0] && u[1] == line[1];
    assert u == line;
  }

  /** A lone literal after the directive is already collapsed. */
  lemma LiteralCollapse(line: seq<Token>, n: int, number: int)
    requires |line| == 2 && line[0].kind == DIR && line[1] == Token(INT, VInt(n))
    ensures Collapse(line, number) == Ok(line)
  {
    var rest := line[1..];
    LoneNumber(n, number);
    assert rest == [Token(INT, VInt(n))] && RunLength(rest) == 1;
    assert rest[..1] == [NumberToken(n)] && rest[1..] == [] && IsMath(rest[0].kind);
    assert EvalRun(rest[..1], number) == Ok(VInt(n));
    assert Collapse(rest, number) == Cons([Token(INT, VInt(n))], Collapse([], number));
    assert Collapse([], number) == Ok([]) && [Token(INT, VInt(n))] + [] == rest;
    assert !IsMath(line[0].kind) && [line[0]] + rest == line;
    assert Collapse(line, number) == Cons([line[0]], Collapse(rest, number));
    assert Collapse(line, number) == Ok(line);
  }

  /** A `.byte` line with one literal appends its low byte; a `.word` line appends its low
      and then its high byte. */
  lemma ByteLine(st: Image, d: Value, n: int, number: int)
    requires d == BYTE || d == WORD
    ensures DataLine(st, [Token(DIR, d), Token(INT, VInt(n))], number) ==
            Ok(st.(dmem := st.dmem + (if d == BYTE then [n % 256] else [n % 256, (n / 256) % 256])))
  {
    var line := [Token(DIR, d), Token(INT, VInt(n))];
    LiteralLine(st.tables, d, n, number);
    assert line[0].kind != LABEL && line[0].kind == DIR;
    assert DataLine(st, line, number) == DataArgs(st.(tables := st.tables), line, d, 1, number);
    assert st.(tables := st.tables) == st;
    ByteArgs(st, [line[0]], [VInt(n)], d, number);
    assert [line[0]] + ArgList([VInt(n)]) == line;
    assert [VInt(n)][1..] == [];
    assert AllBytes(d, [VInt(n)]) == ValueBytes(d, VInt(n));
    ByteSelectors(n);
  }

  /** A string directive appends the bytes of its text; `.string` and `.asciz` then append
      a terminating 0, which `.ascii` does not. */
  lemma StringArg(st: Image, d: Value, v: Value, number: int)
    requires d == STRING || d == ASCII || d == ASCIZ
    requires Unescape(Units(Unquoted(v)), number).Ok?
    ensures DataArgs(st, [Token(DIR, d), Token(STR, v)], d, 1, number) ==
            Ok(st.(dmem := st.dmem + (Unescape(Units(Unquoted(v)), number).value + (if d == ASCII then [] else [0]))))
  {
    var line := [Token(DIR, d), Token(STR, v)];
    var bytes := Unescape(Units(Unquoted(v)), number).value;
    var more := bytes + (if d == ASCII then [] else [0]);
    var st' := st.(dmem := st.dmem + more);
    assert d != BYTE && d != WORD;
    assert line[1].kind == STR && line[1].value == v && (|line| - 1 - 1) % 2 == 0;
    assert DataArgs(st, line, d, 1, number) == Append(st.dmem, more, st', line, d, 1, number);
    assert Append(st.dmem, more, st', line, d, 1, number) == DataArgs(st', line, d, 2, number);
  }

  /** A quoted text written with the escape sequences is stored as the low bytes of the
      text it stands for. */
  lemma QuotedText(st: Image, d: Value, t: string, number: int)
    requires d == STRING || d == ASCII || d == ASCIZ
    ensures DataArgs(st, [Token(DIR, d), Token(STR, VStr("\"" + Escape(t) + "\""))], d, 1, number) ==
            Ok(st.(dmem := st.dmem + (Codes(t) + (if d == ASCII then [] else [0]))))
  {
    var s := "\"" + Escape(t) + "\"";
    assert s[1..|s| - 1] == Escape(t);
    UnescapeEscape(t, number);
    StringArg(st, d, VStr(s), number);
  }

  /** `.space n` appends `n` zeros. */
  lemma SpaceZeros(st: Image, n: Value, number: int)
    ensures DataArgs(st, [Token(DIR, SPACE), Token(INT, n)], SPACE, 1, number) ==
            Ok(st.(dmem := st.dmem + Repeat(0, Count(n))))
  {
    assert SPACE != BYTE && SPACE != WORD && SPACE != STRING && SPACE != ASCII && SPACE != ASCIZ;
    var one := [Token(DIR, SPACE), Token(INT, n)];
    var zeros := Repeat(0, Count(n));
    var st' := st.(dmem := st.dmem + zeros);
    assert DataArgs(st, one, SPACE, 1, number) == Append(st.dmem, zeros, st', one, SPACE, 1, number);
    assert DataArgs(st', one, SPACE, 2, number) == Ok(st');
  }

  /** `.space n, v` appends `n` copies of the low byte of `v`. */
  lemma SpaceFill(st: Image, n: Value, v: Value, number: int)
    ensures DataArgs(st, [Token(DIR, SPACE), Token(INT, n), Token(COMMA, VStr(",")), Token(INT, v)], SPACE, 1, number) ==
            Ok(st.(dmem := st.dmem + Repeat(Lo8(v), Count(n))))
  {
    assert SPACE != BYTE && SPACE != WORD && SPACE != STRING && SPACE != ASCII && SPACE != ASCIZ;
    var line := [Token(DIR, SPACE), Token(INT, n), Token(COMMA, VStr(",")), Token(INT, v)];
    var fill := Repeat(Lo8(v), Count(n));
    SpaceCountSkipped(st, line, number);
    SpaceValueLast(st, line, number);
    assert line[3].value == v && line[1].value == n;
  }

  /** The value of a two-argument `.space`, last on its line, appends the copies. */
  lemma SpaceValueLast(st: Image, line: seq<Token>, number: int)
    requires |line| == 4 && line[0].kind == DIR && line[2].kind == COMMA && line[3].kind == INT
    ensures DataArgs(st, line, SPACE, 3, number) ==
            Ok(st.(dmem := st.dmem + Repeat(Lo8(line[3].value), Count(line[1].value))))
  {
    assert SPACE != BYTE && SPACE != WORD && SPACE != STRING && SPACE != ASCII && SPACE != ASCIZ;
    var fill := Repeat(Lo8(line[3].value), Count(line[1].value));
    var st' := st.(dmem := st.dmem + fill);
    assert DataArgs(st, line, SPACE, 3, number) == Append(st.dmem, fill, st', line, SPACE, 3, number);
  }

  /** The count of a two-argument `.space` and the comma after it pass through the loop. */
  lemma SpaceCountSkipped(st: Image, line: seq<Token>, number: int)
    requires |line| == 4 && line[0].kind == DIR && line[1].kind == INT && line[2].kind == COMMA
    ensures DataArgs(st, line, SPACE, 1, number) == DataArgs(st, line, SPACE, 3, number)
  {
    assert SPACE != BYTE && SPACE != WORD && SPACE != STRING && SPACE != ASCII && SPACE != ASCIZ;
    assert DataArgs(st, line, SPACE, 1, number) == DataArgs(st, line, SPACE, 2, number);
  }

  /** `.equ name, v` and `.set name, v` define `name` as `v` by the rules of `newEqu`. */
  lemma EquArgs(st: Image, d: Value, name: Value, v: Value, number: int)
    requires d == EQU || d == SET
    ensures var r := DataArgs(st, [Token(DIR, d), Token(REF, name), Token(COMMA, VStr(",")), Token(INT, v)], d, 1, number);
            match NewEqu(st.tables, ValueText(name), v, number)
            case Ok(t) => r == Ok(st.(tables := t))
            case Err(e) => r == Err(e)
  {
  }
}
