/** `scripts/verify_feature_error_codes.py`: which error codes a feature file expects, and on which line.
    Line numbers start at 1. */
module ErrorCodes {
  import opened Text
  import opened Gherkin

  // ------------------------------------------------------------------ patterns

  /** The script's `finditer` patterns. */
  datatype Pattern = ShouldBe | Cell | AnyQuoted | BareSentence

  function UntilQuote(s: string): (n: nat)
    ensures n <= |s|
  {
    if s == "" || s[0] == '"' then 0 else 1 + UntilQuote(s[1..])
  }

  predicate IsUpper(c: char) {
    'A' <= c <= 'Z'
  }

  predicate IsCodeChar(c: char) {
    IsUpper(c) || IsDigit(c) || c == '_'
  }

  function CodeRun(s: string): (n: nat)
    ensures n <= |s|
  {
    if s == "" || !IsCodeChar(s[0]) then 0 else 1 + CodeRun(s[1..])
  }

  /** A match: the captured slice `line[from..upTo]`, and where the search goes on. */
  datatype Match = Match(from: nat, upTo: nat, next: nat)

  /** `"([^"]+)"` at position `j`. */
  function QuotedAt(line: string, j: nat): Option<Match> {
    if j >= |line| || line[j] != '"' then None
    else
      var n := UntilQuote(line[j + 1..]);
      if n == 0 || j + 1 + n >= |line| then None else Some(Match(j + 1, j + 1 + n, j + 2 + n))
  }

  /** `\b` in front of a word character. */
  predicate WordStart(line: string, i: nat)
    requires i <= |line|
  {
    i == 0 || !IsWord(line[i - 1])
  }

  const RESPONSE_HAS := "response has "

  predicate AfterResponseHas(line: string, i: nat)
    requires i <= |line|
  {
    EndsWith(line[..i], RESPONSE_HAS)
  }

  function MatchAt(p: Pattern, line: string, i: nat): (m: Option<Match>)
    requires i <= |line|
    ensures m.Some? ==> i <= m.value.from <= m.value.upTo <= |line| && i < m.value.next <= |line|
  {
    match p
    case ShouldBe =>
      if OccursAt("error code should be ", line, i) then QuotedAt(line, i + 21)
      else if OccursAt("error code is ", line, i) then QuotedAt(line, i + 14)
      else None
    case Cell =>
      if OccursAt("error ", line, i) && WordStart(line, i) && !AfterResponseHas(line, i) then QuotedAt(line, i + 6)
      else None
    case AnyQuoted => QuotedAt(line, i)
    case BareSentence =>
      if OccursAt("error should be ", line, i) && WordStart(line, i) && i + 16 < |line| && IsUpper(line[i + 16]) then
        var n := CodeRun(line[i + 16..]);
        if n == 0 then None else Some(Match(i + 16, i + 16 + n, i + 16 + n))
      else None
  }

  /** `finditer` from position `i` on: leftmost matches, not overlapping. */
  function FindAll(p: Pattern, line: string, i: nat): seq<string>
    requires i <= |line|
    decreases |line| - i
  {
    if i == |line| then []
    else
      match MatchAt(p, line, i)
      case None => FindAll(p, line, i + 1)
      case Some(m) => [line[m.from..m.upTo]] + FindAll(p, line, m.next)
  }

  predicate Boundary(line: string) {
    var t := LStrip(line);
    "Feature:" <= t || "Rule:" <= t || "Background:" <= t || "Scenario:" <= t || "Scenario Outline:" <= t
  }

  predicate ErrorColumn(name: string) {
    Lower(name) in {"error", "error_code", "expected_error", "error_type"}
  }

  predicate BareCode(value: string) {
    value != "" && IsUpper(value[0]) && forall i | 0 <= i < |value| :: IsCodeChar(value[i])
  }

  predicate RowStart(line: string) {
    var t := Strip(line);
    t != "" && t[0] == '|'
  }

  // ------------------------------------------------------------------ blocks

  datatype Block = Block(start: nat, lines: seq<string>)

  function BodyRun(lines: seq<string>): (n: nat)
    ensures n <= |lines|
  {
    if lines != [] && !Boundary(lines[0]) then 1 + BodyRun(lines[1..]) else 0
  }

  /** `_iter_blocks`, for lines that begin at index `at` of the file. */
  function Blocks(lines: seq<string>, at: nat): seq<Block>
    decreases |lines|
  {
    if lines == [] then []
    else
      var n := 1 + BodyRun(lines[1..]);
      [Block(at, lines[..n])] + Blocks(lines[n..], at + n)
  }

  // ------------------------------------------------------------------ Examples columns

  /** An insertion-ordered dict of column values. */
  datatype Column = Column(name: string, values: seq<string>)

  /** `columns.setdefault(name, []).append(value)`. */
  function AddCell(columns: seq<Column>, name: string, value: string): seq<Column> {
    if columns == [] then [Column(name, [value])]
    else if columns[0].name == name then [columns[0].(values := columns[0].values + [value])] + columns[1..]
    else [columns[0]] + AddCell(columns[1..], name, value)
  }

  /** `columns.get(name, [])`. */
  function ValuesOf(columns: seq<Column>, name: string): seq<string> {
    if columns == [] then [] else if columns[0].name == name then columns[0].values else ValuesOf(columns[1..], name)
  }

  /** `zip` of a header with a row, cell by cell into the columns. */
  function AddRow(columns: seq<Column>, header: seq<string>, cells: seq<string>): seq<Column>
    decreases |cells|
  {
    if header == [] || cells == [] then columns
    else AddRow(AddCell(columns, header[0], cells[0]), header[1..], cells[1..])
  }

  datatype Table = Table(columns: seq<Column>, header: Option<seq<string>>)

  function AfterLine(t: Table, line: string): Table {
    if !RowStart(line) then Table(t.columns, None)
    else
      var cells := Cells(line);
      match t.header
      case None => Table(t.columns, Some(cells))
      case Some(header) => Table(AddRow(t.columns, header, cells), t.header)
  }

  function AfterLines(t: Table, lines: seq<string>): Table {
    if lines == [] then t else AfterLine(AfterLines(t, lines[..|lines| - 1]), lines[|lines| - 1])
  }

  /** `_block_columns`. */
  function BlockColumns(lines: seq<string>): seq<Column> {
    AfterLines(Table([], None), lines).columns
  }

  // ------------------------------------------------------------------ expected codes

  datatype Finding = Finding(line: int, code: string)

  predicate IsPlaceholder(token: string) {
    token != "" && token[0] == '<' && token[|token| - 1] == '>'
  }

  /** `token[1:-1]`: the one-character token `<` cannot be a placeholder, `<` and `>` being different. */
  function PlaceholderName(token: string): string
    requires IsPlaceholder(token)
  {
    token[1..|token| - 1]
  }

  /** The codes as findings on one line. */
  function On(line: int, codes: seq<string>): seq<Finding> {
    if codes == [] then [] else On(line, codes[..|codes| - 1]) + [Finding(line, codes[|codes| - 1])]
  }

  /** A literal token stands for itself, a placeholder for the values of its column. */
  function Resolve(columns: seq<Column>, tokens: seq<string>): seq<string> {
    if tokens == [] then []
    else
      var last := tokens[|tokens| - 1];
      Resolve(columns, tokens[..|tokens| - 1])
      + (if IsPlaceholder(last) then ValuesOf(columns, PlaceholderName(last)) else [last])
  }

  function LineCodes(columns: seq<Column>, line: string): seq<string> {
    Resolve(columns, FindAll(ShouldBe, line, 0))
    + (if Contains(line, "error code \"") && !Contains(line, "should be")
       then Resolve(columns, FindAll(AnyQuoted, line, 0)) else [])
    + (if RowStart(line) then FindAll(Cell, line, 0) else [])
    + FindAll(BareSentence, line, 0)
  }

  /** The findings on the lines of a block, numbered from `at + 1`. */
  function LinesCodes(columns: seq<Column>, lines: seq<string>, at: int): seq<Finding> {
    if lines == [] then []
    else
      var n := |lines| - 1;
      LinesCodes(columns, lines[..n], at) + On(at + n + 1, LineCodes(columns, lines[n]))
  }

  function BareCodes(values: seq<string>): seq<string> {
    if values == [] then []
    else BareCodes(values[..|values| - 1]) + (if BareCode(values[|values| - 1]) then [values[|values| - 1]] else [])
  }

  /** The bare codes in the columns that declare error codes. */
  function ColumnCodes(columns: seq<Column>): seq<string> {
    if columns == [] then []
    else
      var last := columns[|columns| - 1];
      ColumnCodes(columns[..|columns| - 1]) + (if ErrorColumn(last.name) then BareCodes(last.values) else [])
  }

  function BlockCodes(b: Block): seq<Finding> {
    var columns := BlockColumns(b.lines);
    LinesCodes(columns, b.lines, b.start) + On(b.start + 1, ColumnCodes(columns))
  }

  function AllCodes(blocks: seq<Block>): seq<Finding> {
    if blocks == [] then [] else AllCodes(blocks[..|blocks| - 1]) + BlockCodes(blocks[|blocks| - 1])
  }

  /** `expected_codes`. */
  function Codes(lines: seq<string>): seq<Finding> {
    AllCodes(Blocks(lines, 0))
  }

  // ------------------------------------------------------------------ the script's loops

  lemma {:induction false} BlocksStep(done: seq<string>, block: seq<string>, rest: seq<string>, at: nat)
    requires block != [] && forall i | 1 <= i < |block| :: !Boundary(block[i])
    requires rest == [] || Boundary(rest[0])
    ensures Blocks(block + rest, at) == [Block(at, block)] + Blocks(rest, at + |block|)
  {
    hide Boundary;
    BodyRunExact(block[1..], rest);
    assert (block + rest)[1..] == block[1..] + rest;
    assert (block + rest)[..|block|] == block && (block + rest)[|block|..] == rest;
  }

  lemma {:induction false} BodyRunExact(body: seq<string>, rest: seq<string>)
    requires forall i | 0 <= i < |body| :: !Boundary(body[i])
    requires rest == [] || Boundary(rest[0])
    ensures BodyRun(body + rest) == |body|
  {
    hide Boundary;
    if body == [] {
      assert body + rest == rest;
    } else {
      assert (body + rest)[1..] == body[1..] + rest;
      BodyRunExact(body[1..], rest);
    }
  }

  method IterBlocks(lines: seq<string>) returns (blocks: seq<Block>)
    ensures blocks == Blocks(lines, 0)
  {
    hide Boundary, Blocks;
    blocks := [];
    var start: nat, block: seq<string> := 0, [];
    assert Blocks(lines, 0) == blocks + Blocks(lines[0..], 0) by {
      assert lines[0..] == lines;
    }
    for i := 0 to |lines|
      invariant start + |block| == i && lines[start..i] == block
      invariant i > 0 ==> block != []
      invariant forall k | 1 <= k < |block| :: !Boundary(block[k])
      invariant Blocks(lines, 0) == blocks + Blocks(lines[start..], start)
    {
      var line := lines[i];
      if Boundary(line) && block != [] {
        assert lines[start..] == block + lines[i..];
        BlocksStep(lines[..start], block, lines[i..], start);
        assert blocks + ([Block(start, block)] + Blocks(lines[i..], i)) == (blocks + [Block(start, block)]) + Blocks(lines[i..], i);
        blocks := blocks + [Block(start, block)];
        block := [];
        start := i;
      }
      block := block + [line];
    }
    if block != [] {
      assert lines[start..] == block + [];
      BlocksStep(lines[..start], block, [], start);
      blocks := blocks + [Block(start, block)];
    } else {
      assert lines[start..] == [];
    }
    NoBlocks(|lines|);
  }

  lemma NoBlocks(at: nat)
    ensures Blocks([], at) == []
  {
  }

  lemma {:induction false} AddRowSteps(columns: seq<Column>, header: seq<string>, cells: seq<string>, i: nat)
    requires i < |header| && i < |cells|
    ensures AddRow(columns, header[..i + 1], cells[..i + 1]) == AddCell(AddRow(columns, header[..i], cells[..i]), header[i], cells[i])
    decreases i
  {
    hide AddCell;
    if i > 0 {
      AddRowSteps(AddCell(columns, header[0], cells[0]), header[1..], cells[1..], i - 1);
      assert header[..i + 1][1..] == header[1..][..i] && cells[..i + 1][1..] == cells[1..][..i];
      assert header[..i][1..] == header[1..][..i - 1] && cells[..i][1..] == cells[1..][..i - 1];
    } else {
      assert header[..1][1..] == [] && cells[..1][1..] == [];
    }
  }

  lemma {:induction false} AddRowShort(columns: seq<Column>, header: seq<string>, cells: seq<string>, n: nat)
    requires n == if |header| <= |cells| then |header| else |cells|
    ensures AddRow(columns, header, cells) == AddRow(columns, header[..n], cells[..n])
    decreases n
  {
    hide AddCell;
    if n > 0 {
      AddRowShort(AddCell(columns, header[0], cells[0]), header[1..], cells[1..], n - 1);
      assert header[..n][1..] == header[1..][..n - 1] && cells[..n][1..] == cells[1..][..n - 1];
    }
  }

  method ReadColumns(block: seq<string>) returns (columns: seq<Column>)
    ensures columns == BlockColumns(block)
  {
    hide RowStart, Cells, AddCell, AddRow;
    columns := [];
    var header: Option<seq<string>> := None;
    for k := 0 to |block|
      invariant Table(columns, header) == AfterLines(Table([], None), block[..k])
    {
      assert block[..k + 1][..k] == block[..k];
      var line := block[k];
      if RowStart(line) {
        var cells := Cells(line);
        if header.None? {
          header := Some(cells);
        } else {
          var n := if |header.value| <= |cells| then |header.value| else |cells|;
          ghost var before := columns;
          AddRowShort(before, header.value, cells, n);
          assert AddRow(before, header.value[..0], cells[..0]) == before by {
            NoCells(before, header.value[..0], cells[..0]);
          }
          for i := 0 to n
            invariant columns == AddRow(before, header.value[..i], cells[..i])
          {
            AddRowSteps(before, header.value, cells, i);
            columns := AddCell(columns, header.value[i], cells[i]);
          }
        }
      } else {
        header := None;
      }
    }
    assert block[..|block|] == block;
  }

  lemma NoCells(columns: seq<Column>, header: seq<string>, cells: seq<string>)
    requires header == [] || cells == []
    ensures AddRow(columns, header, cells) == columns
  {
  }

  /** Appending the resolved tokens, one at a time. */
  method AppendResolved(found: seq<Finding>, line: int, columns: seq<Column>, tokens: seq<string>) returns (r: seq<Finding>)
    ensures r == found + On(line, Resolve(columns, tokens))
  {
    hide On, ValuesOf, IsPlaceholder;
    r := found;
    OnOne(line, "");
    for i := 0 to |tokens|
      invariant r == found + On(line, Resolve(columns, tokens[..i]))
    {
      assert tokens[..i + 1][..i] == tokens[..i];
      var token := tokens[i];
      var values := if IsPlaceholder(token) then ValuesOf(columns, PlaceholderName(token)) else [token];
      OnAppend(line, Resolve(columns, tokens[..i]), values);
      if IsPlaceholder(token) {
        r := r + On(line, values);
      } else {
        OnOne(line, token);
        r := r + [Finding(line, token)];
      }
    }
    assert tokens[..|tokens|] == tokens;
  }

  lemma {:induction false} OnAppend(line: int, a: seq<string>, b: seq<string>)
    ensures On(line, a + b) == On(line, a) + On(line, b)
  {
    if b == [] {
      assert a + b == a;
    } else {
      assert (a + b)[..|a + b| - 1] == a + b[..|b| - 1];
      OnAppend(line, a, b[..|b| - 1]);
    }
  }

  lemma OnOne(line: int, code: string)
    ensures On(line, [code]) == [Finding(line, code)] && On(line, []) == []
  {
    assert [code][..0] == [];
  }

  method ReadLine(found: seq<Finding>, lineno: int, columns: seq<Column>, line: string) returns (r: seq<Finding>)
    ensures r == found + On(lineno, LineCodes(columns, line))
  {
    hide FindAll, Resolve, RowStart, Contains, On;
    OnOne(lineno, "");
    var should := Resolve(columns, FindAll(ShouldBe, line, 0));
    r := AppendResolved(found, lineno, columns, FindAll(ShouldBe, line, 0));
    var prose: seq<string> := [];
    if Contains(line, "error code \"") && !Contains(line, "should be") {
      prose := Resolve(columns, FindAll(AnyQuoted, line, 0));
      r := AppendResolved(r, lineno, columns, FindAll(AnyQuoted, line, 0));
    }
    OnAppend(lineno, should, prose);
    assert r == found + On(lineno, should + prose);
    var cells: seq<string> := [];
    if RowStart(line) {
      cells := FindAll(Cell, line, 0);
      r := r + On(lineno, cells);
    }
    OnAppend(lineno, should + prose, cells);
    assert r == found + On(lineno, should + prose + cells);
    var bare := FindAll(BareSentence, line, 0);
    r := r + On(lineno, bare);
    OnAppend(lineno, should + prose + cells, bare);
  }

  method ReadLines(found: seq<Finding>, start: nat, columns: seq<Column>, block: seq<string>) returns (r: seq<Finding>)
    ensures r == found + LinesCodes(columns, block, start)
  {
    hide LineCodes, On;
    r := found;
    for offset := 0 to |block|
      invariant r == found + LinesCodes(columns, block[..offset], start)
    {
      assert block[..offset + 1][..offset] == block[..offset];
      r := ReadLine(r, start + offset + 1, columns, block[offset]);
    }
    assert block[..|block|] == block;
  }

  /** The bare codes of one column. */
  method AppendBare(found: seq<Finding>, line: int, values: seq<string>) returns (r: seq<Finding>)
    ensures r == found + On(line, BareCodes(values))
  {
    hide On, BareCode;
    r := found;
    OnOne(line, "");
    for k := 0 to |values|
      invariant r == found + On(line, BareCodes(values[..k]))
    {
      assert values[..k + 1][..k] == values[..k];
      OnOne(line, values[k]);
      OnAppend(line, BareCodes(values[..k]), if BareCode(values[k]) then [values[k]] else []);
      if BareCode(values[k]) {
        r := r + [Finding(line, values[k])];
      }
    }
    assert values[..|values|] == values;
  }

  method ReadBlock(found: seq<Finding>, start: nat, block: seq<string>) returns (r: seq<Finding>)
    ensures r == found + BlockCodes(Block(start, block))
  {
    hide LinesCodes, BlockColumns, ErrorColumn, BareCodes, On;
    var columns := ReadColumns(block);
    r := ReadLines(found, start, columns, block);
    ghost var before := r;
    OnOne(start + 1, "");
    for i := 0 to |columns|
      invariant r == before + On(start + 1, ColumnCodes(columns[..i]))
    {
      assert columns[..i + 1][..i] == columns[..i];
      var c := columns[i];
      OnAppend(start + 1, ColumnCodes(columns[..i]), if ErrorColumn(c.name) then BareCodes(c.values) else []);
      if ErrorColumn(c.name) {
        r := AppendBare(r, start + 1, c.values);
      }
    }
    assert columns[..|columns|] == columns;
  }

  method ExpectedCodes(lines: seq<string>) returns (found: seq<Finding>)
    ensures found == Codes(lines)
  {
    hide BlockCodes, Blocks;
    var blocks := IterBlocks(lines);
    found := [];
    for k := 0 to |blocks|
      invariant found == AllCodes(blocks[..k])
    {
      assert blocks[..k + 1][..k] == blocks[..k];
      found := ReadBlock(found, blocks[k].start, blocks[k].lines);
    }
    assert blocks[..|blocks|] == blocks;
  }
}

/** Error-code extraction is local to its block, and every finding has a source there. */
module ErrorCodeFacts {
  import opened Text
  import opened Gherkin
  import opened ErrorCodes

  // ------------------------------------------------------------------ locality

  predicate BlockStart(lines: seq<string>) {
    lines == [] || Boundary(lines[0])
  }

  lemma {:induction false} BodyRunAppend(a: seq<string>, b: seq<string>)
    requires BlockStart(b)
    ensures BodyRun(a + b) == BodyRun(a)
  {
    hide Boundary;
    if a == [] {
      assert a + b == b;
    } else {
      assert (a + b)[1..] == a[1..] + b;
      BodyRunAppend(a[1..], b);
    }
  }

  lemma BlocksUnroll(lines: seq<string>, at: nat)
    requires lines != []
    ensures var n := 1 + BodyRun(lines[1..]);
            Blocks(lines, at) == [Block(at, lines[..n])] + Blocks(lines[n..], at + n)
  {
    hide BodyRun;
  }

  lemma {:induction false} BlocksAppend(a: seq<string>, b: seq<string>, at: nat)
    requires BlockStart(b)
    ensures Blocks(a + b, at) == Blocks(a, at) + Blocks(b, at + |a|)
    decreases |a|
  {
    hide Boundary, BlockStart, Blocks, BodyRun;
    if a == [] {
      assert a + b == b;
      NoBlocks(at);
    } else {
      var n := 1 + BodyRun(a[1..]);
      assert (a + b)[1..] == a[1..] + b;
      BodyRunAppend(a[1..], b);
      BlocksUnroll(a, at);
      BlocksUnroll(a + b, at);
      assert (a + b)[..n] == a[..n] && (a + b)[n..] == a[n..] + b;
      BlocksAppend(a[n..], b, at + n);
    }
  }

  lemma {:induction false} AllCodesAppend(a: seq<Block>, b: seq<Block>)
    ensures AllCodes(a + b) == AllCodes(a) + AllCodes(b)
  {
    hide BlockCodes;
    if b == [] {
      assert a + b == a;
    } else {
      assert (a + b)[..|a + b| - 1] == a + b[..|b| - 1];
      AllCodesAppend(a, b[..|b| - 1]);
    }
  }

  function Shift(found: seq<Finding>, d: int): (r: seq<Finding>)
    ensures |r| == |found|
    ensures forall i | 0 <= i < |r| :: r[i] == Finding(found[i].line + d, found[i].code)
  {
    seq(|found|, i requires 0 <= i < |found| => Finding(found[i].line + d, found[i].code))
  }

  lemma ShiftAppend(a: seq<Finding>, b: seq<Finding>, d: int)
    ensures Shift(a + b, d) == Shift(a, d) + Shift(b, d)
  {
  }

  lemma {:induction false} OnShift(line: int, codes: seq<string>, d: int)
    ensures On(line + d, codes) == Shift(On(line, codes), d)
  {
    if codes != [] {
      OnShift(line, codes[..|codes| - 1], d);
    }
  }

  lemma {:induction false} LinesCodesShift(columns: seq<Column>, lines: seq<string>, at: int, d: int)
    ensures LinesCodes(columns, lines, at + d) == Shift(LinesCodes(columns, lines, at), d)
  {
    hide LineCodes, On, Shift;
    if lines == [] {
      assert Shift([], d) == [];
    } else {
      var n := |lines| - 1;
      LinesCodesShift(columns, lines[..n], at, d);
      OnShift(at + n + 1, LineCodes(columns, lines[n]), d);
      ShiftAppend(LinesCodes(columns, lines[..n], at), On(at + n + 1, LineCodes(columns, lines[n])), d);
    }
  }

  lemma BlockCodesShift(b: Block, d: nat)
    ensures BlockCodes(Block(b.start + d, b.lines)) == Shift(BlockCodes(b), d)
  {
    hide LinesCodes, BlockColumns, ColumnCodes, Shift, On;
    var columns := BlockColumns(b.lines);
    LinesCodesShift(columns, b.lines, b.start, d);
    OnShift(b.start + 1, ColumnCodes(columns), d);
    ShiftAppend(LinesCodes(columns, b.lines, b.start), On(b.start + 1, ColumnCodes(columns)), d);
  }

  lemma {:induction false} AllCodesShift(lines: seq<string>, at: nat, d: nat)
    ensures AllCodes(Blocks(lines, at + d)) == Shift(AllCodes(Blocks(lines, at)), d)
    decreases |lines|
  {
    hide BlockCodes, BodyRun, Blocks, AllCodes, Shift;
    if lines == [] {
      NoBlocks(at);
      NoBlocks(at + d);
      assert AllCodes([]) == [] && Shift([], d) == [] by {
        NoCodes(d);
      }
    } else {
      var n := 1 + BodyRun(lines[1..]);
      BlocksUnroll(lines, at);
      BlocksUnroll(lines, at + d);
      AllCodesShift(lines[n..], at + n, d);
      var first, moved := Block(at, lines[..n]), Block(at + d, lines[..n]);
      BlockCodesShift(first, d);
      AllCodesAppend([first], Blocks(lines[n..], at + n));
      AllCodesAppend([moved], Blocks(lines[n..], at + d + n));
      OneBlock(first);
      OneBlock(moved);
      ShiftAppend(BlockCodes(first), AllCodes(Blocks(lines[n..], at + n)), d);
    }
  }

  lemma NoCodes(d: int)
    ensures AllCodes([]) == [] && Shift([], d) == []
  {
  }

  lemma OneBlock(b: Block)
    ensures AllCodes([b]) == BlockCodes(b)
  {
    hide BlockCodes;
    assert [b][..0] == [];
    assert AllCodes([]) == [];
  }

  /** Extraction is local: where the second file starts a block, the codes of the two files one after the other
      are the codes of the first followed by those of the second, with line numbers moved by the length of the
      first. No placeholder, table header or row reaches across. */
  lemma CodesAreLocal(a: seq<string>, b: seq<string>)
    requires BlockStart(b)
    ensures Codes(a + b) == Codes(a) + Shift(Codes(b), |a|)
  {
    hide BlockStart, Blocks, AllCodes;
    BlocksAppend(a, b, 0);
    AllCodesAppend(Blocks(a, 0), Blocks(b, |a|));
    AllCodesShift(b, 0, |a|);
  }

  // ------------------------------------------------------------------ blocks partition the file

  function Flatten(blocks: seq<Block>): seq<string> {
    if blocks == [] then [] else blocks[0].lines + Flatten(blocks[1..])
  }

  predicate BlockOk(b: Block, at: nat, lines: seq<string>) {
    && b.lines != [] && at <= b.start && b.start + |b.lines| <= at + |lines|
    && lines[b.start - at..][..|b.lines|] == b.lines
    && (b.start == at || Boundary(b.lines[0]))
    && forall i | 1 <= i < |b.lines| :: !Boundary(b.lines[i])
  }

  lemma {:induction false} BodyRunFacts(lines: seq<string>)
    ensures forall i | 0 <= i < BodyRun(lines) :: !Boundary(lines[i])
    ensures BodyRun(lines) < |lines| ==> Boundary(lines[BodyRun(lines)])
  {
    hide Boundary;
    if lines != [] && !Boundary(lines[0]) {
      BodyRunFacts(lines[1..]);
      forall i | 1 <= i < BodyRun(lines) ensures !Boundary(lines[i]) {
        assert lines[i] == lines[1..][i - 1];
      }
    }
  }

  lemma FirstBlock(lines: seq<string>, at: nat)
    requires lines != []
    ensures BlockOk(Block(at, lines[..1 + BodyRun(lines[1..])]), at, lines)
  {
    hide Boundary, BodyRun;
    var n := 1 + BodyRun(lines[1..]);
    BodyRunFacts(lines[1..]);
    forall i | 1 <= i < n ensures !Boundary(lines[..n][i]) {
      assert lines[..n][i] == lines[1..][i - 1];
    }
    assert lines[0..] == lines;
  }

  lemma LaterBlock(b: Block, at: nat, n: nat, lines: seq<string>)
    requires 0 < n <= |lines| && BlockOk(b, at + n, lines[n..]) && (n < |lines| ==> Boundary(lines[n]))
    ensures BlockOk(b, at, lines)
  {
    hide Boundary;
    assert lines[n..][b.start - at - n..] == lines[b.start - at..];
    if b.start == at + n {
      assert b.lines[0] == lines[n];
    }
  }

  /** The blocks are the file cut at its block boundaries, in order, nothing lost; every block knows where it
      starts. */
  lemma {:induction false} BlocksPartition(lines: seq<string>, at: nat)
    ensures Flatten(Blocks(lines, at)) == lines
    ensures forall b | b in Blocks(lines, at) :: BlockOk(b, at, lines)
    decreases |lines|
  {
    hide Boundary, BlockOk, BodyRun, Blocks;
    if lines == [] {
      NoBlocks(at);
    } else {
      var n := 1 + BodyRun(lines[1..]);
      BlocksUnroll(lines, at);
      BlocksPartition(lines[n..], at + n);
      FirstBlock(lines, at);
      BodyRunFacts(lines[1..]);
      var rest := Blocks(lines[n..], at + n);
      forall b | b in rest ensures BlockOk(b, at, lines) {
        if n < |lines| {
          assert lines[n] == lines[1..][n - 1];
        }
        LaterBlock(b, at, n, lines);
      }
      var all := Blocks(lines, at);
      assert all[1..] == rest;
      assert lines == lines[..n] + lines[n..];
      forall b | b in all ensures BlockOk(b, at, lines) {
        assert b == all[0] || b in all[1..];
      }
    }
  }

  // ------------------------------------------------------------------ where a finding comes from

  predicate Within(code: string, line: string) {
    exists i: nat, j: nat | i <= j <= |line| :: line[i..j] == code
  }

  /** Some table row among the lines has the text in it. */
  predicate InSomeRow(code: string, lines: seq<string>) {
    exists i | 0 <= i < |lines| :: RowStart(lines[i]) && Within(code, lines[i])
  }

  /** A finding of a block: it names a line of the block, and the code stands on that line; or it stands in a
      table row of the same block, and the line has a placeholder or is the block's first. */
  predicate HasSource(f: Finding, b: Block) {
    && b.start < f.line <= b.start + |b.lines|
    && var line := b.lines[f.line - b.start - 1];
    && (Within(f.code, line) || (InSomeRow(f.code, b.lines) && ('<' in line || f.line == b.start + 1)))
  }

  lemma {:induction false} FoundOnLine(p: Pattern, line: string, i: nat)
    requires i <= |line|
    ensures forall code | code in FindAll(p, line, i) :: Within(code, line)
    decreases |line| - i
  {
    hide MatchAt;
    if i < |line| {
      match MatchAt(p, line, i) {
        case None => FoundOnLine(p, line, i + 1);
        case Some(m) => FoundOnLine(p, line, m.next);
      }
    }
  }

  lemma WithinPart(code: string, part: string, line: string, from: nat)
    requires Within(code, part) && from + |part| <= |line| && line[from..from + |part|] == part
    ensures Within(code, line)
  {
    var i: nat, j: nat :| i <= j <= |part| && part[i..j] == code;
    var slice := line[from + i..from + j];
    forall k | 0 <= k < j - i ensures slice[k] == part[i + k] {
      assert line[from..from + |part|][i + k] == line[from + i + k];
    }
    assert slice == part[i..j];
  }

  lemma StripWithin(line: string)
    ensures Within(Strip(line), line)
  {
    var left, right := StripParts(line);
    assert line[|left|..|left| + |Strip(line)|] == Strip(line);
  }

  lemma {:induction false} BarsWithin(s: string)
    ensures exists k: nat :: k + |LStripBars(s)| == |s| && s[k..] == LStripBars(s)
    ensures RStripBars(s) <= s
  {
    if s != "" && s[0] == '|' {
      BarsWithin(s[1..]);
      var k: nat :| k + |LStripBars(s[1..])| == |s[1..]| && s[1..][k..] == LStripBars(s[1..]);
      assert s[k + 1..] == LStripBars(s);
    } else {
      assert s[0..] == s;
    }
    RightBars(s);
  }

  lemma {:induction false} RightBars(s: string)
    ensures RStripBars(s) <= s
  {
    if s != "" && s[|s| - 1] == '|' {
      RightBars(s[..|s| - 1]);
    }
  }

  lemma {:induction false} PartsWithin(s: string, sep: char)
    ensures SplitOn(s, sep)[0] <= s
    ensures forall part | part in SplitOn(s, sep) :: Within(part, s)
  {
    var parts := SplitOn(s, sep);
    if s != "" {
      var rest := SplitOn(s[1..], sep);
      PartsWithin(s[1..], sep);
      forall part | part in parts ensures Within(part, s) {
        if part == parts[0] {
          assert s[0..|part|] == part;
        } else {
          assert part in rest;
          WithinPart(part, s[1..], s, 1);
        }
      }
    } else {
      assert s[0..0] == "";
    }
  }

  lemma CellsWithin(line: string)
    ensures forall cell | cell in Cells(line) :: Within(cell, line)
  {
    hide Within, StripAll, SplitOn, RStripBars, LStripBars, Strip;
    var t := Strip(line);
    var u := LStripBars(t);
    var v := RStripBars(u);
    BarsWithin(t);
    BarsWithin(u);
    PartsWithin(v, '|');
    StripWithin(line);
    forall cell | cell in Cells(line) ensures Within(cell, line) {
      var i :| 0 <= i < |Cells(line)| && Cells(line)[i] == cell;
      var part := SplitOn(v, '|')[i];
      StripWithin(part);
      WithinTrans(cell, part, v);
      assert u[0..|v|] == v && Within(v, u) by {
        SliceWithin(u, 0, |v|);
      }
      WithinTrans(cell, v, u);
      var k: nat :| k + |u| == |t| && t[k..] == u;
      SliceWithin(t, k, |t|);
      assert t[k..|t|] == u;
      WithinTrans(cell, u, t);
      WithinTrans(cell, t, line);
    }
  }

  lemma SliceWithin(s: string, i: nat, j: nat)
    requires i <= j <= |s|
    ensures Within(s[i..j], s)
  {
  }

  lemma WithinTrans(a: string, b: string, c: string)
    requires Within(a, b) && Within(b, c)
    ensures Within(a, c)
  {
    var i: nat, j: nat :| i <= j <= |c| && c[i..j] == b;
    WithinPart(a, b, c, i);
  }

  /** The text is a value of some column. */
  predicate HasValue(columns: seq<Column>, code: string) {
    exists i | 0 <= i < |columns| :: code in columns[i].values
  }

  lemma {:induction false} AddCellValues(columns: seq<Column>, name: string, value: string, code: string)
    requires HasValue(AddCell(columns, name, value), code)
    ensures HasValue(columns, code) || code == value
  {
    var more := AddCell(columns, name, value);
    var i :| 0 <= i < |more| && code in more[i].values;
    if columns != [] {
      if columns[0].name == name {
        assert i > 0 ==> more[i] == columns[i];
      } else if i > 0 {
        assert more[i] == AddCell(columns[1..], name, value)[i - 1];
        AddCellValues(columns[1..], name, value, code);
        if k :| 0 <= k < |columns[1..]| && code in columns[1..][k].values {
          assert code in columns[k + 1].values;
        }
      }
    }
  }

  lemma {:induction false} AddRowValues(columns: seq<Column>, header: seq<string>, cells: seq<string>, code: string)
    requires HasValue(AddRow(columns, header, cells), code)
    ensures HasValue(columns, code) || code in cells
    decreases |cells|
  {
    hide HasValue, AddCell;
    if header != [] && cells != [] {
      AddRowValues(AddCell(columns, header[0], cells[0]), header[1..], cells[1..], code);
      if HasValue(AddCell(columns, header[0], cells[0]), code) {
        AddCellValues(columns, header[0], cells[0], code);
      }
    }
  }

  lemma {:induction false} ColumnsFromRows(lines: seq<string>, code: string)
    requires HasValue(AfterLines(Table([], None), lines).columns, code)
    ensures InSomeRow(code, lines)
  {
    hide HasValue, AddRow, Cells, RowStart, Within, InSomeRow;
    if lines == [] {
      NoValues(code);
    } else {
      var front, last := lines[..|lines| - 1], lines[|lines| - 1];
      var before := AfterLines(Table([], None), front);
      if HasValue(before.columns, code) {
        ColumnsFromRows(front, code);
        MoreRows(code, front, lines);
      } else {
        AddRowValues(before.columns, before.header.value, Cells(last), code);
        CellsWithin(last);
        RowHere(code, lines, |lines| - 1);
      }
    }
  }

  lemma NoValues(code: string)
    ensures !HasValue([], code)
  {
  }

  lemma MoreRows(code: string, front: seq<string>, lines: seq<string>)
    requires front <= lines && InSomeRow(code, front)
    ensures InSomeRow(code, lines)
  {
    hide Within, RowStart;
    var i :| 0 <= i < |front| && RowStart(front[i]) && Within(code, front[i]);
    assert lines[i] == front[i];
  }

  lemma RowHere(code: string, lines: seq<string>, i: nat)
    requires i < |lines| && RowStart(lines[i]) && Within(code, lines[i])
    ensures InSomeRow(code, lines)
  {
  }

  lemma {:induction false} ValuesOfValues(columns: seq<Column>, name: string, code: string)
    requires code in ValuesOf(columns, name)
    ensures HasValue(columns, code)
  {
    if columns[0].name != name {
      ValuesOfValues(columns[1..], name, code);
      var k :| 0 <= k < |columns[1..]| && code in columns[1..][k].values;
      assert code in columns[k + 1].values;
    }
  }

  lemma {:induction false} ResolveSource(columns: seq<Column>, tokens: seq<string>, code: string)
    requires code in Resolve(columns, tokens)
    ensures code in tokens || (HasValue(columns, code) && exists token | token in tokens :: IsPlaceholder(token))
  {
    hide HasValue;
    var front, last := tokens[..|tokens| - 1], tokens[|tokens| - 1];
    assert last in tokens && forall t | t in front :: t in tokens;
    if code in Resolve(columns, front) {
      ResolveSource(columns, front, code);
    } else if IsPlaceholder(last) {
      ValuesOfValues(columns, PlaceholderName(last), code);
    }
  }

  /** The code stands on the line, or came through a placeholder on it. */
  predicate LineSource(columns: seq<Column>, line: string, code: string) {
    Within(code, line) || (HasValue(columns, code) && '<' in line)
  }

  lemma TokensSource(columns: seq<Column>, p: Pattern, line: string, code: string)
    requires code in Resolve(columns, FindAll(p, line, 0))
    ensures LineSource(columns, line, code)
  {
    hide HasValue, FindAll;
    ResolveSource(columns, FindAll(p, line, 0), code);
    FoundOnLine(p, line, 0);
    if code !in FindAll(p, line, 0) {
      var token :| token in FindAll(p, line, 0) && IsPlaceholder(token);
      var i: nat, j: nat :| i <= j <= |line| && line[i..j] == token;
      assert line[i] == token[0] == '<';
    }
  }

  lemma LineCodesSource(columns: seq<Column>, line: string, code: string)
    requires code in LineCodes(columns, line)
    ensures LineSource(columns, line, code)
  {
    hide FindAll, Resolve, HasValue, Within, RowStart, Contains;
    if code in Resolve(columns, FindAll(ShouldBe, line, 0)) {
      TokensSource(columns, ShouldBe, line, code);
    } else if code in Resolve(columns, FindAll(AnyQuoted, line, 0)) {
      TokensSource(columns, AnyQuoted, line, code);
    } else {
      FoundOnLine(Cell, line, 0);
      FoundOnLine(BareSentence, line, 0);
    }
  }

  lemma {:induction false} OnMember(line: int, codes: seq<string>, f: Finding)
    ensures f in On(line, codes) <==> f.line == line && f.code in codes
  {
    if codes != [] {
      var n := |codes| - 1;
      OnMember(line, codes[..n], f);
      assert f.code in codes <==> f.code in codes[..n] || f.code == codes[n];
    }
  }

  lemma {:induction false} LinesCodesSource(columns: seq<Column>, lines: seq<string>, at: int, f: Finding)
    requires f in LinesCodes(columns, lines, at)
    ensures at < f.line <= at + |lines| && LineSource(columns, lines[f.line - at - 1], f.code)
  {
    hide LineCodes, LineSource, On;
    var n := |lines| - 1;
    OnMember(at + n + 1, LineCodes(columns, lines[n]), f);
    if f in LinesCodes(columns, lines[..n], at) {
      LinesCodesSource(columns, lines[..n], at, f);
    } else {
      LineCodesSource(columns, lines[n], f.code);
    }
  }

  lemma {:induction false} BareCodesIn(values: seq<string>, code: string)
    requires code in BareCodes(values)
    ensures code in values && BareCode(code)
  {
    var front := values[..|values| - 1];
    if code in BareCodes(front) {
      BareCodesIn(front, code);
    }
  }

  lemma {:induction false} ColumnCodesIn(columns: seq<Column>, code: string)
    requires code in ColumnCodes(columns)
    ensures HasValue(columns, code)
  {
    hide ErrorColumn, BareCodes;
    var n := |columns| - 1;
    if code in ColumnCodes(columns[..n]) {
      ColumnCodesIn(columns[..n], code);
      var k :| 0 <= k < n && code in columns[..n][k].values;
      assert code in columns[k].values;
    } else {
      BareCodesIn(columns[n].values, code);
    }
  }

  lemma BlockCodesSource(b: Block, f: Finding)
    requires b.lines != [] && f in BlockCodes(b)
    ensures HasSource(f, b)
  {
    hide LinesCodes, ColumnCodes, HasValue, Within, InSomeRow, On;
    var columns := BlockColumns(b.lines);
    OnMember(b.start + 1, ColumnCodes(columns), f);
    if f in LinesCodes(columns, b.lines, b.start) {
      LinesCodesSource(columns, b.lines, b.start, f);
      if HasValue(columns, f.code) {
        ColumnsFromRows(b.lines, f.code);
      }
    } else {
      ColumnCodesIn(columns, f.code);
      ColumnsFromRows(b.lines, f.code);
    }
  }

  lemma {:induction false} AllCodesSource(blocks: seq<Block>, f: Finding)
    requires f in AllCodes(blocks)
    ensures exists b | b in blocks :: f in BlockCodes(b)
  {
    hide BlockCodes;
    var n := |blocks| - 1;
    if f in AllCodes(blocks[..n]) {
      AllCodesSource(blocks[..n], f);
    } else {
      assert blocks[n] in blocks;
    }
  }

  /** Every finding names a line of the file, in a block that holds the code: on that very line, or, when the
      line has a placeholder or is the first of the block, in a table row of the same block. */
  lemma FindingsHaveSource(lines: seq<string>, f: Finding)
    requires f in Codes(lines)
    ensures 1 <= f.line <= |lines|
    ensures exists b | b in Blocks(lines, 0) :: HasSource(f, b) && lines[f.line - 1] == b.lines[f.line - b.start - 1]
  {
    hide BlockCodes, Blocks, HasSource, BlockOk, AllCodes;
    AllCodesSource(Blocks(lines, 0), f);
    var b :| b in Blocks(lines, 0) && f in BlockCodes(b);
    BlocksPartition(lines, 0);
    assert BlockOk(b, 0, lines);
    BlockLines(b, lines);
    BlockCodesSource(b, f);
    SourceLine(f, b);
    assert lines[b.start + (f.line - b.start - 1)] == b.lines[f.line - b.start - 1];
  }

  lemma BlockLines(b: Block, lines: seq<string>)
    requires BlockOk(b, 0, lines)
    ensures b.lines != [] && b.start + |b.lines| <= |lines|
    ensures forall k | 0 <= k < |b.lines| :: lines[b.start + k] == b.lines[k]
  {
    hide Boundary;
    forall k | 0 <= k < |b.lines| ensures lines[b.start + k] == b.lines[k] {
      assert lines[b.start..][..|b.lines|][k] == lines[b.start + k];
    }
  }

  lemma SourceLine(f: Finding, b: Block)
    requires HasSource(f, b)
    ensures b.start < f.line <= b.start + |b.lines|
  {
    hide Within, InSomeRow;
  }

  // ------------------------------------------------------------------ the gate

  /** `CODE_RE`. */
  predicate CodeShaped(code: string) {
    || BareCode(code)
    || (code != "" && 'a' <= code[0] <= 'z' && EndsWith(code[1..], "_error")
        && forall i | 0 <= i < |code| :: 'a' <= code[i] <= 'z' || IsDigit(code[i]) || code[i] == '_')
  }

  predicate GatePasses(lines: seq<string>, canonical: set<string>) {
    forall i | 0 <= i < |Codes(lines)| :: CodeShaped(Codes(lines)[i].code) ==> Codes(lines)[i].code in canonical
  }

  /** A file passes the gate if and only if its parts do, cut at any block boundary. */
  lemma GateIsCompositional(a: seq<string>, b: seq<string>, canonical: set<string>)
    requires BlockStart(b)
    ensures GatePasses(a + b, canonical) <==> GatePasses(a, canonical) && GatePasses(b, canonical)
  {
    hide Codes, CodeShaped, BlockStart;
    CodesAreLocal(a, b);
    var whole, first, second := Codes(a + b), Codes(a), Shift(Codes(b), |a|);
    assert forall i | 0 <= i < |first| :: whole[i] == first[i];
    assert forall i | 0 <= i < |second| :: whole[|first| + i] == second[i];
    assert forall i | |first| <= i < |whole| :: whole[i] == second[i - |first|];
  }
}
