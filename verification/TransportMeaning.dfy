/** What an outline means is the set of concrete step lists its Examples expand to. Removing the
    `transport` column keeps that set, except for tables that had no other column. */
module TransportMeaning {
  import opened Text
  import opened Gherkin
  import opened StepRewrite

  // ------------------------------------------------------------------ expansion of an outline

  function CloseAt(s: string): (r: Option<nat>)
    ensures r.Some? ==> r.value < |s| && s[r.value] == '>'
  {
    if s == "" then None
    else if s[0] == '>' then Some(0)
    else match CloseAt(s[1..]) case None => None case Some(i) => Some(i + 1)
  }

  /** A `<name>` in front of `s` that `columns` defines. */
  predicate Opens(s: string, columns: map<string, string>) {
    s != "" && s[0] == '<' && CloseAt(s).Some? && s[1..CloseAt(s).value] in columns
  }

  function Subst(text: string, columns: map<string, string>): string
    decreases |text|
  {
    if text == "" then ""
    else if Opens(text, columns) then
      var close := CloseAt(text).value;
      columns[text[1..close]] + Subst(text[close + 1..], columns)
    else [text[0]] + Subst(text[1..], columns)
  }

  function SubstAll(texts: seq<string>, columns: map<string, string>): seq<string> {
    if texts == [] then [] else [Subst(texts[0], columns)] + SubstAll(texts[1..], columns)
  }

  function SubstSteps(steps: seq<Step>, columns: map<string, string>): seq<Step> {
    if steps == [] then []
    else [Step(steps[0].keyword, Subst(steps[0].text, columns), SubstAll(steps[0].tableRows, columns))]
         + SubstSteps(steps[1..], columns)
  }

  function Columns(header: seq<string>, cells: seq<string>): map<string, string> {
    if header == [] || cells == [] then map[]
    else map[header[0] := cells[0]] + Columns(header[1..], cells[1..])
  }

  /** The steps that data row `i` of a table produces. */
  function Instance(steps: seq<Step>, block: ExamplesBlock, i: nat): seq<Step>
    requires 1 <= i < |block.rows|
  {
    SubstSteps(steps, Columns(Cells(block.rows[0]), Cells(block.rows[i])))
  }

  ghost predicate BlockMeans(steps: seq<Step>, block: ExamplesBlock, concrete: seq<Step>) {
    exists i | 1 <= i < |block.rows| :: Instance(steps, block, i) == concrete
  }

  /** `concrete` is one of the step lists that running `s` executes. */
  ghost predicate Means(s: Scenario, concrete: seq<Step>) {
    if s.keyword == OUTLINE then exists k | 0 <= k < |s.examples| :: BlockMeans(s.steps, s.examples[k], concrete)
    else concrete == s.steps
  }

  // ------------------------------------------------------------------ hypotheses on the tables

  predicate WidthOk(block: ExamplesBlock) {
    forall i | 0 <= i < |block.rows| :: |Cells(block.rows[i])| == |Cells(block.rows[0])|
  }

  predicate WordName(name: string) {
    name != "" && forall i | 0 <= i < |name| :: IsWord(name[i])
  }

  predicate WordHeader(block: ExamplesBlock) {
    block.rows != [] ==> forall i | 0 <= i < |Cells(block.rows[0])| :: WordName(Cells(block.rows[0])[i])
  }

  predicate TablesPlain(steps: seq<Step>) {
    forall i, j | 0 <= i < |steps| && 0 <= j < |steps[i].tableRows| :: !HasPlaceholder(steps[i].tableRows[j])
  }

  predicate HasDataRow(block: ExamplesBlock) {
    |block.rows| >= 2
  }

  /** Rows match the header width, columns have word names, step tables carry no placeholder, and there is a data row. */
  predicate OutlineOk(s: Scenario) {
    && (forall k | 0 <= k < |s.examples| :: WidthOk(s.examples[k]) && WordHeader(s.examples[k]))
    && TablesPlain(s.steps)
    && (exists k | 0 <= k < |s.examples| :: HasDataRow(s.examples[k]))
  }

  /** A table whose only column is `transport`, with data. */
  predicate OnlyTransport(block: ExamplesBlock) {
    HasDataRow(block) && Cells(block.rows[0]) == ["transport"]
  }

  /** A table with more than one data row and another column: it keeps the scenario an outline. */
  predicate LargeTable(block: ExamplesBlock) {
    |block.rows| > 2 && Cells(block.rows[0]) != ["transport"]
  }

  /** Some table of an outline that stays an outline has only the `transport` column. */
  predicate LosesTable(s: Scenario) {
    && (exists k | 0 <= k < |s.examples| :: OnlyTransport(s.examples[k]))
    && (AnyPlaceholder(s.steps) || exists k | 0 <= k < |s.examples| :: LargeTable(s.examples[k]))
  }

  // ------------------------------------------------------------------ substitution

  ghost predicate AgreeOffTransport(a: map<string, string>, b: map<string, string>) {
    forall name: string | name != "transport" :: (name in a <==> name in b) && (name in a ==> a[name] == b[name])
  }

  lemma NotInSuffix(s: string, needle: string, n: nat)
    requires n <= |s| && !Contains(s, needle)
    ensures !Contains(s[n..], needle)
  {
    forall i: nat | i <= |s[n..]| ensures !OccursAt(needle, s[n..], i) {
      if i + |needle| <= |s[n..]| {
        assert s[n..][i..i + |needle|] == s[n + i..n + i + |needle|];
      }
      assert !OccursAt(needle, s, n + i);
    }
  }

  lemma CloseIsTransport(text: string)
    requires text != "" && text[0] == '<' && CloseAt(text).Some? && text[1..CloseAt(text).value] == "transport"
    ensures Contains(text, "<transport>")
  {
    var c := CloseAt(text).value;
    assert text[..c + 1] == [text[0]] + text[1..c] + [text[c]];
    assert text[0..0 + 11] == "<transport>";
    assert OccursAt("<transport>", text, 0);
  }

  lemma {:induction false} SubstAgree(text: string, a: map<string, string>, b: map<string, string>)
    requires AgreeOffTransport(a, b) && !Contains(text, "<transport>")
    ensures Subst(text, a) == Subst(text, b)
    decreases |text|
  {
    hide Contains;
    if text != "" {
      if text[0] == '<' && CloseAt(text).Some? {
        if text[1..CloseAt(text).value] == "transport" {
          CloseIsTransport(text);
        }
      }
      assert Opens(text, a) == Opens(text, b);
      if Opens(text, a) {
        NotInSuffix(text, "<transport>", CloseAt(text).value + 1);
        SubstAgree(text[CloseAt(text).value + 1..], a, b);
      } else {
        NotInSuffix(text, "<transport>", 1);
        SubstAgree(text[1..], a, b);
      }
    }
  }

  lemma {:induction false} SubstNothing(text: string)
    ensures Subst(text, map[]) == text
  {
    if text != "" {
      SubstNothing(text[1..]);
    }
  }

  ghost predicate WordColumns(columns: map<string, string>) {
    forall name | name in columns :: WordName(name)
  }

  lemma {:induction false} WordRunOf(name: string, tail: string)
    requires forall i | 0 <= i < |name| :: IsWord(name[i])
    requires tail != "" && !IsWord(tail[0])
    ensures WordRun(name + tail) == |name|
  {
    if name == "" {
      assert name + tail == tail;
    } else {
      assert (name + tail)[1..] == name[1..] + tail;
      WordRunOf(name[1..], tail);
    }
  }

  lemma OpensIsPlaceholder(text: string, columns: map<string, string>)
    requires WordColumns(columns) && Opens(text, columns)
    ensures HasPlaceholder(text)
  {
    hide IsWord;
    var c := CloseAt(text).value;
    var name := text[1..c];
    assert WordName(name);
    var tail := text[c..];
    assert text[1..] == name + tail;
    CloseNotWord();
    WordRunOf(name, tail);
  }

  lemma CloseNotWord()
    ensures !IsWord('>')
  {
  }

  /** A text without placeholders is untouched by any table with word-named columns. */
  lemma {:induction false} SubstUntouched(text: string, columns: map<string, string>)
    requires WordColumns(columns) && !HasPlaceholder(text)
    ensures Subst(text, columns) == text
  {
    if text != "" {
      if Opens(text, columns) {
        OpensIsPlaceholder(text, columns);
      }
      SubstUntouched(text[1..], columns);
    }
  }

  lemma {:induction false} TransportIsPlaceholder(text: string, i: nat)
    requires i <= |text| && OccursAt("<transport>", text, i)
    ensures HasPlaceholder(text)
  {
    if i == 0 {
      assert text[0] == '<';
      var name := "transport";
      assert text[0..11] == "<transport>";
      assert text[1..10] == text[0..11][1..10] == name;
      assert text[10] == text[0..11][10];
      assert text[1..] == name + text[10..];
      TransportWord();
      WordRunOf(name, text[10..]);
    } else {
      assert text[1..][i - 1..i - 1 + 11] == text[i..i + 11];
      TransportIsPlaceholder(text[1..], i - 1);
    }
  }

  lemma TransportWord()
    ensures WordName("transport")
  {
  }

  lemma PlainHasNoTransport(text: string)
    requires !HasPlaceholder(text)
    ensures !Contains(text, "<transport>")
  {
    if Contains(text, "<transport>") {
      var i: nat :| i <= |text| && OccursAt("<transport>", text, i);
      TransportIsPlaceholder(text, i);
    }
  }

  lemma {:induction false} RowsAgree(rows: seq<string>, a: map<string, string>, b: map<string, string>)
    requires AgreeOffTransport(a, b)
    requires forall j | 0 <= j < |rows| :: !HasPlaceholder(rows[j])
    ensures SubstAll(rows, a) == SubstAll(rows, b)
  {
    if rows != [] {
      PlainHasNoTransport(rows[0]);
      SubstAgree(rows[0], a, b);
      RowsAgree(rows[1..], a, b);
    }
  }

  lemma {:induction false} StepsAgree(steps: seq<Step>, a: map<string, string>, b: map<string, string>)
    requires AgreeOffTransport(a, b) && TablesPlain(steps) && !AnyTransport(steps)
    ensures SubstSteps(steps, a) == SubstSteps(steps, b)
  {
    hide Contains, HasPlaceholder, Subst, SubstAll, AgreeOffTransport;
    if steps != [] {
      SubstAgree(steps[0].text, a, b);
      RowsAgree(steps[0].tableRows, a, b);
      assert forall i | 0 <= i < |steps[1..]| :: steps[1..][i] == steps[i + 1];
      StepsAgree(steps[1..], a, b);
    }
  }

  lemma {:induction false} RowsUntouched(rows: seq<string>, columns: map<string, string>)
    requires WordColumns(columns) && forall j | 0 <= j < |rows| :: !HasPlaceholder(rows[j])
    ensures SubstAll(rows, columns) == rows
  {
    if rows != [] {
      SubstUntouched(rows[0], columns);
      RowsUntouched(rows[1..], columns);
    }
  }

  lemma {:induction false} StepsUntouched(steps: seq<Step>, columns: map<string, string>)
    requires WordColumns(columns) && TablesPlain(steps) && !AnyPlaceholder(steps)
    ensures SubstSteps(steps, columns) == steps
  {
    hide HasPlaceholder, Subst, SubstAll, WordColumns;
    if steps != [] {
      SubstUntouched(steps[0].text, columns);
      RowsUntouched(steps[0].tableRows, columns);
      assert forall i | 0 <= i < |steps[1..]| :: steps[1..][i] == steps[i + 1];
      StepsUntouched(steps[1..], columns);
    }
  }

  lemma {:induction false} RowsUnbound(rows: seq<string>)
    ensures SubstAll(rows, map[]) == rows
  {
    if rows != [] {
      SubstNothing(rows[0]);
      RowsUnbound(rows[1..]);
    }
  }

  lemma {:induction false} StepsUnbound(steps: seq<Step>)
    ensures SubstSteps(steps, map[]) == steps
  {
    hide Subst, SubstAll;
    if steps != [] {
      SubstNothing(steps[0].text);
      RowsUnbound(steps[0].tableRows);
      StepsUnbound(steps[1..]);
    }
  }

  // ------------------------------------------------------------------ cells survive re-formatting

  lemma {:induction false} SplitAtBar(a: string, rest: string)
    requires '|' !in a
    ensures SplitOn(a + "|" + rest, '|') == [a] + SplitOn(rest, '|')
  {
    if a == "" {
      assert a + "|" + rest == "|" + rest;
      assert ("|" + rest)[1..] == rest;
    } else {
      assert (a + "|" + rest)[1..] == a[1..] + "|" + rest;
      assert forall c | c in a[1..] :: c in a;
      assert a[0] in a;
      SplitAtBar(a[1..], rest);
      assert [a[0]] + a[1..] == a;
    }
  }

  lemma {:induction false} SplitNoBar(a: string)
    requires '|' !in a
    ensures SplitOn(a, '|') == [a]
  {
    if a != "" {
      assert forall c | c in a[1..] :: c in a;
      assert a[0] in a;
      SplitNoBar(a[1..]);
      assert [a[0]] + a[1..] == a;
    }
  }

  predicate CellOk(cell: string) {
    Trimmed(cell) && '|' !in cell
  }

  lemma PadCellIs(cell: string) returns (pad: string)
    ensures PadCell(cell) == cell + pad && AllSpace(pad) && '|' !in pad
  {
    pad := if |cell| < 17 then Blanks(17 - |cell|) else "";
    BarNotInSpace(pad);
  }

  lemma BarNotInSpace(pad: string)
    requires AllSpace(pad)
    ensures '|' !in pad
  {
  }

  lemma PaddedCell(cell: string)
    requires CellOk(cell)
    ensures '|' !in " " + PadCell(cell) + " " && Strip(" " + PadCell(cell) + " ") == cell
  {
    hide Strip, PadCell, IsSpace, Trimmed;
    var pad := PadCellIs(cell);
    OneBlank();
    assert AllSpace(pad + " ");
    assert " " + PadCell(cell) + " " == " " + cell + (pad + " ");
    StripUnique(" ", cell, pad + " ");
  }

  lemma OneBlank()
    ensures AllSpace(" ")
  {
  }

  lemma {:induction false} FormattedSplits(cells: seq<string>)
    requires cells != [] && forall i | 0 <= i < |cells| :: CellOk(cells[i])
    ensures StripAll(SplitOn(" " + Join(" | ", PadCells(cells)) + " ", '|')) == cells
  {
    hide CellOk, PadCell, Strip;
    var here := " " + PadCell(cells[0]) + " ";
    PaddedCell(cells[0]);
    if |cells| == 1 {
      assert " " + Join(" | ", PadCells(cells)) + " " == here;
      SplitNoBar(here);
      assert cells == [cells[0]];
    } else {
      var rest := " " + Join(" | ", PadCells(cells[1..])) + " ";
      assert " " + Join(" | ", PadCells(cells)) + " " == here + "|" + rest;
      SplitAtBar(here, rest);
      FormattedSplits(cells[1..]);
      StripAllCons(here, SplitOn(rest, '|'));
      assert cells == [cells[0]] + cells[1..];
    }
  }

  lemma StripAllCons(first: string, rest: seq<string>)
    ensures StripAll([first] + rest) == [Strip(first)] + StripAll(rest)
  {
    assert ([first] + rest)[1..] == rest;
  }

  /** Formatting a row and reading its cells gives the cells back. */
  lemma FormatReadsBack(cells: seq<string>)
    requires cells != [] && forall i | 0 <= i < |cells| :: CellOk(cells[i])
    ensures Cells(FormatRow(cells)) == cells
  {
    hide IsSpace, CellOk;
    var inner := " " + Join(" | ", PadCells(cells)) + " ";
    var row := FormatRow(cells);
    assert row == "|" + inner + "|";
    BarNotSpace();
    StripTrimmed(row);
    assert row[1..] == inner + "|";
    assert LStripBars(row[1..]) == row[1..];
    assert LStripBars(row) == inner + "|";
    assert (inner + "|")[..|inner|] == inner;
    assert RStripBars(inner) == inner;
    FormattedSplits(cells);
  }

  lemma BarNotSpace()
    ensures !IsSpace('|')
  {
  }

  lemma {:induction false} SplitPartsNoBar(s: string)
    ensures forall i | 0 <= i < |SplitOn(s, '|')| :: '|' !in SplitOn(s, '|')[i]
  {
    if s != "" {
      SplitPartsNoBar(s[1..]);
      if s[0] != '|' {
        assert '|' !in [s[0]];
      }
    }
  }

  lemma CellsOk(row: string)
    ensures forall i | 0 <= i < |Cells(row)| :: CellOk(Cells(row)[i])
  {
    hide Strip;
    var parts := SplitOn(RStripBars(LStripBars(Strip(row))), '|');
    SplitPartsNoBar(RStripBars(LStripBars(Strip(row))));
    forall i | 0 <= i < |parts| ensures CellOk(Strip(parts[i])) {
      StripTrimmed(parts[i]);
      var left, right := StripParts(parts[i]);
      assert forall c | c in Strip(parts[i]) :: c in left + Strip(parts[i]) + right;
    }
  }

  lemma RowWithoutReadsBack(row: string, i: nat)
    requires i < |Cells(row)| && |Cells(row)| > 1
    ensures |RowWithout(row, i)| == 1 && Cells(RowWithout(row, i)[0]) == RemoveAt(Cells(row), i)
  {
    hide Cells, CellOk, FormatRow;
    CellsOk(row);
    var parts := RemoveAt(Cells(row), i);
    assert forall j | 0 <= j < |parts| :: parts[j] == Cells(row)[if j < i then j else j + 1];
    FormatReadsBack(parts);
  }

  // ------------------------------------------------------------------ one table

  lemma {:induction false} ColumnsWithout(header: seq<string>, cells: seq<string>, i: nat)
    requires i < |header| == |cells| && header[i] == "transport"
    ensures AgreeOffTransport(Columns(header, cells), Columns(RemoveAt(header, i), RemoveAt(cells, i)))
  {
    if i == 0 {
      assert RemoveAt(header, i) == header[1..] && RemoveAt(cells, i) == cells[1..];
    } else {
      ColumnsWithout(header[1..], cells[1..], i - 1);
      assert RemoveAt(header, i)[1..] == RemoveAt(header[1..], i - 1);
      assert RemoveAt(cells, i)[1..] == RemoveAt(cells[1..], i - 1);
    }
  }

  lemma {:induction false} DroppedCells(rows: seq<string>, i: nat, width: nat)
    requires i < width && forall j | 0 <= j < |rows| :: |Cells(rows[j])| == width
    ensures DropCell(rows, i).Ok?
    ensures width == 1 ==> DropCell(rows, i).value == []
    ensures width > 1 ==> var dropped := DropCell(rows, i).value;
              |dropped| == |rows| && forall j | 0 <= j < |rows| :: Cells(dropped[j]) == RemoveAt(Cells(rows[j]), i)
  {
    hide Cells, RowWithout;
    if rows != [] {
      assert forall j | 0 <= j < |rows[1..]| :: rows[1..][j] == rows[j + 1];
      DroppedCells(rows[1..], i, width);
      if width > 1 {
        RowWithoutReadsBack(rows[0], i);
        var rest := DropCell(rows[1..], i).value;
        var dropped := DropCell(rows, i).value;
        assert dropped == RowWithout(rows[0], i) + rest;
        assert forall j | 1 <= j < |rows| :: dropped[j] == rest[j - 1];
      } else {
        NothingLeft(rows[0]);
      }
    }
  }

  lemma NothingLeft(row: string)
    requires |Cells(row)| == 1
    ensures RowWithout(row, 0) == []
  {
    hide Cells, FormatRow;
    assert RemoveAt(Cells(row), 0) == [];
  }

  /** A table that keeps another column produces the same step lists without `transport`. */
  lemma TableKept(steps: seq<Step>, block: ExamplesBlock, concrete: seq<Step>)
    requires WidthOk(block) && !OnlyTransport(block) && TablesPlain(steps) && !AnyTransport(steps)
    ensures DropColumn(block).Ok?
    ensures BlockMeans(steps, block, concrete) <==> BlockMeans(steps, DropColumn(block).value, concrete)
  {
    hide Cells, AnyTransport, TablesPlain, SubstSteps, DropCell;
    if block.rows != [] {
      var header := Cells(block.rows[0]);
      var column := IndexOf(header, "transport");
      if column.Some? {
        var i := column.value;
        DroppedCells(block.rows, i, |header|);
        var dropped := DropColumn(block).value;
        if |header| > 1 {
          forall j | 1 <= j < |block.rows| ensures Instance(steps, block, j) == Instance(steps, dropped, j) {
            var cells := Cells(block.rows[j]);
            ColumnsWithout(header, cells, i);
            StepsAgree(steps, Columns(header, cells), Columns(RemoveAt(header, i), RemoveAt(cells, i)));
          }
        } else {
          assert header == ["transport"];
        }
      }
    }
  }

  /** A table with no other column meant the bare steps, and means nothing afterwards. */
  lemma TableLost(steps: seq<Step>, block: ExamplesBlock, concrete: seq<Step>)
    requires WidthOk(block) && OnlyTransport(block) && TablesPlain(steps) && !AnyTransport(steps)
    ensures BlockMeans(steps, block, concrete) <==> concrete == steps
    ensures DropColumn(block).Ok? && !BlockMeans(steps, DropColumn(block).value, concrete)
  {
    hide Cells, AnyTransport, TablesPlain, SubstSteps, DropCell;
    var header := Cells(block.rows[0]);
    DroppedCells(block.rows, 0, 1);
    forall j | 1 <= j < |block.rows| ensures Instance(steps, block, j) == steps {
      var cells := Cells(block.rows[j]);
      ColumnsWithout(header, cells, 0);
      assert RemoveAt(header, 0) == [];
      StepsAgree(steps, Columns(header, cells), Columns(RemoveAt(header, 0), RemoveAt(cells, 0)));
      StepsUnbound(steps);
    }
    assert Instance(steps, block, 1) == steps;
  }

  // ------------------------------------------------------------------ the scenario

  lemma {:induction false} DropColumnsAt(blocks: seq<ExamplesBlock>, k: nat)
    requires DropColumns(blocks).Ok? && k < |blocks|
    ensures DropColumn(blocks[k]) == Ok(DropColumns(blocks).value[k])
  {
    hide DropColumn;
    if k > 0 {
      DropColumnsAt(blocks[1..], k - 1);
    }
  }

  lemma {:induction false} DropColumnsOk(blocks: seq<ExamplesBlock>)
    requires forall k | 0 <= k < |blocks| :: DropColumn(blocks[k]).Ok?
    ensures DropColumns(blocks).Ok?
  {
    hide DropColumn;
    if blocks != [] {
      DropColumnsOk(blocks[1..]);
    }
  }

  lemma BlockDrops(block: ExamplesBlock)
    requires WidthOk(block)
    ensures DropColumn(block).Ok?
  {
    hide Cells, DropCell;
    if block.rows != [] {
      var column := IndexOf(Cells(block.rows[0]), "transport");
      if column.Some? {
        DroppedCells(block.rows, column.value, |Cells(block.rows[0])|);
      }
    }
  }

  lemma {:induction false} WordColumnsOf(header: seq<string>, cells: seq<string>)
    requires forall i | 0 <= i < |header| :: WordName(header[i])
    ensures WordColumns(Columns(header, cells))
  {
    hide WordName;
    if header != [] && cells != [] {
      WordColumnsOf(header[1..], cells[1..]);
    }
  }

  /** Without placeholders every data row produces the steps as written. */
  lemma PlainBlock(steps: seq<Step>, block: ExamplesBlock, concrete: seq<Step>)
    requires WordHeader(block) && TablesPlain(steps) && !AnyPlaceholder(steps)
    ensures BlockMeans(steps, block, concrete) <==> (HasDataRow(block) && concrete == steps)
  {
    hide Cells, AnyPlaceholder, TablesPlain, SubstSteps, WordName;
    forall j | 1 <= j < |block.rows| ensures Instance(steps, block, j) == steps {
      WordColumnsOf(Cells(block.rows[0]), Cells(block.rows[j]));
      StepsUntouched(steps, Columns(Cells(block.rows[0]), Cells(block.rows[j])));
    }
    if HasDataRow(block) {
      assert Instance(steps, block, 1) == steps;
    }
  }

  lemma DroppedSize(block: ExamplesBlock)
    requires WidthOk(block)
    ensures DropColumn(block).Ok?
    ensures |DropColumn(block).value.rows| > 2 <==> LargeTable(block)
  {
    hide Cells, DropCell;
    if block.rows != [] {
      var header := Cells(block.rows[0]);
      var column := IndexOf(header, "transport");
      if column.Some? {
        DroppedCells(block.rows, column.value, |header|);
        if |header| == 1 {
          assert header == ["transport"];
        }
      }
    }
  }

  /** Whether the rewrite leaves an outline, read off the input. */
  lemma StaysOutline(s: Scenario)
    requires s.keyword == OUTLINE && OutlineOk(s)
    ensures DropColumns(s.examples).Ok?
    ensures BecomesPlain(s, DropColumns(s.examples).value)
       <==> !AnyPlaceholder(s.steps) && forall k | 0 <= k < |s.examples| :: !LargeTable(s.examples[k])
  {
    hide WidthOk, WordHeader, TablesPlain, AnyPlaceholder, HasDataRow, DropColumn, DropColumns, LargeTable;
    forall k | 0 <= k < |s.examples| ensures DropColumn(s.examples[k]).Ok? {
      BlockDrops(s.examples[k]);
    }
    DropColumnsOk(s.examples);
    var blocks := DropColumns(s.examples).value;
    forall k | 0 <= k < |s.examples| ensures |blocks[k].rows| > 2 <==> LargeTable(s.examples[k]) {
      DropColumnsAt(s.examples, k);
      DroppedSize(s.examples[k]);
    }
  }

  /** The exact effect on the meaning: nothing is added, and only the bare steps of a table that had no
      column besides `transport` can go missing. */
  lemma StripTransportMeaning(s: Scenario, concrete: seq<Step>)
    requires s.keyword == OUTLINE && Strippable(s) && OutlineOk(s)
    ensures StripTransport(s).Ok?
    ensures Means(s, concrete) <==> (Means(StripTransport(s).value, concrete) || (LosesTable(s) && concrete == s.steps))
  {
    hide WidthOk, WordHeader, TablesPlain, AnyTransport, AnyPlaceholder, HasDataRow, OnlyTransport, DropColumn,
         DropColumns, NameWithoutTransport, Contains, BlockMeans, BecomesPlain, LargeTable;
    StaysOutline(s);
    var blocks := DropColumns(s.examples).value;
    if BecomesPlain(s, blocks) {
      forall k | 0 <= k < |s.examples|
        ensures BlockMeans(s.steps, s.examples[k], concrete) <==> (HasDataRow(s.examples[k]) && concrete == s.steps) {
        PlainBlock(s.steps, s.examples[k], concrete);
      }
    } else {
      forall k | 0 <= k < |s.examples|
        ensures BlockMeans(s.steps, s.examples[k], concrete)
           <==> (BlockMeans(s.steps, blocks[k], concrete) || (OnlyTransport(s.examples[k]) && concrete == s.steps)) {
        DropColumnsAt(s.examples, k);
        if OnlyTransport(s.examples[k]) {
          TableLost(s.steps, s.examples[k], concrete);
        } else {
          TableKept(s.steps, s.examples[k], concrete);
        }
      }
    }
  }

  /** A data row of another table produces the bare steps too. */
  ghost predicate BareElsewhere(s: Scenario) {
    exists k | 0 <= k < |s.examples| :: !OnlyTransport(s.examples[k]) && BlockMeans(s.steps, s.examples[k], s.steps)
  }

  /** A table that is lost leaves the bare steps to the other tables. */
  lemma LostUnlessElsewhere(s: Scenario)
    requires s.keyword == OUTLINE && Strippable(s) && OutlineOk(s) && LosesTable(s)
    ensures StripTransport(s).Ok?
    ensures Means(StripTransport(s).value, s.steps) <==> BareElsewhere(s)
  {
    hide WidthOk, WordHeader, TablesPlain, AnyTransport, AnyPlaceholder, HasDataRow, OnlyTransport, DropColumn,
         DropColumns, NameWithoutTransport, Contains, BlockMeans, BecomesPlain, LargeTable;
    StaysOutline(s);
    var blocks := DropColumns(s.examples).value;
    forall k | 0 <= k < |s.examples|
      ensures BlockMeans(s.steps, blocks[k], s.steps)
         <==> (!OnlyTransport(s.examples[k]) && BlockMeans(s.steps, s.examples[k], s.steps)) {
      DropColumnsAt(s.examples, k);
      if OnlyTransport(s.examples[k]) {
        TableLost(s.steps, s.examples[k], s.steps);
      } else {
        TableKept(s.steps, s.examples[k], s.steps);
      }
    }
  }

  /** The meaning is unchanged if and only if no table with nothing but the `transport` column is lost from a
      scenario that stays an outline, or a data row of another table produces the bare steps too. */
  lemma StripTransportKeepsMeaning(s: Scenario)
    requires s.keyword == OUTLINE && Strippable(s) && OutlineOk(s)
    ensures StripTransport(s).Ok?
    ensures (forall concrete :: Means(s, concrete) <==> Means(StripTransport(s).value, concrete))
       <==> (LosesTable(s) ==> BareElsewhere(s))
  {
    hide Means, LosesTable, StripTransport, OutlineOk, Strippable, BareElsewhere;
    StripTransportMeaning(s, s.steps);
    var after := StripTransport(s).value;
    forall concrete
      ensures Means(s, concrete) <==> (Means(after, concrete) || (LosesTable(s) && concrete == s.steps)) {
      StripTransportMeaning(s, concrete);
    }
    if LosesTable(s) {
      LostUnlessElsewhere(s);
      assert Means(s, s.steps);
    }
  }

  /** A concrete outline whose meaning is lost: its only table has only the `transport` column, and a step
      names a placeholder that no column defines. */
  lemma MeaningCanBeLost() returns (s: Scenario)
    ensures s.keyword == OUTLINE && Strippable(s) && OutlineOk(s) && StripTransport(s).Ok?
    ensures Means(s, s.steps) && !Means(StripTransport(s).value, s.steps)
  {
    var header, data := FormatRow(["transport"]), FormatRow(["rest"]);
    var step := Step("When", "<x>", []);
    var block := ExamplesBlock("Examples:", [header, data]);
    s := Scenario(None, [], OUTLINE, "<transport>", [step], [block], []);
    SampleOk(s, step, block, header, data);
    StripTransportMeaning(s, s.steps);
    TableLost(s.steps, block, s.steps);
    LostAfter(s, block);
  }

  lemma SampleOk(s: Scenario, step: Step, block: ExamplesBlock, header: string, data: string)
    requires header == FormatRow(["transport"]) && data == FormatRow(["rest"])
    requires step == Step("When", "<x>", []) && block == ExamplesBlock("Examples:", [header, data])
    requires s == Scenario(None, [], OUTLINE, "<transport>", [step], [block], [])
    ensures Strippable(s) && OutlineOk(s) && OnlyTransport(block) && AnyPlaceholder(s.steps)
  {
    hide Cells, FormatRow, HasPlaceholder, Contains, WidthOk, WordHeader;
    SampleTable(header, data);
    SampleText();
    assert HasDataRow(s.examples[0]);
    SampleName();
    assert HasPlaceholder(s.steps[0].text);
  }

  lemma LostAfter(s: Scenario, block: ExamplesBlock)
    requires s.examples == [block] && Strippable(s) && s.keyword == OUTLINE && AnyPlaceholder(s.steps)
    requires StripTransport(s).Ok? && DropColumn(block).Ok?
    requires !BlockMeans(s.steps, DropColumn(block).value, s.steps)
    ensures !Means(StripTransport(s).value, s.steps)
  {
    hide BlockMeans, DropColumn, NameWithoutTransport, AnyPlaceholder, Strippable;
    DropColumnsAt(s.examples, 0);
  }

  lemma SampleTable(header: string, data: string)
    requires header == FormatRow(["transport"]) && data == FormatRow(["rest"])
    ensures Cells(header) == ["transport"] && Cells(data) == ["rest"]
    ensures WidthOk(ExamplesBlock("Examples:", [header, data])) && WordHeader(ExamplesBlock("Examples:", [header, data]))
  {
    hide FormatRow, Cells;
    TransportWord();
    FormatReadsBack(["transport"]);
    FormatReadsBack(["rest"]);
  }

  lemma SampleName()
    ensures Contains("<transport>", "<transport>")
  {
    assert OccursAt("<transport>", "<transport>", 0);
  }

  lemma SampleText()
    ensures HasPlaceholder("<x>") && !Contains("<x>", "<transport>")
  {
    assert "<x>"[1..] == "x>";
    assert "x>"[1..] == ">";
  }
}
