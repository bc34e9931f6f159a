/** The rewrite pass: transport suffixes stripped from step texts, prose assertions dropped, and the
    `transport` column removed from an outline whose steps no longer mention it. */
module StepRewrite {
  import opened Text
  import opened Gherkin

  // ------------------------------------------------------------------ steps

  const TRANSPORT_SUFFIXES: seq<string> := [
    " via MCP", " via A2A", " via REST", " via <transport>", " via the MCP tool", " via the REST/A2A endpoint"
  ]

  function StripFirstSuffix(text: string, suffixes: seq<string>): string {
    if suffixes == [] then text
    else if EndsWith(text, suffixes[0]) then text[..|text| - |suffixes[0]|]
    else StripFirstSuffix(text, suffixes[1..])
  }

  /** `_transform_step_text`. */
  function TransformStepText(keyword: string, text: string): string {
    if keyword == "Given" || keyword == "When" then StripFirstSuffix(text, TRANSPORT_SUFFIXES) else text
  }

  /** `_is_prose_assertion`: a THEN-side step that pins the buyer-facing message. */
  predicate IsProseAssertion(keyword: string, text: string) {
    var lowered := Lower(text);
    && (keyword == "Then" || keyword == "And" || keyword == "But")
    && !Contains(lowered, "should not contain") && !Contains(lowered, "must not contain")
    && (Contains(lowered, "error message") || Contains(lowered, "the error indicates")
        || Contains(lowered, "rejection should name"))
  }

  function RewriteStep(s: Step): Step {
    s.(text := TransformStepText(s.keyword, s.text))
  }

  predicate Kept(s: Step) {
    !IsProseAssertion(s.keyword, RewriteStep(s).text)
  }

  function RewriteSteps(steps: seq<Step>): seq<Step> {
    if steps == [] then []
    else (if Kept(steps[0]) then [RewriteStep(steps[0])] else []) + RewriteSteps(steps[1..])
  }

  function DroppedProse(steps: seq<Step>): seq<string> {
    if steps == [] then []
    else (if Kept(steps[0]) then [] else [steps[0].keyword + " " + RewriteStep(steps[0]).text])
         + DroppedProse(steps[1..])
  }

  lemma {:induction false} RewriteStepsSnoc(steps: seq<Step>, last: Step)
    ensures RewriteSteps(steps + [last]) == RewriteSteps(steps) + RewriteSteps([last])
    ensures DroppedProse(steps + [last]) == DroppedProse(steps) + DroppedProse([last])
  {
    hide Kept, RewriteStep;
    if steps == [] {
      assert steps + [last] == [last];
    } else {
      var longer := steps + [last];
      assert longer[1..] == steps[1..] + [last] && longer[0] == steps[0];
      RewriteStepsSnoc(steps[1..], last);
      var kept := if Kept(steps[0]) then [RewriteStep(steps[0])] else [];
      var dropped := if Kept(steps[0]) then [] else [steps[0].keyword + " " + RewriteStep(steps[0]).text];
      assert kept + (RewriteSteps(steps[1..]) + RewriteSteps([last])) == (kept + RewriteSteps(steps[1..])) + RewriteSteps([last]);
      assert dropped + (DroppedProse(steps[1..]) + DroppedProse([last])) == (dropped + DroppedProse(steps[1..])) + DroppedProse([last]);
    }
  }

  lemma {:induction false} CutIsPrefix(text: string, suffixes: seq<string>)
    ensures StripFirstSuffix(text, suffixes) <= text
  {
    if suffixes != [] && !EndsWith(text, suffixes[0]) {
      CutIsPrefix(text, suffixes[1..]);
    }
  }

  /** A step that was written for `s`: same keyword and table, the text at most shorter at its end. */
  predicate ComesFrom(r: Step, s: Step) {
    r == s.(text := r.text) && r.text <= s.text && (r.keyword != "Given" && r.keyword != "When" ==> r == s)
  }

  lemma RewrittenComesFrom(s: Step)
    ensures ComesFrom(RewriteStep(s), s)
    ensures !Kept(s) ==> s.keyword == "Then" || s.keyword == "And" || s.keyword == "But"
  {
    hide Lower, Contains;
    CutIsPrefix(s.text, TRANSPORT_SUFFIXES);
  }

  /** No step vanishes silently: the kept and the recorded steps add up, every kept one comes from a step of
      the scenario, and only Then-side steps are dropped. */
  lemma {:induction false} StepsConserved(steps: seq<Step>)
    ensures |RewriteSteps(steps)| + |DroppedProse(steps)| == |steps|
    ensures forall r | r in RewriteSteps(steps) :: exists i | 0 <= i < |steps| :: ComesFrom(r, steps[i])
    ensures (forall i | 0 <= i < |steps| :: steps[i].keyword == "Given" || steps[i].keyword == "When") ==> DroppedProse(steps) == []
  {
    hide RewriteStep, Kept, ComesFrom;
    if steps != [] {
      StepsConserved(steps[1..]);
      RewrittenComesFrom(steps[0]);
      assert forall i | 0 <= i < |steps| - 1 :: steps[1..][i] == steps[i + 1];
      forall r | r in RewriteSteps(steps) ensures exists i | 0 <= i < |steps| :: ComesFrom(r, steps[i]) {
        if r in RewriteSteps(steps[1..]) {
          var i :| 0 <= i < |steps[1..]| && ComesFrom(r, steps[1..][i]);
          assert ComesFrom(r, steps[i + 1]);
        } else {
          assert ComesFrom(r, steps[0]);
        }
      }
    }
  }

  /** `_apply_step_transforms`: the surviving steps, and the record of what was dropped. */
  method ApplyStepTransforms(s: Scenario, record: seq<string>) returns (r: Scenario, dropped: seq<string>)
    ensures r == s.(steps := RewriteSteps(s.steps))
    ensures dropped == record + DroppedProse(s.steps)
  {
    hide IsProseAssertion, TransformStepText;
    var kept: seq<Step> := [];
    dropped := record;
    for i := 0 to |s.steps|
      invariant kept == RewriteSteps(s.steps[..i])
      invariant dropped == record + DroppedProse(s.steps[..i])
    {
      var step := s.steps[i];
      RewriteStepsSnoc(s.steps[..i], step);
      assert s.steps[..i + 1] == s.steps[..i] + [step];
      assert [step][1..] == [];
      step := step.(text := TransformStepText(step.keyword, step.text));
      if IsProseAssertion(step.keyword, step.text) {
        dropped := dropped + [step.keyword + " " + step.text];
        continue;
      }
      kept := kept + [step];
    }
    assert s.steps[..|s.steps|] == s.steps;
    r := s.(steps := kept);
  }

  // ------------------------------------------------------------------ table cells

  function Blanks(n: nat): (s: string)
    ensures |s| == n && AllSpace(s)
  {
    if n == 0 then "" else " " + Blanks(n - 1)
  }

  /** Left-justified to seventeen characters. */
  function PadCell(cell: string): string {
    if |cell| < 17 then cell + Blanks(17 - |cell|) else cell
  }

  function PadCells(cells: seq<string>): (r: seq<string>)
    ensures |r| == |cells|
  {
    if cells == [] then [] else [PadCell(cells[0])] + PadCells(cells[1..])
  }

  function FormatRow(cells: seq<string>): string {
    "| " + Join(" | ", PadCells(cells)) + " |"
  }

  function RemoveAt<T>(s: seq<T>, i: nat): seq<T>
    requires i < |s|
  {
    s[..i] + s[i + 1..]
  }

  function IndexOf(cells: seq<string>, name: string): (r: Option<nat>)
    ensures r.Some? ==> r.value < |cells| && cells[r.value] == name
    ensures r.None? ==> name !in cells
  {
    if cells == [] then None
    else if cells[0] == name then Some(0)
    else match IndexOf(cells[1..], name) case None => None case Some(i) => Some(i + 1)
  }

  // ------------------------------------------------------------------ the transport column

  /** `list.pop(i)` on a row with too few cells raises. */
  datatype Result<+T> = Ok(value: T) | IndexError

  /** The row without cell `i`, re-formatted; nothing when that was its only cell. */
  function RowWithout(row: string, i: nat): seq<string>
    requires i < |Cells(row)|
  {
    var parts := RemoveAt(Cells(row), i);
    if parts == [] then [] else [FormatRow(parts)]
  }

  function DropCell(rows: seq<string>, i: nat): Result<seq<string>> {
    if rows == [] then Ok([])
    else if i >= |Cells(rows[0])| then IndexError
    else match DropCell(rows[1..], i)
      case IndexError => IndexError
      case Ok(rest) => Ok(RowWithout(rows[0], i) + rest)
  }

  function DropColumn(block: ExamplesBlock): Result<ExamplesBlock> {
    if block.rows == [] then Ok(block)
    else match IndexOf(Cells(block.rows[0]), "transport")
      case None => Ok(block)
      case Some(i) =>
        match DropCell(block.rows, i)
        case IndexError => IndexError
        case Ok(rows) => Ok(block.(rows := rows))
  }

  function DropColumns(blocks: seq<ExamplesBlock>): (r: Result<seq<ExamplesBlock>>)
    ensures r.Ok? ==> |r.value| == |blocks|
  {
    if blocks == [] then Ok([])
    else match DropColumn(blocks[0])
      case IndexError => IndexError
      case Ok(b) =>
        match DropColumns(blocks[1..])
        case IndexError => IndexError
        case Ok(rest) => Ok([b] + rest)
  }

  function WordRun(s: string): (n: nat)
    ensures n <= |s|
  {
    if s != "" && IsWord(s[0]) then 1 + WordRun(s[1..]) else 0
  }

  /** `re.findall(r"<(\w+)>", text)` finds something. */
  predicate HasPlaceholder(text: string) {
    text != ""
    && ((text[0] == '<' && var n := WordRun(text[1..]); n > 0 && n + 1 < |text| && text[n + 1] == '>')
        || HasPlaceholder(text[1..]))
  }

  predicate AnyPlaceholder(steps: seq<Step>) {
    exists i | 0 <= i < |steps| :: HasPlaceholder(steps[i].text)
  }

  predicate AnyTransport(steps: seq<Step>) {
    exists i | 0 <= i < |steps| :: Contains(steps[i].text, "<transport>")
  }

  function SpaceRun(s: string): (n: nat)
    ensures n <= |s|
  {
    if s != "" && IsSpace(s[0]) then 1 + SpaceRun(s[1..]) else 0
  }

  /** The length of a match of `\s*via\s+<transport>\s*` at the start of `s`, or 0. */
  function ViaTransport(s: string): (n: nat)
    ensures n <= |s|
  {
    var a := SpaceRun(s);
    if !("via" <= s[a..]) then 0
    else
      var b := SpaceRun(s[a + 3..]);
      if b == 0 || !("<transport>" <= s[a + 3 + b..]) then 0
      else a + 3 + b + 11 + SpaceRun(s[a + 3 + b + 11..])
  }

  function CutVia(s: string): string
    decreases |s|
  {
    if s == "" then ""
    else if ViaTransport(s) > 0 then " " + CutVia(s[ViaTransport(s)..])
    else [s[0]] + CutVia(s[1..])
  }

  /** White space in front of a parenthesis becomes one blank. */
  function TightenParens(s: string): string
    decreases |s|
  {
    if s == "" then ""
    else
      var n := SpaceRun(s);
      if n > 0 && n < |s| && s[n] == '(' then " (" + TightenParens(s[n + 1..])
      else [s[0]] + TightenParens(s[1..])
  }

  function NameWithoutTransport(name: string): string {
    TightenParens(Strip(CutVia(name)))
  }

  predicate AllTrivial(blocks: seq<ExamplesBlock>) {
    forall i | 0 <= i < |blocks| :: |blocks[i].rows| <= 2
  }

  /** The scenario is transport-parametrised by name only. */
  predicate Strippable(s: Scenario) {
    !AnyTransport(s.steps) && Contains(s.name, "<transport>")
  }

  predicate BecomesPlain(s: Scenario, blocks: seq<ExamplesBlock>) {
    !AnyPlaceholder(s.steps) && s.keyword == OUTLINE && AllTrivial(blocks)
  }

  /** `_strip_transport_from_scenario`. */
  function StripTransport(s: Scenario): Result<Scenario> {
    if !Strippable(s) then Ok(s)
    else match DropColumns(s.examples)
      case IndexError => IndexError
      case Ok(blocks) =>
        var name := NameWithoutTransport(s.name);
        Ok(if BecomesPlain(s, blocks) then s.(name := name, keyword := SCENARIO, examples := [])
           else s.(name := name, examples := blocks))
  }

  /** The whole rewrite of a scenario on its way into a rendered file. */
  function Rewrite(s: Scenario): Result<Scenario> {
    StripTransport(s.(steps := RewriteSteps(s.steps)))
  }

  // ------------------------------------------------------------------ the script's loops

  method DropCellLoop(rows: seq<string>, i: nat) returns (r: Result<seq<string>>)
    ensures r == DropCell(rows, i)
  {
    hide Cells, FormatRow;
    var newRows := [];
    for k := 0 to |rows|
      invariant DropCell(rows[..k], i) == Ok(newRows)
    {
      assert rows[..k + 1] == rows[..k] + [rows[k]];
      DropCellSnoc(rows[..k], rows[k], i);
      var parts := Cells(rows[k]);
      if i >= |parts| {
        DropCellPrefix(rows, k + 1, i);
        return IndexError;
      }
      assert newRows + [] == newRows;
      parts := RemoveAt(parts, i);
      if parts != [] {
        newRows := newRows + [FormatRow(parts)];
      }
    }
    assert rows[..|rows|] == rows;
    return Ok(newRows);
  }

  lemma {:induction false} DropCellSnoc(rows: seq<string>, last: string, i: nat)
    requires DropCell(rows, i).Ok?
    ensures DropCell(rows + [last], i)
            == if i >= |Cells(last)| then IndexError else Ok(DropCell(rows, i).value + RowWithout(last, i))
  {
    hide Cells, RowWithout;
    if rows == [] {
      assert rows + [last] == [last];
      assert [last][1..] == [];
      if i < |Cells(last)| {
        assert RowWithout(last, i) + [] == [] + RowWithout(last, i);
      }
    } else {
      assert (rows + [last])[1..] == rows[1..] + [last];
      DropCellSnoc(rows[1..], last, i);
      if i < |Cells(last)| {
        assert RowWithout(rows[0], i) + (DropCell(rows[1..], i).value + RowWithout(last, i))
            == DropCell(rows, i).value + RowWithout(last, i);
      }
    }
  }

  lemma {:induction false} DropCellPrefix(rows: seq<string>, n: nat, i: nat)
    requires n <= |rows| && DropCell(rows[..n], i).IndexError?
    ensures DropCell(rows, i).IndexError?
  {
    hide Cells, FormatRow;
    if n > 0 {
      assert rows[..n][1..] == rows[1..][..n - 1];
      if i < |Cells(rows[0])| {
        DropCellPrefix(rows[1..], n - 1, i);
      }
    }
  }

  /** `_strip_transport_from_scenario`, block by block and row by row. */
  method StripTransportLoop(s: Scenario) returns (r: Result<Scenario>)
    ensures r == StripTransport(s)
  {
    hide Cells, NameWithoutTransport, AnyTransport, AnyPlaceholder, Contains, DropCell;
    if !Strippable(s) {
      return Ok(s);
    }
    var blocks: seq<ExamplesBlock> := [];
    for i := 0 to |s.examples|
      invariant |blocks| == i
      invariant forall k | 0 <= k < i :: DropColumn(s.examples[k]) == Ok(blocks[k])
    {
      var block := s.examples[i];
      if block.rows != [] {
        var column := IndexOf(Cells(block.rows[0]), "transport");
        if column.Some? {
          var rows := DropCellLoop(block.rows, column.value);
          if rows.IndexError? {
            DropColumnsRaises(s.examples, i);
            return IndexError;
          }
          block := block.(rows := rows.value);
        }
      }
      blocks := blocks + [block];
    }
    assert |s.examples| == |blocks|;
    DropColumnsAll(s.examples, blocks);
    var name := NameWithoutTransport(s.name);
    if BecomesPlain(s, blocks) {
      return Ok(s.(name := name, keyword := SCENARIO, examples := []));
    }
    return Ok(s.(name := name, examples := blocks));
  }

  lemma {:induction false} DropColumnsAll(blocks: seq<ExamplesBlock>, dropped: seq<ExamplesBlock>)
    requires |blocks| == |dropped|
    requires forall k | 0 <= k < |blocks| :: DropColumn(blocks[k]) == Ok(dropped[k])
    ensures DropColumns(blocks) == Ok(dropped)
  {
    hide DropColumn;
    if blocks != [] {
      DropColumnsAll(blocks[1..], dropped[1..]);
      assert dropped == [dropped[0]] + dropped[1..];
    }
  }

  lemma {:induction false} DropColumnsRaises(blocks: seq<ExamplesBlock>, i: nat)
    requires i < |blocks| && DropColumn(blocks[i]).IndexError?
    ensures DropColumns(blocks).IndexError?
  {
    hide DropColumn;
    if i > 0 {
      DropColumnsRaises(blocks[1..], i - 1);
    }
  }
}
