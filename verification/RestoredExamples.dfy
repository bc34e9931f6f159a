/** When a re-run of the merge does not reproduce its output: the removed `transport` column comes back.
    The condition is on the TARGET scenario and on the guards that it meets. */
module RestoredExamples {
  import opened Text
  import opened Gherkin
  import opened RoundTrip
  import opened StepRewrite
  import opened TransportMeaning
  import opened Traceability
  import opened CompilePipeline
  import opened Merge
  import opened NormFacts
  import opened MergeFixpoint
  import opened WrittenTargets

  // ------------------------------------------------------------------ when the rewrite changes Examples

  predicate HasTransportColumn(block: ExamplesBlock) {
    block.rows != [] && "transport" in Cells(block.rows[0])
  }

  /** The guards of the column removal: `<transport>` in the name but in no step, and a `transport` column, or
      tables so small that they are dropped altogether. */
  predicate LosesExamples(s: Scenario) {
    Strippable(s) && ((exists k | 0 <= k < |s.examples| :: HasTransportColumn(s.examples[k]))
                      || (s.examples != [] && BecomesPlain(s, s.examples)))
  }

  lemma {:induction false} PositionFound(cells: seq<string>, name: string)
    ensures IndexOf(cells, name).Some? <==> name in cells
  {
  }

  /** Without the cell the row has another text, or is gone. */
  lemma RowChanges(row: string, i: nat)
    requires i < |Cells(row)|
    ensures RowWithout(row, i) == [] <==> |Cells(row)| == 1
    ensures RowWithout(row, i) != [] ==> Strip(RowWithout(row, i)[0]) != Strip(row)
  {
    hide FormatRow, Strip;
    var parts := RemoveAt(Cells(row), i);
    assert |parts| == |Cells(row)| - 1;
    if parts != [] {
      RowWithoutReadsBack(row, i);
      SameTextSameCells(FormatRow(parts), row);
    }
  }

  lemma SameTextSameCells(a: string, b: string)
    ensures Strip(a) == Strip(b) ==> Cells(a) == Cells(b)
  {
  }

  lemma {:induction false} NoLonger(rows: seq<string>, i: nat)
    requires DropCell(rows, i).Ok?
    ensures |DropCell(rows, i).value| <= |rows|
  {
    hide Cells, FormatRow;
    if rows != [] {
      NoLonger(rows[1..], i);
    }
  }

  /** A block that had the column no longer matches; any other block is unchanged. */
  lemma BlockChanges(block: ExamplesBlock)
    requires DropColumn(block).Ok?
    ensures HasTransportColumn(block) ==> !BlockMatch(DropColumn(block).value, block)
    ensures !HasTransportColumn(block) ==> DropColumn(block).value == block
  {
    hide Cells, Strip, RowWithout, DropCell, StripAll;
    if block.rows != [] {
      PositionFound(Cells(block.rows[0]), "transport");
      var column := IndexOf(Cells(block.rows[0]), "transport");
      if column.Some? {
        FirstRowChanges(block.rows, column.value);
      }
    }
  }

  lemma FirstRowChanges(rows: seq<string>, i: nat)
    requires rows != [] && i < |Cells(rows[0])| && DropCell(rows, i).Ok?
    ensures StripAll(DropCell(rows, i).value) != StripAll(rows)
  {
    hide Cells, Strip, RowWithout, StripAll;
    var rest := DropCell(rows[1..], i).value;
    var first := RowWithout(rows[0], i);
    RowChanges(rows[0], i);
    NoLonger(rows[1..], i);
    if first == [] {
      assert |DropCell(rows, i).value| < |rows|;
    } else {
      assert (first + rest)[0] == first[0];
      assert StripAll(DropCell(rows, i).value)[0] == Strip(first[0]) && StripAll(rows)[0] == Strip(rows[0]);
    }
  }

  lemma SameBlocksMatch(blocks: seq<ExamplesBlock>)
    ensures ExamplesMatch(blocks, blocks)
  {
    hide Strip, StripAll;
  }

  lemma {:induction false} BlocksChange(blocks: seq<ExamplesBlock>)
    requires DropColumns(blocks).Ok?
    ensures (exists k | 0 <= k < |blocks| :: HasTransportColumn(blocks[k])) ==> !ExamplesMatch(DropColumns(blocks).value, blocks)
    ensures (forall k | 0 <= k < |blocks| :: !HasTransportColumn(blocks[k])) ==> DropColumns(blocks).value == blocks
  {
    hide HasTransportColumn, DropColumn, DropColumns, BlockMatch;
    var after := DropColumns(blocks).value;
    forall k | 0 <= k < |blocks|
      ensures HasTransportColumn(blocks[k]) ==> !BlockMatch(after[k], blocks[k])
      ensures !HasTransportColumn(blocks[k]) ==> after[k] == blocks[k] {
      DropColumnsAt(blocks, k);
      BlockChanges(blocks[k]);
    }
  }

  /** The rewrite changes the Examples, as the classifier compares them, exactly when its guards are met. */
  lemma ExamplesChangedExactly(s: Scenario)
    requires StripTransport(s).Ok?
    ensures ExamplesMatch(StripTransport(s).value.examples, s.examples) <==> !LosesExamples(s)
  {
    hide HasTransportColumn, DropColumn, DropColumns, BlockMatch, NameWithoutTransport, BecomesPlain, Strippable;
    SameBlocksMatch(s.examples);
    if Strippable(s) {
      BlocksChange(s.examples);
    }
  }

  // ------------------------------------------------------------------ which scenarios are restored

  lemma FreshlyWritten(env: Env, legacy: Option<Scenario>, id: string, t: Scenario)
    requires TargetOutcome(env, legacy, id, t).Ok? && Fresh(TargetOutcome(env, legacy, id, t).value.bucket)
    ensures WriteScenario(t, env.entries) == Ok(TargetOutcome(env, legacy, id, t).value.scenario)
  {
    hide WriteScenario, FinalBucket;
  }

  lemma WrittenParts(t: Scenario, entries: seq<Entry>)
    requires WriteScenario(t, entries).Ok?
    ensures var w := WriteScenario(t, entries).value;
            && w.steps == RewriteSteps(t.steps) && w.tags == OutputTags(t, entries)
            && (!Contains(t.name, "<transport>") ==> w.examples == t.examples)
  {
    hide RewriteSteps, OutputTags, Contains, DropColumns, NameWithoutTransport, BecomesPlain, AnyTransport;
  }

  /** A TARGET scenario that the second merge takes for an Examples-only change: it is rendered afresh, its
      steps and tags are already in the form that the compiler gives them, and it loses Examples. */
  ghost predicate Restorable(env: Env, legacy: seq<Scenario>, t: Scenario) {
    && ScenarioId(t).Some?
    && var id := ScenarioId(t).value;
    && Fresh(FinalBucket(env, Find(legacy, id), id, t))
    && NormSteps(RewriteSteps(t.steps)) == t.steps
    && TagsMatchIgnoringId(OutputTags(t, env.entries), t.tags)
    && LosesExamples(StepsRewritten(t))
  }

  ghost predicate AnyRestorable(env: Env, legacy: seq<Scenario>, targets: seq<Scenario>) {
    exists i | 0 <= i < |targets| :: Restorable(env, legacy, targets[i])
  }

  lemma WrittenExamples(t: Scenario, entries: seq<Entry>)
    requires WriteScenario(t, entries).Ok?
    ensures StripTransport(StepsRewritten(t)).Ok?
    ensures WriteScenario(t, entries).value.examples == StripTransport(StepsRewritten(t)).value.examples
  {
    hide StripTransport, OutputTags, RewriteSteps;
  }

  /** What the classifier of the second merge finds in the first merge's output, in terms of the input alone. */
  lemma RestoresExactly(env: Env, legacy: seq<Scenario>, t: Scenario)
    requires ScenarioId(t).Some? ==> TargetOutcome(env, Find(legacy, ScenarioId(t).value), ScenarioId(t).value, t).Ok?
    ensures RestoresIn(env, legacy, t) <==> Restorable(env, legacy, t)
  {
    hide Norm, OutputTags, RewriteSteps, TagsMatchIgnoringId, ExamplesMatch, HandEdited, NormBlocks, NormSteps, Contains,
         FinalBucket, WriteScenario, LosesExamples, Find, ScenarioId;
    if ScenarioId(t).Some? {
      var id := ScenarioId(t).value;
      var o := TargetOutcome(env, Find(legacy, id), id, t).value;
      if Fresh(o.bucket) {
        FreshlyWritten(env, Find(legacy, id), id, t);
        WrittenParts(t, env.entries);
        WrittenExamples(t, env.entries);
        ExamplesChangedExactly(StepsRewritten(t));
        NormParts(o.scenario);
        ExamplesMatchIsNorm(NormBlocks(o.scenario.examples), t.examples);
        ExamplesMatchIsNorm(o.scenario.examples, t.examples);
        NormBlocksTwice(o.scenario.examples);
      }
    }
  }

  lemma AnyRestoredExactly(env: Env, legacy: seq<Scenario>, targets: seq<Scenario>)
    requires Pass1(env, legacy, targets).Ok?
    ensures AnyRestored(env, legacy, targets) <==> AnyRestorable(env, legacy, targets)
  {
    hide RestoresIn, Restorable, TargetOutcome, Find, ScenarioId, Pass1;
    forall i | 0 <= i < |targets| ensures RestoresIn(env, legacy, targets[i]) <==> Restorable(env, legacy, targets[i]) {
      if Pass1Item(env, legacy, targets[i]).IndexError? {
        Pass1Raises(env, legacy, targets, i);
      }
      RestoresExactly(env, legacy, targets[i]);
    }
  }

  /** It takes a name with `<transport>`. */
  lemma NamedAfterTransport(env: Env, legacy: seq<Scenario>, t: Scenario)
    requires Restorable(env, legacy, t)
    ensures Contains(t.name, "<transport>")
  {
    hide Contains, FinalBucket, TagsMatchIgnoringId, NormSteps, RewriteSteps;
  }
}
