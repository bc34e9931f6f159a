/** Which TARGET scenarios can be read back after they were rewritten and printed: the condition on the
    scenario and the mapping table, and why it is exact. */
module WrittenTargets {
  import opened Text
  import opened Gherkin
  import opened GherkinFacts
  import opened RoundTrip
  import opened ParserFacts
  import opened StepRewrite
  import opened Traceability
  import opened CompilePipeline
  import opened Merge

  // ------------------------------------------------------------------ rewritten steps can still be printed

  lemma CutTextOk(keyword: string, text: string, suffix: string)
    requires StepKeyword(keyword) && text != "" && !IsSpace(text[0])
    requires ParseContextGit(keyword + " " + RStrip(text)).None?
    requires EndsWith(text, suffix) && suffix != "" && IsSpace(suffix[0]) && !IsSpace(suffix[|suffix| - 1])
    ensures var cut := text[..|text| - |suffix|];
            cut != "" && !IsSpace(cut[0]) && ParseContextGit(keyword + " " + RStrip(cut)).None?
  {
    hide IsSpace, ParseContextGit;
    var n := |text| - |suffix|;
    assert text[n] == suffix[0];
    assert n != 0;
    var cut := text[..n];
    assert text[|text| - 1] == suffix[|suffix| - 1];
    assert RStrip(text) == text;
    var pad := RStripParts(cut);
    var line := keyword + " " + text;
    var shorter := keyword + " " + RStrip(cut);
    assert line[..|shorter|] == shorter by {
      assert line == shorter + (pad + text[n..]);
    }
    NoContextGitPrefix(line, |shorter|);
  }

  predicate SuffixOk(suffix: string) {
    suffix != "" && IsSpace(suffix[0]) && !IsSpace(suffix[|suffix| - 1])
  }

  lemma TransportSuffixesOk()
    ensures forall i | 0 <= i < |TRANSPORT_SUFFIXES| :: SuffixOk(TRANSPORT_SUFFIXES[i])
  {
  }

  lemma {:induction false} StrippedTextOk(keyword: string, text: string, suffixes: seq<string>)
    requires StepKeyword(keyword) && text != "" && !IsSpace(text[0])
    requires ParseContextGit(keyword + " " + RStrip(text)).None?
    requires forall i | 0 <= i < |suffixes| :: SuffixOk(suffixes[i])
    ensures var cut := StripFirstSuffix(text, suffixes);
            cut != "" && !IsSpace(cut[0]) && ParseContextGit(keyword + " " + RStrip(cut)).None?
  {
    hide IsSpace, ParseContextGit, RStrip, StepKeyword;
    if suffixes != [] {
      assert SuffixOk(suffixes[0]);
      if EndsWith(text, suffixes[0]) {
        CutTextOk(keyword, text, suffixes[0]);
      } else {
        assert forall i | 0 <= i < |suffixes| - 1 :: suffixes[1..][i] == suffixes[i + 1];
        StrippedTextOk(keyword, text, suffixes[1..]);
      }
    }
  }

  lemma RewrittenStepOk(s: Step)
    requires StepOk(s)
    ensures StepOk(RewriteStep(s))
  {
    hide IsSpace, ParseContextGit, RStrip, StepKeyword, StripFirstSuffix, RowsOk;
    TransportSuffixesOk();
    StrippedTextOk(s.keyword, s.text, TRANSPORT_SUFFIXES);
  }

  lemma {:induction false} RewrittenStepsOk(steps: seq<Step>)
    requires StepsOk(steps)
    ensures StepsOk(RewriteSteps(steps))
  {
    hide StepOk, RewriteStep, Kept;
    if steps != [] {
      assert forall i | 0 <= i < |steps| - 1 :: steps[1..][i] == steps[i + 1];
      RewrittenStepsOk(steps[1..]);
      RewrittenStepOk(steps[0]);
    }
  }

  // ------------------------------------------------------------------ rewritten names and tables

  lemma {:induction false} TightenKeepsStart(s: string)
    requires LTrimmed(s)
    ensures TightenParens(s) == "" <==> s == ""
    ensures s != "" ==> TightenParens(s)[0] == s[0]
  {
    hide IsSpace;
  }

  /** The rewritten name never starts with white space. */
  lemma RewrittenNameStart(name: string)
    ensures var r := NameWithoutTransport(name); r != "" ==> !IsSpace(r[0])
  {
    hide CutVia, TightenParens, IsSpace;
    StripTrimmed(CutVia(name));
    TightenKeepsStart(Strip(CutVia(name)));
  }

  /** Something is left of the name, and the cut joins no contextgit comment together. */
  predicate NameStays(name: string) {
    NameWithoutTransport(name) != "" && ParseContextGit(RStrip(NameWithoutTransport(name))).None?
  }

  lemma RewrittenNameOk(keyword: string, name: string)
    requires keyword == OUTLINE || keyword == SCENARIO
    ensures NameOk(keyword, NameWithoutTransport(name)) <==> NameStays(name)
  {
    hide ParseContextGit, RStrip, IsSpace, NameWithoutTransport;
    RewrittenNameStart(name);
    assert '#' !in keyword + ": ";
    HashFreePrefix(keyword + ": ", RStrip(NameWithoutTransport(name)));
  }

  lemma FormatRowIsRow(cells: seq<string>)
    ensures IsTableRow(Strip(FormatRow(cells)))
  {
    hide Join, PadCells;
    var row := FormatRow(cells);
    assert row[0] == '|' && row[|row| - 1] == '|' && !IsSpace('|');
    StripTrimmed(row);
  }

  lemma {:induction false} DroppedRowsOk(rows: seq<string>, i: nat)
    requires DropCell(rows, i).Ok?
    ensures RowsOk(DropCell(rows, i).value)
  {
    hide Cells, FormatRow, IsTableRow, Strip;
    if rows != [] {
      DroppedRowsOk(rows[1..], i);
      FormatRowIsRow(RemoveAt(Cells(rows[0]), i));
    }
  }

  lemma {:induction false} DroppedBlocksOk(blocks: seq<ExamplesBlock>)
    requires BlocksOk(blocks) && DropColumns(blocks).Ok?
    ensures BlocksOk(DropColumns(blocks).value)
  {
    hide Cells, DropCell, RowsOk, IsExamples, ParseContextGit, Strip;
    if blocks != [] {
      assert BlockOk(blocks[0]);
      assert forall i | 0 <= i < |blocks| - 1 :: blocks[1..][i] == blocks[i + 1];
      DroppedBlocksOk(blocks[1..]);
      if blocks[0].rows != [] && IndexOf(Cells(blocks[0].rows[0]), "transport").Some? {
        DroppedRowsOk(blocks[0].rows, IndexOf(Cells(blocks[0].rows[0]), "transport").value);
      }
    }
  }

  /** The scenario with its steps rewritten, which is what the column removal looks at. */
  function StepsRewritten(t: Scenario): Scenario {
    t.(steps := RewriteSteps(t.steps))
  }

  /** A rewritten name can be read back. */
  predicate NameReads(t: Scenario) {
    Strippable(StepsRewritten(t)) ==> NameStays(t.name)
  }

  lemma StrippedOk(s: Scenario)
    requires ScenarioOk(s) && StripTransport(s).Ok?
    ensures var w := StripTransport(s).value;
            && w.tags == s.tags && StepsOk(w.steps) && CommentsOk(w.commentLines) && BlocksOk(w.examples)
            && (NameOk(w.keyword, w.name) <==> (Strippable(s) ==> NameStays(s.name)))
  {
    hide AllTagSafe, NameStays, StepsOk, CommentsOk, BlocksOk, BecomesPlain, DropColumns, NameWithoutTransport, Strippable,
         ParseContextGit, RStrip, IsSpace;
    if Strippable(s) {
      DroppedBlocksOk(s.examples);
      NoBlocksOk();
      RewrittenNameOk(OUTLINE, s.name);
      RewrittenNameOk(SCENARIO, s.name);
    }
  }

  lemma NoBlocksOk()
    ensures BlocksOk([])
  {
  }

  // ------------------------------------------------------------------ output tags

  /** An entry contributes only tags that can be read back. */
  predicate EntryOk(e: Entry) {
    e.obligation.Some? && e.obligation.value != "" ==> TagSafe("@" + e.obligation.value)
  }

  /** The id alone, tag-safe, starting with `T-` and not tagged yet, is enough for the join key to survive. */
  lemma FreshIdJoins(t: Scenario, entries: seq<Entry>)
    requires t.contextgit.Some? && "T-" <= t.contextgit.value.id && "@" + t.contextgit.value.id !in t.tags
    ensures TagId(OutputTags(t, entries)) == ScenarioId(t)
  {
    hide Lookup;
    var id := t.contextgit.value.id;
    var tags := OutputTags(t, entries);
    assert tags[0] == "@" + id;
    assert "@T-" <= tags[0];
    assert tags[0][1..] == id;
  }

  lemma TagsWithSafe(tags: seq<string>, id: string, found: Option<Entry>)
    requires AllTagSafe(tags) && TagSafe("@" + id) && (found.Some? ==> EntryOk(found.value))
    ensures AllTagSafe(TagsWith(tags, id, found))
  {
    SkipSafe();
  }

  lemma SkipSafe()
    ensures TagSafe("@skip")
  {
  }

  lemma OutputTagsSafe(t: Scenario, entries: seq<Entry>)
    requires AllTagSafe(t.tags) && (t.contextgit.Some? ==> TagSafe("@" + t.contextgit.value.id))
    requires forall e | e in entries :: EntryOk(e)
    ensures AllTagSafe(OutputTags(t, entries))
  {
    hide TagSafe, TagsWith, EntryOk, Lookup;
    if t.contextgit.Some? {
      LookupFinds(entries, t.contextgit.value.id);
      TagsWithSafe(t.tags, t.contextgit.value.id, Lookup(entries, t.contextgit.value.id));
    }
  }

  // ------------------------------------------------------------------ the condition

  /** A TARGET scenario that can be read back under its own id: its output tags are tag-safe and join on the id,
      and a name that loses `<transport>` leaves something to read. Scenarios without an id are never printed. */
  ghost predicate Readable(t: Scenario, entries: seq<Entry>) {
    ScenarioId(t).Some? ==>
      && AllTagSafe(OutputTags(t, entries)) && TagId(OutputTags(t, entries)) == ScenarioId(t)
      && NameReads(t)
  }

  /** The condition is exact: a scenario is readable if and only if what the compiler writes for it is well
      formed and found under the same id. */
  lemma ReadableExactly(t: Scenario, entries: seq<Entry>)
    requires ScenarioOk(t) && ScenarioId(t).Some? && WriteScenario(t, entries).Ok?
    ensures var w := WriteScenario(t, entries).value;
            Readable(t, entries) <==> ScenarioOk(w) && TagId(w.tags) == ScenarioId(t)
  {
    hide AllTagSafe, NameOk, NameStays, StepsOk, CommentsOk, BlocksOk, StripTransport, OutputTags, TagId, RewriteSteps,
         Strippable;
    RewrittenStepsOk(t.steps);
    StrippedOk(StepsRewritten(t));
  }

  /** A scenario with a fresh tag-safe `T-` id, under mappings with tag-safe obligations, whose name does not
      mention `<transport>` or leaves something of itself, is readable. */
  lemma FreshIsReadable(t: Scenario, entries: seq<Entry>)
    requires AllTagSafe(t.tags) && t.contextgit.Some?
    requires "T-" <= t.contextgit.value.id && TagSafe("@" + t.contextgit.value.id) && "@" + t.contextgit.value.id !in t.tags
    requires forall e | e in entries :: EntryOk(e)
    requires !Contains(t.name, "<transport>") || NameStays(t.name)
    ensures Readable(t, entries)
  {
    hide AllTagSafe, TagSafe, EntryOk, NameStays, OutputTags, TagId, RewriteSteps, Contains, AnyTransport;
    OutputTagsSafe(t, entries);
    FreshIdJoins(t, entries);
  }
}
