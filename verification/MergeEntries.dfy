/** Which of the ids that a merge reports have an entry in the traceability table afterwards. */
module MergeEntries {
  import opened Text
  import opened Gherkin
  import opened GherkinFacts
  import opened FeatureParser
  import opened FeatureRender
  import opened RoundTrip
  import opened StepRewrite
  import opened Traceability
  import opened UseCases
  import opened RunTheorems
  import opened Merge
  import opened MergeFixpoint
  import opened FileReadsBack
  import opened ContextGitFacts
  import opened SampleFiles
  import opened MergeRun

  // ------------------------------------------------------------------ what is proposed

  /** The scenario brings the id into the table: its contextgit comment carries the id, and the merge renders it
      afresh instead of keeping what LEGACY has under that id. */
  ghost predicate BringsIn(env: Env, legacy: seq<Scenario>, t: Scenario, id: string) {
    t.contextgit.Some? && t.contextgit.value.id == id && Fresh(FinalBucket(env, Find(legacy, id), id, t))
  }

  ghost predicate AnyBringsIn(env: Env, legacy: seq<Scenario>, targets: seq<Scenario>, id: string) {
    exists i | 0 <= i < |targets| :: BringsIn(env, legacy, targets[i], id)
  }

  lemma AnyBringsInSnoc(env: Env, legacy: seq<Scenario>, targets: seq<Scenario>, id: string)
    requires targets != []
    ensures AnyBringsIn(env, legacy, targets, id)
       <==> (AnyBringsIn(env, legacy, targets[..|targets| - 1], id) || BringsIn(env, legacy, targets[|targets| - 1], id))
  {
    hide BringsIn;
    var n := |targets| - 1;
    if i :| 0 <= i < n && BringsIn(env, legacy, targets[i], id) {
      assert BringsIn(env, legacy, targets[..n][i], id);
    }
  }

  lemma OneProposal(env: Env, legacy: seq<Scenario>, t: Scenario, id: string)
    ensures var news := match ScenarioId(t) case None => [] case Some(key) => ProposedItem(env, Find(legacy, key), key, t);
            HasId(news, id) <==> (Lookup(env.entries, id).None? && BringsIn(env, legacy, t, id))
  {
    hide Find, Lookup, FinalBucket, TagId;
    var mapping := NewMapping(t, env.entries, env.filename);
    if mapping.Some? {
      assert [mapping.value][0].id == mapping.value.id;
    }
  }

  lemma {:induction false} NewsExactly(env: Env, legacy: seq<Scenario>, targets: seq<Scenario>, id: string)
    ensures HasId(MergeNews(env, legacy, targets), id)
       <==> (Lookup(env.entries, id).None? && AnyBringsIn(env, legacy, targets, id))
  {
    hide Find, Lookup, BringsIn, AnyBringsIn, ScenarioId, ProposedItem, HasId;
    if targets == [] {
      NothingBroughtIn(env, legacy, id);
    } else {
      var n := |targets| - 1;
      NewsExactly(env, legacy, targets[..n], id);
      AnyBringsInSnoc(env, legacy, targets, id);
      OneProposal(env, legacy, targets[n], id);
      HasIdAppend(MergeNews(env, legacy, targets[..n]),
                  match ScenarioId(targets[n]) case None => []
                  case Some(key) => ProposedItem(env, Find(legacy, key), key, targets[n]), id);
    }
  }

  lemma NothingBroughtIn(env: Env, legacy: seq<Scenario>, id: string)
    ensures !AnyBringsIn(env, legacy, [], id) && !HasId([], id)
  {
  }

  // ------------------------------------------------------------------ over a run

  ghost predicate SourceBringsIn(s: Source, o: Settings, m: Mappings, id: string) {
    AnyBringsIn(EnvOf(s, o, m), LegacyScenarios(ParseOption(s.legacy)), ParseFeature(s.target).scenarios, id)
  }

  ghost predicate RunBringsIn(sources: seq<Source>, o: Settings, m: Mappings, uc: string, id: string) {
    exists i | 0 <= i < |sources| :: UcKey(sources[i].name) == uc && SourceBringsIn(sources[i], o, m, id)
  }

  lemma RunBringsInSnoc(sources: seq<Source>, o: Settings, m: Mappings, uc: string, id: string)
    requires sources != []
    ensures RunBringsIn(sources, o, m, uc, id)
       <==> (RunBringsIn(sources[..|sources| - 1], o, m, uc, id)
             || (UcKey(sources[|sources| - 1].name) == uc && SourceBringsIn(sources[|sources| - 1], o, m, id)))
  {
    hide SourceBringsIn, UcKey;
    var n := |sources| - 1;
    if i :| 0 <= i < n && UcKey(sources[i].name) == uc && SourceBringsIn(sources[i], o, m, id) {
      assert UcKey(sources[..n][i].name) == uc && SourceBringsIn(sources[..n][i], o, m, id);
    }
  }

  lemma {:induction false} ProposedExactly(cs: seq<Contribution>, sources: seq<Source>, o: Settings, m: Mappings,
                                           uc: string, id: string)
    requires AllContribute(cs, sources, o, m)
    ensures HasId(ProposedBy(cs, uc), id)
       <==> (Lookup(EntriesOf(m, uc), id).None? && RunBringsIn(sources, o, m, uc, id))
  {
    hide UcKey, ParseFeature, MergeNews, AnyBringsIn, Lookup, HasId, FileMerge, RunBringsIn, KeptIds;
    if cs == [] {
      NothingProposed(o, m, uc, id);
    } else {
      var n := |cs| - 1;
      FrontContributes(cs, sources, o, m);
      ProposedExactly(cs[..n], sources[..n], o, m, uc, id);
      RunBringsInSnoc(sources, o, m, uc, id);
      var s := sources[n];
      NewsExactly(EnvOf(s, o, m), LegacyScenarios(ParseOption(s.legacy)), ParseFeature(s.target).scenarios, id);
      HasIdAppend(ProposedBy(cs[..n], uc), if cs[n].uc == uc then cs[n].news else [], id);
      NoIds(id);
    }
  }

  lemma FrontContributes(cs: seq<Contribution>, sources: seq<Source>, o: Settings, m: Mappings)
    requires AllContribute(cs, sources, o, m) && cs != []
    ensures AllContribute(cs[..|cs| - 1], sources[..|cs| - 1], o, m)
  {
    hide FileMerge, ContributionOf;
  }

  lemma NothingProposed(o: Settings, m: Mappings, uc: string, id: string)
    ensures !RunBringsIn([], o, m, uc, id) && !HasId([], id)
  {
  }

  /** Which reported ids have an entry after a run: those that had one, and those that a TARGET scenario of the
      use case carries in its contextgit comment and the merge renders afresh. An id that only a tag carries, or
      whose scenario is kept from LEGACY, gets none. */
  lemma ReportedIdHasEntryExactly(cs: seq<Contribution>, sources: seq<Source>, o: Settings, m: Mappings,
                                  uc: string, id: string)
    requires AllContribute(cs, sources, o, m) && id in ProducedBy(cs, uc)
    ensures HasId(SettledBy(cs, uc, EntriesOf(m, uc)), id)
       <==> (HasId(EntriesOf(m, uc), id) || RunBringsIn(sources, o, m, uc, id))
  {
    hide ProducedBy, TouchedBy, ProposedBy, AddNew, Prune, HasId, Lookup, RunBringsIn, AllContribute;
    var existing := EntriesOf(m, uc);
    var updated := AddNew(existing, ProposedBy(cs, uc));
    ProposedExactly(cs, sources, o, m, uc, id);
    LookupFinds(existing, id);
    UpdateCovers(existing, ProposedBy(cs, uc), id);
    LookupFinds(updated, id);
    PruneKeepsLookup(updated, ProducedBy(cs, uc), TouchedBy(cs, uc), id);
    LookupFinds(SettledBy(cs, uc, existing), id);
  }

  // ------------------------------------------------------------------ a reported id without an entry

  const SAMPLE_COMMENT := "# @contextgit id=" + "T-1"

  lemma SampleCommentRead()
    ensures var t := Strip(SAMPLE_COMMENT);
            && ParseContextGit(t).Some? && ParseContextGit(t).value.id == "T-1"
            && EndsScenario(t) && EndsDescription(t) && !IsFiller(t)
  {
    hide ParseContextGit, IsTagLine, ScenarioHead, IsSectionRule;
    StripTrimmed(SAMPLE_COMMENT);
    assert Annotation("T-1", None, None) == SAMPLE_COMMENT;
    AnnotationRead("T-1", None, None);
  }

  /** What the compiler wrote for the scenario before. */
  function SampleLegacy(): Scenario {
    Scenario(None, ["@T-1"], SCENARIO, "x", [], [], [])
  }

  /** The TARGET file that carries the same scenario with its id in the contextgit comment. */
  function SampleTarget(): seq<string> {
    [SAMPLE_FEATURE, SAMPLE_COMMENT, ScenarioLine(SampleLegacy())]
  }

  lemma SampleNameOk()
    ensures NameOk(SCENARIO, "x") && RStrip("x") == "x"
  {
    hide ParseContextGit;
    assert RStrip("x") == "x";
    NoHashNoContextGit(SCENARIO + ": " + "x");
  }

  lemma SampleTagsOk()
    ensures AllTagSafe(["@T-1"]) && TagId(["@T-1"]) == Some("T-1")
  {
    assert "@T-" <= "@T-1" && "@T-1"[1..] == "T-1";
  }

  /** TARGET: one scenario with the id in its comment, and no tags. */
  lemma SampleTargetParsed()
    ensures exists cg: ContextGit :: cg.id == "T-1"
              && ParseFeature(SampleTarget()).scenarios == [Scenario(Some(cg), [], SCENARIO, "x", [], [], [])]
  {
    hide Strip, ParseContextGit, IsTagLine, ScenarioHead, IsFiller, EndsScenario, EndsDescription, ParseFeature, ScenarioLine,
         RStrip, NameOk, FeatureLineOk;
    SampleFeatureOk();
    SampleNameOk();
    SampleCommentRead();
    PrintedScenarioLine(SampleLegacy());
    var line := ScenarioLine(SampleLegacy());
    var lines := [SAMPLE_COMMENT, line];
    var cg := ParseContextGit(Strip(SAMPLE_COMMENT));
    assert [line][1..] == [];
    assert lines[1..] == [line];
    assert ParseLead([line], cg, []) == Lead(cg, [], [line]);
    assert ParseLead(lines, None, []) == Lead(cg, [], [line]);
    assert ParseScenarios(lines) == [Scenario(cg, [], SCENARIO, "x", [], [], [])];
    PartsRead([], [], SAMPLE_FEATURE, [], [], lines);
    assert [] + [] + [SAMPLE_FEATURE] + [] + [] + lines == SampleTarget();
  }

  /** LEGACY: the same scenario with the id as its tag. */
  lemma SampleLegacyParsed()
    ensures ParseFeature(FileOf([SampleLegacy()])).scenarios == [SampleLegacy()]
    ensures ScenarioId(SampleLegacy()) == Some("T-1")
  {
    hide AllTagSafe, NameOk, ParseFeature, FileOf, TagId, RStrip;
    SampleNameOk();
    SampleTagsOk();
    var s := SampleLegacy();
    assert IndentAll(STEP_PAD, []) == [];
    NormParts(s);
    assert Norm(s) == s;
    FileOfParses([s]);
    NormAllCons(s, []);
    assert [s] + [] == [s] && [s] + NormAll([]) == [s];
  }

  lemma SameTagsButId()
    ensures TagsMatchIgnoringId(["@T-1"], [])
  {
    assert "@T-" <= "@T-1";
  }

  /** The unchanged scenario is a NO-OP: nothing is raised, its id is reported, and no mapping is proposed. */
  lemma UnchangedIsKept(env: Env, legacy: Scenario, t: Scenario)
    requires legacy == SampleLegacy() && t.contextgit.Some? && t.contextgit.value.id == "T-1"
    requires t == Scenario(t.contextgit, [], SCENARIO, "x", [], [], [])
    ensures Find([legacy], "T-1") == Some(legacy)
    ensures Pass1(env, [legacy], [t]) == Ok([Outcome("T-1", NoOp, legacy)])
    ensures !AnyBringsIn(env, [legacy], [t], "T-1")
  {
    hide TagId;
    SampleTagsOk();
    SameTagsButId();
    assert [legacy][1..] == [] && [t][1..] == [];
    assert Find([legacy], "T-1") == Some(legacy);
    assert Classify(Some(legacy), Some(t)) == NoOp;
    var outcome := Outcome("T-1", NoOp, legacy);
    assert TargetOutcome(env, Some(legacy), "T-1", t) == Ok(outcome);
    assert [outcome] + [] == [outcome] && Pass1(env, [legacy], []) == Ok([]);
  }

  lemma NothingMore(legacy: Scenario)
    requires legacy == SampleLegacy()
    ensures Pass2([legacy], {"T-1"}, KeyOrder([legacy])) == []
  {
    hide TagId;
    SampleTagsOk();
    assert [legacy][1..] == [];
    assert KeyOrder([legacy]) == ["T-1"] + [];
    assert ["T-1"][1..] == [];
  }

  /** A run over one file whose only scenario is unchanged, with an empty table: the id is reported, the scenario
      is in the file, and the table has no entry for it. */
  lemma ReportedWithoutEntry(name: string, o: Settings)
    ensures var s := Source(name, SampleTarget(), Some(FileOf([SampleLegacy()])), {});
            && FileMerge(s, o, map[]).Ok?
            && var cs := [ContributionOf(s, o, map[])];
            && AllContribute(cs, [s], o, map[]) && "T-1" in ProducedBy(cs, UcKey(name))
            && !HasId(SettledBy(cs, UcKey(name), EntriesOf(map[], UcKey(name))), "T-1")
  {
    hide ParseFeature, FileOf, SampleTarget, SampleLegacy, UcKey, Pass1, Pass2, KeyOrder, MergeNews, HasId, Prune, AddNew,
         AnyBringsIn, ScenarioId;
    var s := Source(name, SampleTarget(), Some(FileOf([SampleLegacy()])), {});
    var uc := UcKey(name);
    SampleTargetParsed();
    SampleLegacyParsed();
    var cg: ContextGit :| cg.id == "T-1"
                          && ParseFeature(s.target).scenarios == [Scenario(Some(cg), [], SCENARIO, "x", [], [], [])];
    var t := Scenario(Some(cg), [], SCENARIO, "x", [], [], []);
    UnchangedIsKept(EnvOf(s, o, map[]), SampleLegacy(), t);
    NothingMore(SampleLegacy());
    assert IdSet([t]) == {"T-1"} by {
      OneId(t);
    }
    OneReported(s, o);
    var cs := [ContributionOf(s, o, map[])];
    assert cs[..0] == [];
    assert ProducedBy(cs, uc) == ProducedBy([], uc) + cs[0].ids;
    OneSource(s, o, uc);
    ReportedIdHasEntryExactly(cs, [s], o, map[], uc, "T-1");
    NoIds("T-1");
  }

  lemma OneId(t: Scenario)
    requires t.contextgit.Some? && t.contextgit.value.id == "T-1"
    ensures IdSet([t]) == {"T-1"}
  {
    assert [t][1..] == [];
  }

  lemma OneReported(s: Source, o: Settings)
    requires FileMerge(s, o, map[]).Ok? && FileMerge(s, o, map[]).value.outcomes == [Outcome("T-1", NoOp, SampleLegacy())]
    ensures ContributionOf(s, o, map[]).ids == {"T-1"}
  {
    hide FileMerge, MergeNews, UcKey;
    var outcomes := FileMerge(s, o, map[]).value.outcomes;
    assert outcomes[1..] == [] && KeptIds([]) == {};
    assert KeptIds(outcomes) == {"T-1"} + {};
  }

  lemma OneSource(s: Source, o: Settings, uc: string)
    requires !SourceBringsIn(s, o, map[], "T-1")
    ensures !RunBringsIn([s], o, map[], uc, "T-1")
  {
    hide SourceBringsIn, UcKey;
  }
}
