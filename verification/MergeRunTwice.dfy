/** A second merge run over its own output: what happens to the files, and to the traceability table. */
module MergeRunTwice {
  import opened Text
  import opened Gherkin
  import opened FeatureParser
  import opened RoundTrip
  import opened Traceability
  import opened UseCases
  import opened CompilePipeline
  import opened RunTheorems
  import opened Merge
  import opened MergeFacts
  import opened FileReadsBack
  import opened NormFacts
  import opened MergeFixpoint
  import opened RestoredExamples
  import opened MergeTwice
  import opened MergeFiles
  import opened MergeRun
  import opened MergeEntries

  // ------------------------------------------------------------------ which ids a merge reports

  lemma {:induction false} LegacyKept(legacy: seq<Scenario>, targetIds: set<string>, order: seq<string>, id: string)
    requires id !in targetIds
    ensures id in KeptIds(Pass2(legacy, targetIds, order))
       <==> (id in order && Find(legacy, id).Some? && HandEdited(Find(legacy, id).value))
  {
    hide Find, HandEdited;
    if order != [] {
      LegacyKept(legacy, targetIds, order[1..], id);
      var rest := Pass2(legacy, targetIds, order[1..]);
      var here := Pass2(legacy, targetIds, order);
      assert here == rest || here[1..] == rest;
    }
  }

  lemma {:induction false} ListElements(targets: seq<Scenario>)
    ensures Elements(IdList(targets)) == IdSet(targets)
  {
    hide ScenarioId;
    if targets != [] {
      ListElements(targets[1..]);
      var rest := IdList(targets[1..]);
      if ScenarioId(targets[0]).Some? {
        assert IdList(targets)[1..] == rest;
      }
    }
  }

  /** The ids that a merge reports: those of TARGET, and those that LEGACY has on a hand-edited scenario. */
  lemma KeptExactly(env: Env, legacy: seq<Scenario>, targets: seq<Scenario>, id: string)
    requires Pass1(env, legacy, targets).Ok?
    ensures id in KeptIds(Pass1(env, legacy, targets).value + Pass2(legacy, IdSet(targets), KeyOrder(legacy)))
       <==> (id in IdSet(targets) || (Find(legacy, id).Some? && HandEdited(Find(legacy, id).value)))
  {
    hide Find, HandEdited, Pass1, Pass2, KeyOrder, IdSet, KeptIds, SurvivorIds, IdList, LegacyOutcome;
    var first := Pass1(env, legacy, targets).value;
    var rest := Pass2(legacy, IdSet(targets), KeyOrder(legacy));
    KeptIdsAppend(first, rest);
    KeptAreSurvivors(first);
    Pass1Ids(env, legacy, targets);
    ListElements(targets);
    if id !in IdSet(targets) {
      LegacyKept(legacy, IdSet(targets), KeyOrder(legacy), id);
      KeyOrderMember(legacy, id);
    }
  }

  lemma {:induction false} KeptHas(outcomes: seq<Outcome>, id: string) returns (o: Outcome)
    requires id in KeptIds(outcomes)
    ensures o in outcomes && o.id == id && o.bucket != LegacyDelete
  {
    if outcomes[0].id == id && outcomes[0].bucket != LegacyDelete {
      o := outcomes[0];
    } else {
      o := KeptHas(outcomes[1..], id);
    }
  }

  // ------------------------------------------------------------------ one file, merged again

  /** The second merge of a file reports the same ids, even when it restores Examples. */
  lemma SameIds(env: Env, later: Env, target: Feature, legacy: Option<Feature>, second: Feature, id: string)
    requires OutcomesReady(env, target, legacy)
    requires second.scenarios == NormAll(Survivors(MergeScenarios(env, target, legacy).value.outcomes))
    requires MergeScenarios(later, target, Some(second)).Ok?
    ensures id in KeptIds(MergeScenarios(later, target, Some(second)).value.outcomes)
       <==> id in KeptIds(MergeScenarios(env, target, legacy).value.outcomes)
  {
    hide ScenarioOk, NormAll, Norm, Pass1, Pass2, KeyOrder, IdSet, KeptIds, Holds, OutcomesReady, Survivors, SurvivorIds,
         HandEdited, Find, LegacyOutcome, Elements;
    ReadyRuns(env, target, legacy);
    var scenarios, again := LegacyScenarios(legacy), second.scenarios;
    var targetIds := IdSet(target.scenarios);
    var first := Pass1(env, scenarios, target.scenarios).value;
    var rest := Pass2(scenarios, targetIds, KeyOrder(scenarios));
    MergedHolds(env, target, legacy);
    KeptExactly(env, scenarios, target.scenarios, id);
    KeptExactly(later, again, target.scenarios, id);
    if id !in targetIds {
      LegacyKept(scenarios, targetIds, KeyOrder(scenarios), id);
      KeyOrderMember(scenarios, id);
      if id in KeptIds(rest) {
        KeyOrderDistinct(scenarios);
        Pass2Facts(scenarios, targetIds, KeyOrder(scenarios));
        HoldsParts(again, first, rest);
        HandEditedStays(again, rest, scenarios, targetIds, id);
      } else if Find(again, id).Some? {
        KeyOrderMember(again, id);
        KeptAreSurvivors(first + rest);
        assert false;
      }
    }
  }

  lemma HandEditedStays(again: seq<Scenario>, rest: seq<Outcome>, legacy: seq<Scenario>, targetIds: set<string>, id: string)
    requires Holds(again, rest) && id in KeptIds(rest)
    requires forall o | o in rest :: LegacyOutcome(legacy, targetIds, o)
    ensures Find(again, id).Some? && HandEdited(Find(again, id).value)
  {
    hide Find, HandEdited, Norm, KeptIds;
    var o := KeptHas(rest, id);
    HandEditedKept(o.scenario);
  }

  lemma {:induction false} OutcomeOfTarget(env: Env, legacy: seq<Scenario>, targets: seq<Scenario>, i: nat)
    requires Pass1(env, legacy, targets).Ok? && i < |targets| && ScenarioId(targets[i]).Some?
    ensures var id := ScenarioId(targets[i]).value;
            var r := TargetOutcome(env, Find(legacy, id), id, targets[i]);
            r.Ok? && r.value in Pass1(env, legacy, targets).value
  {
    hide TargetOutcome, Find, ScenarioId;
    if i > 0 {
      OutcomeOfTarget(env, legacy, targets[1..], i - 1);
    }
  }

  /** A scenario that the first merge kept from LEGACY is kept by the second. */
  lemma KeptTwice(env: Env, later: Env, legacy: Option<Scenario>, id: string, t: Scenario)
    requires later == env.(entries := later.entries) && (legacy.Some? ==> Canonical(legacy.value))
    requires TargetOutcome(env, legacy, id, t).Ok?
    requires Fresh(FinalBucket(later, Some(Norm(TargetOutcome(env, legacy, id, t).value.scenario)), id, t))
    ensures Fresh(FinalBucket(env, legacy, id, t))
  {
    hide Norm, OutputTags, TagsMatchIgnoringId, ExamplesMatch, HandEdited, NormBlocks, WriteScenario;
    NormParts(TargetOutcome(env, legacy, id, t).value.scenario);
    if legacy.Some? {
      NormParts(legacy.value);
    }
  }

  /** The second merge brings in no id that the first did not. */
  lemma NothingMoreBroughtIn(env: Env, later: Env, target: Feature, legacy: Option<Feature>, second: Feature, id: string)
    requires OutcomesReady(env, target, legacy) && later == env.(entries := later.entries)
    requires second.scenarios == NormAll(Survivors(MergeScenarios(env, target, legacy).value.outcomes))
    requires AnyBringsIn(later, second.scenarios, target.scenarios, id)
    ensures AnyBringsIn(env, LegacyScenarios(legacy), target.scenarios, id)
  {
    hide ScenarioOk, NormAll, Norm, Pass1, Pass2, KeyOrder, IdSet, OutcomesReady, Survivors, TargetOutcome,
         HandEdited, Find, FinalBucket, Canonical, CompiledOk, FreshOk;
    ReadyRuns(env, target, legacy);
    MergedHolds(env, target, legacy);
    LegacyScenariosOk(legacy);
    var scenarios := LegacyScenarios(legacy);
    var i :| 0 <= i < |target.scenarios| && BringsIn(later, second.scenarios, target.scenarios[i], id);
    var t := target.scenarios[i];
    OutcomeOfTarget(env, scenarios, target.scenarios, i);
    var o := TargetOutcome(env, Find(scenarios, id), id, t).value;
    OutcomeId(env, Find(scenarios, id), id, t);
    var first := Pass1(env, scenarios, target.scenarios).value;
    HoldsParts(second.scenarios, first, Pass2(scenarios, IdSet(target.scenarios), KeyOrder(scenarios)));
    assert Find(second.scenarios, id) == Some(Norm(o.scenario));
    if Find(scenarios, id).Some? {
      FindIn(scenarios, id);
    }
    KeptTwice(env, later, Find(scenarios, id), id, t);
    assert BringsIn(env, scenarios, t, id);
  }

  // ------------------------------------------------------------------ the table after one run

  lemma {:induction false} NewsAreNew(env: Env, legacy: seq<Scenario>, targets: seq<Scenario>)
    ensures AllNew(MergeNews(env, legacy, targets))
  {
    hide Find, Lookup, FinalBucket, ScenarioId;
    if targets != [] {
      NewsAreNew(env, legacy, targets[..|targets| - 1]);
    }
  }

  lemma {:induction false} ProposedAreNew(cs: seq<Contribution>, sources: seq<Source>, o: Settings, m: Mappings, uc: string)
    requires AllContribute(cs, sources, o, m)
    ensures AllNew(ProposedBy(cs, uc))
  {
    hide UcKey, ParseFeature, MergeNews, FileMerge, KeptIds;
    if cs != [] {
      var n := |cs| - 1;
      FrontContributes(cs, sources, o, m);
      ProposedAreNew(cs[..n], sources[..n], o, m, uc);
      NewsAreNew(EnvOf(sources[n], o, m), LegacyScenarios(ParseOption(sources[n].legacy)), ParseFeature(sources[n].target).scenarios);
    }
  }

  /** The lookup of a reported id: unchanged, missing as before, or a fresh entry with status `new`. */
  lemma ReportedLookup(cs: seq<Contribution>, sources: seq<Source>, o: Settings, m: Mappings, uc: string, id: string)
    requires AllContribute(cs, sources, o, m) && id in ProducedBy(cs, uc)
    ensures var found, after := Lookup(EntriesOf(m, uc), id), Lookup(SettledBy(cs, uc, EntriesOf(m, uc)), id);
            if found.Some? then after == found else after.None? || after.value.status == "new"
  {
    hide ProducedBy, TouchedBy, ProposedBy, AddNew, Prune, Lookup, HasId, AllContribute;
    var existing, news := EntriesOf(m, uc), ProposedBy(cs, uc);
    var added := UpdateAppends(existing, news);
    PruneKeepsLookup(AddNew(existing, news), ProducedBy(cs, uc), TouchedBy(cs, uc), id);
    LookupAppend(existing, added, id);
    ProposedAreNew(cs, sources, o, m, uc);
    LookupFinds(added, id);
  }

  /** The settled table gives every TARGET scenario of the run the same output tags. */
  lemma TagsStay(cs: seq<Contribution>, sources: seq<Source>, o: Settings, m: Mappings, i: nat, t: Scenario)
    requires AllContribute(cs, sources, o, m) && i < |sources| && t in ParseFeature(sources[i].target).scenarios
    ensures var existing := EntriesOf(m, UcKey(sources[i].name));
            OutputTags(t, SettledBy(cs, UcKey(sources[i].name), existing)) == OutputTags(t, existing)
  {
    hide ParseFeature, UcKey, SettledBy, Lookup, TagsWith, ProducedBy, FileMerge, MergeNews, KeptIds;
    if t.contextgit.Some? {
      var id, uc := t.contextgit.value.id, UcKey(sources[i].name);
      TargetReported(sources[i], o, m, t);
      ProducedFrom(cs, uc, id);
      assert cs[i].uc == uc && id in cs[i].ids;
      ReportedLookup(cs, sources, o, m, uc, id);
      var after := Lookup(SettledBy(cs, uc, EntriesOf(m, uc)), id);
      if Lookup(EntriesOf(m, uc), id).None? && after.Some? {
        NewTagsNothing(t.tags, id, after.value);
      }
    }
  }

  lemma TargetReported(s: Source, o: Settings, m: Mappings, t: Scenario)
    requires FileMerge(s, o, m).Ok? && t in ParseFeature(s.target).scenarios && ScenarioId(t).Some?
    ensures ScenarioId(t).value in ContributionOf(s, o, m).ids
  {
    hide ParseFeature, UcKey, Pass1, Pass2, KeyOrder, IdSet, MergeNews, KeptIds, Find, HandEdited, ScenarioId;
    var targets := ParseFeature(s.target).scenarios;
    KeptExactly(EnvOf(s, o, m), LegacyScenarios(ParseOption(s.legacy)), targets, ScenarioId(t).value);
    var i :| 0 <= i < |targets| && targets[i] == t;
    IdOfMember(targets, i);
  }

  lemma {:induction false} IdOfMember(scenarios: seq<Scenario>, i: nat)
    requires i < |scenarios| && ScenarioId(scenarios[i]).Some?
    ensures ScenarioId(scenarios[i]).value in IdSet(scenarios)
  {
    hide ScenarioId;
    if i > 0 {
      IdOfMember(scenarios[1..], i - 1);
    }
  }

  // ------------------------------------------------------------------ the second run

  /** The TARGET files of a run, with the files that the run wrote as LEGACY. */
  function Rerun(s: Source, o: Settings, m: Mappings, stamp: seq<string>): Source
    requires FileLines(s, o, m, stamp).Ok?
  {
    s.(legacy := Some(FileLines(s, o, m, stamp).value))
  }

  ghost predicate RunReady(sources: seq<Source>, o: Settings, m: Mappings, stamp: seq<string>) {
    forall i | 0 <= i < |sources| ::
      && FilesReady(EntriesOf(m, UcKey(sources[i].name)), sources[i].target, sources[i].legacy)
      && FileLines(sources[i], o, m, stamp).Ok?
  }

  /** `m` after the run, `after`, is `before` updated and pruned. */
  ghost predicate SettledTable(cs: seq<Contribution>, before: Mappings, after: Mappings) {
    forall uc :: EntriesOf(after, uc) == SettledBy(cs, uc, EntriesOf(before, uc))
  }

  lemma SameEnv(sources: seq<Source>, cs: seq<Contribution>, o: Settings, before: Mappings, after: Mappings,
                stamp: seq<string>, i: nat)
    requires AllContribute(cs, sources, o, before) && RunReady(sources, o, before, stamp)
    requires SettledTable(cs, before, after) && i < |sources|
    ensures var s := sources[i];
            var env, later := EnvOf(s, o, before), EnvOf(Rerun(s, o, before, stamp), o, after);
            && later == env.(entries := later.entries)
            && forall t | t in ParseFeature(s.target).scenarios :: OutputTags(t, later.entries) == OutputTags(t, env.entries)
  {
    hide ParseFeature, UcKey, SettledBy, OutputTags, FileLines, ContributionOf, FileMerge, FilesReady;
    forall t | t in ParseFeature(sources[i].target).scenarios
      ensures OutputTags(t, EntriesOf(after, UcKey(sources[i].name))) == OutputTags(t, EntriesOf(before, UcKey(sources[i].name))) {
      TagsStay(cs, sources, o, before, i, t);
    }
  }

  /** Running the merge again over what it wrote reproduces a file exactly when nothing in it is restored, and
      then for every stamp. */
  lemma FilesReproduced(sources: seq<Source>, cs: seq<Contribution>, o: Settings, before: Mappings, after: Mappings,
                        stamp: seq<string>, i: nat)
    requires AllContribute(cs, sources, o, before) && RunReady(sources, o, before, stamp) && StampOk(stamp)
    requires SettledTable(cs, before, after) && i < |sources|
    ensures var s := sources[i];
            var again := Rerun(s, o, before, stamp);
            var restored := AnyRestorable(EnvOf(s, o, before), LegacyScenarios(ParseOption(s.legacy)), ParseFeature(s.target).scenarios);
            && (FileLines(again, o, after, stamp) == FileLines(s, o, before, stamp) <==> !restored)
            && (!restored ==> forall newStamp :: FileLines(again, o, after, newStamp) == FileLines(s, o, before, newStamp))
  {
    hide ParseFeature, UcKey, OutputTags, MergeLines, FilesReady, AnyRestorable, AllContribute, SettledTable, StampOk;
    var s := sources[i];
    var again := Rerun(s, o, before, stamp);
    SameEnv(sources, cs, o, before, after, stamp, i);
    MergeReproducesItself(EnvOf(s, o, before), EnvOf(again, o, after), s.target, s.legacy, stamp);
  }

  /** What the second run contributes to the table. */
  lemma ContributesAgain(sources: seq<Source>, cs: seq<Contribution>, o: Settings, before: Mappings, after: Mappings,
                         stamp: seq<string>, i: nat)
    requires AllContribute(cs, sources, o, before) && RunReady(sources, o, before, stamp) && StampOk(stamp)
    requires SettledTable(cs, before, after) && i < |sources|
    ensures var again := Rerun(sources[i], o, before, stamp);
            && FileMerge(again, o, after).Ok? && ContributionOf(again, o, after).ids == cs[i].ids
            && forall id | SourceBringsIn(again, o, after, id) :: SourceBringsIn(sources[i], o, before, id)
  {
    hide ParseFeature, UcKey, OutputTags, MergeScenarios, FilesReady, SettledTable, StampOk, OutcomesReady, MergeReady, KeptIds,
         NormAll, Survivors, MergedBackground, BackgroundSection, AnyBringsIn, MergeNews, MergedFile, AnyRestored, FreshOk;
    var s := sources[i];
    var again := Rerun(s, o, before, stamp);
    var env, later := EnvOf(s, o, before), EnvOf(again, o, after);
    var target, legacy := ParseFeature(s.target), ParseOption(s.legacy);
    var second := ParseFeature(again.legacy.value);
    SameEnv(sources, cs, o, before, after, stamp, i);
    FilesAreReady(env, s.target, s.legacy);
    ReadyOutcomes(env, target, legacy);
    SecondFile(env, later, target, legacy, stamp);
    ScenariosAgain(env, later, target, legacy, second);
    forall id ensures id in ContributionOf(again, o, after).ids <==> id in cs[i].ids {
      SameIds(env, later, target, legacy, second, id);
    }
    forall id | SourceBringsIn(again, o, after, id) ensures SourceBringsIn(s, o, before, id) {
      NothingMoreBroughtIn(env, later, target, legacy, second, id);
    }
  }

  lemma {:induction false} SameProduced(cs: seq<Contribution>, cs2: seq<Contribution>, uc: string)
    requires |cs| == |cs2|
    requires forall i | 0 <= i < |cs| :: cs2[i].uc == cs[i].uc && cs2[i].name == cs[i].name && cs2[i].ids == cs[i].ids
    ensures ProducedBy(cs2, uc) == ProducedBy(cs, uc) && TouchedBy(cs2, uc) == TouchedBy(cs, uc)
  {
    if cs != [] {
      SameProduced(cs[..|cs| - 1], cs2[..|cs| - 1], uc);
    }
  }

  /** A second run over the files that the first one wrote leaves the table as it is: it proposes nothing and
      prunes nothing, whether or not it restores Examples. */
  lemma SecondMergeKeepsTable(sources: seq<Source>, again: seq<Source>, cs: seq<Contribution>, cs2: seq<Contribution>,
                              o: Settings, before: Mappings, after: Mappings, stamp: seq<string>, uc: string)
    requires AllContribute(cs, sources, o, before) && RunReady(sources, o, before, stamp) && StampOk(stamp)
    requires SettledTable(cs, before, after) && |again| == |sources|
    requires forall i | 0 <= i < |sources| :: again[i] == Rerun(sources[i], o, before, stamp)
    requires AllContribute(cs2, again, o, after)
    ensures ProposedBy(cs2, uc) == []
    ensures SettledBy(cs2, uc, EntriesOf(after, uc)) == EntriesOf(after, uc)
  {
    hide UcKey, ParseFeature, FileLines, FileMerge, FilesReady, StampOk, AddNew, Prune, HasId, Lookup, SourceBringsIn, MergeNews,
         KeptIds, MergeScenarios, ProducedBy, TouchedBy, ProposedBy;
    forall i | 0 <= i < |sources|
      ensures cs2[i].uc == cs[i].uc && cs2[i].name == cs[i].name && cs2[i].ids == cs[i].ids {
      ContributesAgain(sources, cs, o, before, after, stamp, i);
    }
    SameProduced(cs, cs2, uc);
    var news := ProposedBy(cs2, uc);
    if news != [] {
      MemberHasId(news, news[0]);
      ProposedExactly(cs2, again, o, after, uc, news[0].id);
      BroughtInBefore(sources, again, cs, o, before, after, stamp, uc, news[0].id);
      LookupFinds(EntriesOf(after, uc), news[0].id);
      assert false;
    }
    PruneTwice(AddNew(EntriesOf(before, uc), ProposedBy(cs, uc)), ProducedBy(cs, uc), TouchedBy(cs, uc));
    NothingAdded(EntriesOf(after, uc));
  }

  lemma NothingAdded(existing: seq<Entry>)
    ensures AddNew(existing, []) == existing
  {
  }

  lemma BroughtInBefore(sources: seq<Source>, again: seq<Source>, cs: seq<Contribution>, o: Settings, before: Mappings,
                        after: Mappings, stamp: seq<string>, uc: string, id: string)
    requires AllContribute(cs, sources, o, before) && RunReady(sources, o, before, stamp) && StampOk(stamp)
    requires SettledTable(cs, before, after) && |again| == |sources|
    requires forall i | 0 <= i < |sources| :: again[i] == Rerun(sources[i], o, before, stamp)
    requires RunBringsIn(again, o, after, uc, id)
    ensures HasId(EntriesOf(after, uc), id)
  {
    hide UcKey, ParseFeature, FileLines, FileMerge, FilesReady, StampOk, HasId, SettledBy, SourceBringsIn, MergeNews, KeptIds;
    var i :| 0 <= i < |again| && UcKey(again[i].name) == uc && SourceBringsIn(again[i], o, after, id);
    ContributesAgain(sources, cs, o, before, after, stamp, i);
    assert SourceBringsIn(sources[i], o, before, id);
    SourceReports(sources[i], o, before, id);
    ProducedFrom(cs, uc, id);
    assert cs[i].uc == uc && id in cs[i].ids;
    ReportedIdHasEntryExactly(cs, sources, o, before, uc, id);
  }

  lemma SourceReports(s: Source, o: Settings, m: Mappings, id: string)
    requires FileMerge(s, o, m).Ok? && SourceBringsIn(s, o, m, id)
    ensures id in ContributionOf(s, o, m).ids
  {
    hide UcKey, ParseFeature, FileMerge, FinalBucket, Find, ContributionOf;
    var targets := ParseFeature(s.target).scenarios;
    var i :| 0 <= i < |targets|
             && BringsIn(EnvOf(s, o, m), LegacyScenarios(ParseOption(s.legacy)), targets[i], id);
    TargetReported(s, o, m, targets[i]);
  }
}
