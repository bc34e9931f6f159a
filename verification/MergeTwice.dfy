/** The fixpoint theorem of merge mode, on whole files. */
module MergeTwice {
  import opened Text
  import opened Gherkin
  import opened GherkinFacts
  import opened FeatureParser
  import opened FeatureRender
  import opened RoundTrip
  import opened Traceability
  import opened CompilePipeline
  import opened Merge
  import opened MergeFacts
  import opened FileReadsBack
  import opened NormFacts
  import opened MergeFixpoint
  import opened RestoredExamples
  import opened WrittenTargets

  /** A merge that goes through and whose output can be read back: a `Feature:` line in TARGET, a LEGACY file in
      the renderer's own form, distinct TARGET ids, readable TARGET scenarios, no short row in a rewritten table. */
  ghost predicate MergeReady(env: Env, target: Feature, legacy: Option<Feature>) {
    && FeatureOk(target) && LegacyOk(legacy) && Distinct(IdList(target.scenarios))
    && MergeScenarios(env, target, legacy).Ok?
    && forall t | t in target.scenarios :: Readable(t, env.entries)
  }

  /** The same, said of the outcomes. */
  ghost predicate OutcomesReady(env: Env, target: Feature, legacy: Option<Feature>) {
    && FeatureOk(target) && LegacyOk(legacy) && Distinct(IdList(target.scenarios))
    && MergeScenarios(env, target, legacy).Ok?
    && forall o | o in MergeScenarios(env, target, legacy).value.outcomes :: FreshOk(o)
  }

  lemma {:induction false} ReadableFresh(env: Env, legacy: seq<Scenario>, targets: seq<Scenario>)
    requires forall t | t in targets :: Readable(t, env.entries) && ScenarioOk(t)
    requires Pass1(env, legacy, targets).Ok?
    ensures forall o | o in Pass1(env, legacy, targets).value :: FreshOk(o)
  {
    hide ScenarioOk, Find, ScenarioId, Readable, TargetOutcome, FreshOk;
    if targets != [] {
      assert targets[0] in targets && forall t | t in targets[1..] :: t in targets;
      ReadableFresh(env, legacy, targets[1..]);
      if ScenarioId(targets[0]).Some? {
        ReadableOutcome(env, Find(legacy, ScenarioId(targets[0]).value), targets[0]);
      }
    }
  }

  lemma ReadableOutcome(env: Env, legacy: Option<Scenario>, t: Scenario)
    requires Readable(t, env.entries) && ScenarioOk(t) && ScenarioId(t).Some?
    requires TargetOutcome(env, legacy, ScenarioId(t).value, t).Ok?
    ensures FreshOk(TargetOutcome(env, legacy, ScenarioId(t).value, t).value)
  {
    hide ScenarioOk, Readable, WriteScenario, FinalBucket, TagId;
    OutcomeId(env, legacy, ScenarioId(t).value, t);
    if Fresh(FinalBucket(env, legacy, ScenarioId(t).value, t)) {
      FreshlyWritten(env, legacy, ScenarioId(t).value, t);
      ReadableExactly(t, env.entries);
    }
  }

  lemma ReadyOutcomes(env: Env, target: Feature, legacy: Option<Feature>)
    requires MergeReady(env, target, legacy)
    ensures OutcomesReady(env, target, legacy)
  {
    hide ScenarioOk, Readable, FreshOk, Pass1, Pass2, KeyOrder, IdSet, LegacyOutcome, LegacyOk, BackgroundOk, DescriptionOk,
         FeatureLineOk, AllTagSafe, Distinct, IdList;
    var scenarios := LegacyScenarios(legacy);
    ReadableFresh(env, scenarios, target.scenarios);
    KeyOrderDistinct(scenarios);
    Pass2Facts(scenarios, IdSet(target.scenarios), KeyOrder(scenarios));
    forall o | o in Pass2(scenarios, IdSet(target.scenarios), KeyOrder(scenarios)) ensures FreshOk(o) {
      LegacyNotFresh(scenarios, IdSet(target.scenarios), o);
    }
  }

  // ------------------------------------------------------------------ what was written can be read back

  ghost predicate OutcomeOk(o: Outcome) {
    o.bucket != LegacyDelete ==> ScenarioOk(o.scenario) && TagId(o.scenario.tags) == Some(o.id)
  }

  /** The scenarios of a compiled file: each is joined on its `@T-` tag. */
  ghost predicate CompiledOk(scenarios: seq<Scenario>) {
    forall s | s in scenarios :: ScenarioOk(s) && ScenarioId(s) == TagId(s.tags)
  }

  lemma LegacyFound(legacy: seq<Scenario>, id: string)
    requires CompiledOk(legacy) && Find(legacy, id).Some?
    ensures var l := Find(legacy, id).value;
            ScenarioOk(l) && TagId(l.tags) == Some(id)
  {
    hide ScenarioOk, Find, ScenarioId, TagId;
    FindIn(legacy, id);
  }

  lemma {:induction false} Pass1Ok(env: Env, legacy: seq<Scenario>, targets: seq<Scenario>)
    requires CompiledOk(legacy) && (forall t | t in targets :: ScenarioOk(t)) && Pass1(env, legacy, targets).Ok?
    requires forall o | o in Pass1(env, legacy, targets).value :: FreshOk(o)
    ensures forall o | o in Pass1(env, legacy, targets).value :: OutcomeOk(o)
  {
    hide ScenarioOk, Find, ScenarioId, TagId, FreshOk, OutcomeOk, TargetOutcome;
    if targets != [] {
      var all := Pass1(env, legacy, targets).value;
      if ScenarioId(targets[0]).None? {
        Pass1Ok(env, legacy, targets[1..]);
      } else {
        var id := ScenarioId(targets[0]).value;
        var found := Find(legacy, id);
        var o := TargetOutcome(env, found, id, targets[0]).value;
        assert all == [o] + Pass1(env, legacy, targets[1..]).value;
        assert o in all;
        if found.Some? {
          LegacyFound(legacy, id);
        }
        TargetOutcomeOk(env, found, id, targets[0]);
        Pass1Ok(env, legacy, targets[1..]);
      }
    }
  }

  lemma TargetOutcomeOk(env: Env, legacy: Option<Scenario>, id: string, t: Scenario)
    requires legacy.Some? ==> ScenarioOk(legacy.value) && TagId(legacy.value.tags) == Some(id)
    requires ScenarioOk(t) && TargetOutcome(env, legacy, id, t).Ok? && FreshOk(TargetOutcome(env, legacy, id, t).value)
    ensures OutcomeOk(TargetOutcome(env, legacy, id, t).value)
  {
    hide AllTagSafe, NameOk, StepsOk, CommentsOk, BlocksOk, TagsMatchIgnoringId, ExamplesMatch, HandEdited, WriteScenario;
  }

  lemma LegacyOutcomeOk(legacy: seq<Scenario>, targetIds: set<string>, o: Outcome)
    requires CompiledOk(legacy) && LegacyOutcome(legacy, targetIds, o)
    ensures OutcomeOk(o)
  {
    hide ScenarioOk, Find, HandEdited, ScenarioId, TagId;
    LegacyFound(legacy, o.id);
  }

  lemma KeyedCons(first: Scenario, id: string, rest: seq<Scenario>, ids: seq<string>)
    requires TagId(first.tags) == Some(id) && Keyed(rest, ids)
    ensures Keyed([Norm(first)] + rest, [id] + ids)
  {
    hide Norm, TagId;
    NormParts(first);
    forall k | 0 <= k < |ids| + 1
      ensures var s := ([Norm(first)] + rest)[k]; s.contextgit.None? && TagId(s.tags) == Some(([id] + ids)[k]) {
      if k > 0 {
        assert ([Norm(first)] + rest)[k] == rest[k - 1] && ([id] + ids)[k] == ids[k - 1];
      }
    }
  }

  lemma NothingKeyed()
    ensures Keyed(NormAll([]), [])
  {
  }

  lemma {:induction false} OutcomesKeyed(outcomes: seq<Outcome>)
    requires forall o | o in outcomes :: OutcomeOk(o)
    ensures Keyed(NormAll(Survivors(outcomes)), SurvivorIds(outcomes))
  {
    hide ScenarioOk, NormAll, Norm, TagId, Keyed;
    if outcomes == [] {
      NothingKeyed();
    } else {
      var o, rest := outcomes[0], outcomes[1..];
      assert OutcomeOk(o);
      assert forall x | x in rest :: x in outcomes;
      OutcomesKeyed(rest);
      if o.bucket != LegacyDelete {
        NormAllCons(o.scenario, Survivors(rest));
        KeyedCons(o.scenario, o.id, NormAll(Survivors(rest)), SurvivorIds(rest));
      } else {
        assert [] + Survivors(rest) == Survivors(rest) && [] + SurvivorIds(rest) == SurvivorIds(rest);
      }
    }
  }

  lemma {:induction false} KeyedHolds(again: seq<Scenario>, outcomes: seq<Outcome>, ids: seq<string>, before: seq<Scenario>)
    requires Keyed(again, ids) && Distinct(ids)
    requires |before| <= |ids| && ids[|before|..] == SurvivorIds(outcomes)
    requires again == before + NormAll(Survivors(outcomes))
    ensures Holds(again, outcomes)
  {
    hide Keyed, Distinct, Find, Norm, NormAll;
    if outcomes != [] {
      var o, rest := outcomes[0], outcomes[1..];
      if o.bucket != LegacyDelete {
        NormAllCons(o.scenario, Survivors(rest));
        assert ids[|before|] == o.id;
        KeyedFind(again, ids, |before|);
        assert again == (before + [Norm(o.scenario)]) + NormAll(Survivors(rest));
        assert ids[|before| + 1..] == ids[|before|..][1..] == SurvivorIds(rest);
        KeyedHolds(again, rest, ids, before + [Norm(o.scenario)]);
      } else {
        assert [] + SurvivorIds(rest) == SurvivorIds(rest) && [] + Survivors(rest) == Survivors(rest);
        KeyedHolds(again, rest, ids, before);
      }
    }
  }

  lemma LegacyScenariosOk(legacy: Option<Feature>)
    requires LegacyOk(legacy)
    ensures CompiledOk(LegacyScenarios(legacy)) && AllCanonical(LegacyScenarios(legacy))
  {
    hide ScenarioOk, Norm, BackgroundOk, TagId;
    forall s | s in LegacyScenarios(legacy) ensures ScenarioId(s) == TagId(s.tags) {
      NormParts(s);
    }
  }

  /** The merged file, read back: every surviving outcome is there in normal form under its own id. */
  lemma MergedHolds(env: Env, target: Feature, legacy: Option<Feature>)
    requires OutcomesReady(env, target, legacy)
    ensures var outcomes := MergeScenarios(env, target, legacy).value.outcomes;
            var again := NormAll(Survivors(outcomes));
            && ScenariosOk(Survivors(outcomes)) && Holds(again, outcomes)
            && KeyOrder(again) == SurvivorIds(outcomes)
  {
    hide ScenarioOk, Canonical, NormAll, Norm, Pass1, Pass2, KeyOrder, IdSet, IdList, OutcomeOk, FreshOk, Holds, Distinct,
         BackgroundOk, DescriptionOk, FeatureLineOk, AllTagSafe, Survivors, SurvivorIds, HandEdited, Find, CompiledOk;
    LegacyScenariosOk(legacy);
    var scenarios := LegacyScenarios(legacy);
    var targetIds := IdSet(target.scenarios);
    var first := Pass1(env, scenarios, target.scenarios).value;
    var order := KeyOrder(scenarios);
    var rest := Pass2(scenarios, targetIds, order);
    var outcomes := first + rest;
    assert MergeScenarios(env, target, legacy).value.outcomes == outcomes;
    assert forall o | o in first :: o in outcomes;
    Pass1Ok(env, scenarios, target.scenarios);
    KeyOrderDistinct(scenarios);
    Pass2Facts(scenarios, targetIds, order);
    forall o | o in rest ensures OutcomeOk(o) {
      LegacyOutcomeOk(scenarios, targetIds, o);
    }
    OutcomesKeyed(outcomes);
    OutcomesPrintable(outcomes);
    SurvivorIdsAppend(first, rest);
    Pass1Ids(env, scenarios, target.scenarios);
    forall id | id in IdList(target.scenarios) ensures id !in SurvivorIds(rest) {
      IdListMembers(target.scenarios, id);
    }
    DistinctAppend(IdList(target.scenarios), SurvivorIds(rest));
    var again, ids := NormAll(Survivors(outcomes)), SurvivorIds(outcomes);
    KeyedOrder(again, ids);
    assert ids[0..] == ids;
    assert [] + again == again;
    KeyedHolds(again, outcomes, ids, []);
  }

  // ------------------------------------------------------------------ the scenarios of the second merge

  /** The second merge writes the same scenarios, in normal form, unless one was restored. */
  lemma ScenariosAgain(env: Env, later: Env, target: Feature, legacy: Option<Feature>, second: Feature)
    requires OutcomesReady(env, target, legacy)
    requires later == env.(entries := later.entries)
    requires forall t | t in target.scenarios :: OutputTags(t, later.entries) == OutputTags(t, env.entries)
    requires second.scenarios == NormAll(Survivors(MergeScenarios(env, target, legacy).value.outcomes))
    ensures MergeScenarios(later, target, Some(second)).Ok?
    ensures NormAll(Survivors(MergeScenarios(later, target, Some(second)).value.outcomes)) == second.scenarios
       <==> !AnyRestored(env, LegacyScenarios(legacy), target.scenarios)
    ensures forall o | o in MergeScenarios(later, target, Some(second)).value.outcomes :: FreshOk(o)
  {
    hide ScenarioOk, Canonical, NormAll, Norm, Pass1, Pass2, KeyOrder, IdSet, IdList, Holds, Distinct, AnyRestored,
         BackgroundOk, FeatureOk, Survivors, SurvivorIds, HandEdited, Find, CompiledOk, OutputTags, FreshOk, LegacyOk,
         AllCanonical, LegacyOutcome;
    MergedHolds(env, target, legacy);
    LegacyScenariosOk(legacy);
    var scenarios := LegacyScenarios(legacy);
    var targetIds := IdSet(target.scenarios);
    var first := Pass1(env, scenarios, target.scenarios).value;
    var order := KeyOrder(scenarios);
    var rest := Pass2(scenarios, targetIds, order);
    var again := second.scenarios;
    assert MergeScenarios(env, target, legacy).value.outcomes == first + rest;
    HoldsParts(again, first, rest);
    Pass1Again(env, later, scenarios, again, target.scenarios);
    var first2 := Pass1(later, again, target.scenarios).value;
    KeyOrderDistinct(scenarios);
    Pass2Facts(scenarios, targetIds, order);
    SurvivorIdsAppend(first, rest);
    Pass1Ids(env, scenarios, target.scenarios);
    forall id | id in SurvivorIds(first) ensures id in targetIds {
      IdListMembers(target.scenarios, id);
    }
    Pass2SkipsTargets(again, targetIds, SurvivorIds(first), SurvivorIds(rest));
    Pass2Again(scenarios, again, targetIds, rest);
    var rest2 := Pass2(again, targetIds, SurvivorIds(rest));
    assert MergeScenarios(later, target, Some(second)).value.outcomes == first2 + rest2;
    SurvivorsAppend(first, rest);
    SurvivorsAppend(first2, rest2);
    NormAllAppend(Survivors(first), Survivors(rest));
    NormAllAppend(Survivors(first2), Survivors(rest2));
    NormAllTwice(Survivors(rest));
    SameFront(NormAll(Survivors(first)), NormAll(Survivors(first2)), NormAll(Survivors(rest)));
    assert forall o | o in first :: o in first + rest;
    KeyOrderDistinct(again);
    Pass2Facts(again, targetIds, KeyOrder(again));
    forall o | o in Pass2(again, targetIds, KeyOrder(again)) ensures FreshOk(o) {
      LegacyNotFresh(again, targetIds, o);
    }
  }

  lemma LegacyNotFresh(scenarios: seq<Scenario>, targetIds: set<string>, o: Outcome)
    requires LegacyOutcome(scenarios, targetIds, o)
    ensures FreshOk(o)
  {
    hide Find, HandEdited, ScenarioOk;
  }

  lemma HoldsParts(again: seq<Scenario>, first: seq<Outcome>, rest: seq<Outcome>)
    requires Holds(again, first + rest)
    ensures Holds(again, first) && Holds(again, rest)
  {
    hide Find, Norm;
    assert forall o | o in first :: o in first + rest;
    assert forall o | o in rest :: o in first + rest;
  }

  lemma SameFront(x: seq<Scenario>, y: seq<Scenario>, tail: seq<Scenario>)
    requires |x| == |y|
    ensures y + tail == x + tail <==> y == x
  {
    if y + tail == x + tail {
      assert (y + tail)[..|x|] == y && (x + tail)[..|x|] == x;
    }
  }

  // ------------------------------------------------------------------ Background, and the whole file

  lemma BackgroundAgain(env: Env, later: Env, target: Feature, legacy: Option<Feature>, second: Feature)
    requires later == env.(entries := later.entries)
    requires var bg := MergedBackground(env, target, legacy);
             (second.backgroundLines == [] <==> bg == [])
             && WithoutTrailingBlanks(second.backgroundLines) == WithoutTrailingBlanks(bg)
    ensures BackgroundSection(MergedBackground(later, target, Some(second)))
            == BackgroundSection(MergedBackground(env, target, legacy))
  {
    hide WithoutTrailingBlanks;
  }

  lemma MergedBackgroundOk(env: Env, target: Feature, legacy: Option<Feature>)
    requires FeatureOk(target) && LegacyOk(legacy)
    ensures BackgroundOk(MergedBackground(env, target, legacy))
  {
    hide BackgroundOk, ScenarioOk, Canonical, DescriptionOk, FeatureLineOk, AllTagSafe, BackgroundBucket;
  }

  lemma SameFile(stamp: seq<string>, target: Feature, bgA: seq<string>, bgB: seq<string>,
                 a: seq<Scenario>, b: seq<Scenario>)
    requires BackgroundSection(bgA) == BackgroundSection(bgB) && NormAll(a) == NormAll(b)
    ensures MergedFile(stamp, target, bgA, a) == MergedFile(stamp, target, bgB, b)
  {
    hide RStripAll, NormAll, RenderAll, BackgroundSection, FeatureHead, DropTrailingEmpty;
    NormSameText(a, b);
    var head := stamp + FeatureHead(target) + BackgroundSection(bgA);
    RStripAllAppend(head, RenderAll(a));
    RStripAllAppend(head, RenderAll(b));
  }

  lemma WrittenOk(later: Env, target: Feature, second: Feature)
    requires FeatureOk(target) && ScenariosOk(second.scenarios) && MergeScenarios(later, target, Some(second)).Ok?
    requires forall o | o in MergeScenarios(later, target, Some(second)).value.outcomes :: FreshOk(o)
    ensures ScenariosOk(Survivors(MergeScenarios(later, target, Some(second)).value.outcomes))
  {
    hide ScenarioOk, Pass1, Pass2, KeyOrder, IdSet, Survivors, Find, HandEdited, BackgroundOk, DescriptionOk, FeatureLineOk,
         AllTagSafe, FreshOk, TagId, LegacyOutcome;
    var scenarios := second.scenarios;
    var first := Pass1(later, scenarios, target.scenarios).value;
    var rest := Pass2(scenarios, IdSet(target.scenarios), KeyOrder(scenarios));
    var outcomes := first + rest;
    assert forall o | o in first :: o in outcomes;
    KeyOrderDistinct(scenarios);
    Pass2Facts(scenarios, IdSet(target.scenarios), KeyOrder(scenarios));
    Pass1Written(later, scenarios, target.scenarios);
    forall o: Outcome | o in outcomes && o.bucket != LegacyDelete ensures ScenarioOk(o.scenario) {
      if o in rest {
        RestOk(scenarios, IdSet(target.scenarios), o);
      }
    }
    SurvivorsOk(outcomes);
  }

  lemma RestOk(scenarios: seq<Scenario>, targetIds: set<string>, o: Outcome)
    requires ScenariosOk(scenarios) && LegacyOutcome(scenarios, targetIds, o)
    ensures ScenarioOk(o.scenario)
  {
    hide ScenarioOk, Find, HandEdited;
    FindIn(scenarios, o.id);
  }

  lemma {:induction false} Pass1Written(env: Env, legacy: seq<Scenario>, targets: seq<Scenario>)
    requires ScenariosOk(legacy) && ScenariosOk(targets) && Pass1(env, legacy, targets).Ok?
    requires forall o | o in Pass1(env, legacy, targets).value :: FreshOk(o)
    ensures forall o | o in Pass1(env, legacy, targets).value :: ScenarioOk(o.scenario)
  {
    hide ScenarioOk, Find, ScenarioId, FreshOk, TargetOutcome;
    if targets != [] {
      var all := Pass1(env, legacy, targets).value;
      assert forall i | 0 <= i < |targets| - 1 :: targets[1..][i] == targets[i + 1];
      if ScenarioId(targets[0]).None? {
        Pass1Written(env, legacy, targets[1..]);
      } else {
        var id := ScenarioId(targets[0]).value;
        var found := Find(legacy, id);
        var o := TargetOutcome(env, found, id, targets[0]).value;
        assert all == [o] + Pass1(env, legacy, targets[1..]).value;
        assert o in all;
        if found.Some? {
          FindIn(legacy, id);
        }
        OneWritten(env, found, id, targets[0]);
        Pass1Written(env, legacy, targets[1..]);
      }
    }
  }

  lemma OneWritten(env: Env, legacy: Option<Scenario>, id: string, t: Scenario)
    requires legacy.Some? ==> ScenarioOk(legacy.value)
    requires ScenarioOk(t) && TargetOutcome(env, legacy, id, t).Ok? && FreshOk(TargetOutcome(env, legacy, id, t).value)
    ensures ScenarioOk(TargetOutcome(env, legacy, id, t).value.scenario)
  {
    hide AllTagSafe, NameOk, StepsOk, CommentsOk, BlocksOk, TagsMatchIgnoringId, ExamplesMatch, HandEdited, WriteScenario;
  }

  lemma {:induction false} SurvivorsOk(outcomes: seq<Outcome>)
    requires forall o | o in outcomes && o.bucket != LegacyDelete :: ScenarioOk(o.scenario)
    ensures ScenariosOk(Survivors(outcomes))
  {
    hide ScenarioOk;
    if outcomes != [] {
      assert outcomes[0] in outcomes && forall o | o in outcomes[1..] :: o in outcomes;
      SurvivorsOk(outcomes[1..]);
    }
  }

  lemma OutcomesPrintable(outcomes: seq<Outcome>)
    requires forall o | o in outcomes :: OutcomeOk(o)
    ensures ScenariosOk(Survivors(outcomes))
  {
    hide ScenarioOk, TagId;
    SurvivorsOk(outcomes);
  }

  /** The second merge, in terms of the first: same file exactly when the scenarios have the same normal form. */
  lemma SecondFile(env: Env, later: Env, target: Feature, legacy: Option<Feature>, stamp: seq<string>)
    requires OutcomesReady(env, target, legacy) && StampOk(stamp)
    requires later == env.(entries := later.entries)
    requires forall t | t in target.scenarios :: OutputTags(t, later.entries) == OutputTags(t, env.entries)
    ensures var second := ParseFeature(MergeLines(env, target, legacy, stamp).value);
            && second.scenarios == NormAll(Survivors(MergeScenarios(env, target, legacy).value.outcomes))
            && ScenariosOk(second.scenarios)
            && BackgroundSection(MergedBackground(later, target, Some(second)))
               == BackgroundSection(MergedBackground(env, target, legacy))
  {
    hide ParseFeature, MergedFile, Survivors, NormAll, FeatureOk, LegacyOk, Pass1, Pass2, BackgroundSection,
         WithoutTrailingBlanks, BackgroundOk, MergedBackground, OutputTags, IdList, Distinct, FreshOk, ScenariosOk;
    var outcomes := MergeScenarios(env, target, legacy).value.outcomes;
    MergedHolds(env, target, legacy);
    MergedBackgroundOk(env, target, legacy);
    assert FeatureOk(target);
    var bg := MergedBackground(env, target, legacy);
    MergedFileReadsBack(stamp, target, bg, Survivors(outcomes));
    NormAllOk(Survivors(outcomes));
    BackgroundAgain(env, later, target, legacy, ParseFeature(MergedFile(stamp, target, bg, Survivors(outcomes))));
  }

  /** Merging the same TARGET against the parsed output reproduces that output, for collected and uncollected
      use cases and every mix of buckets, unless some TARGET scenario loses nothing but Examples. */
  lemma MergeIsFixpointUnlessRestored(env: Env, later: Env, target: Feature, legacy: Option<Feature>, stamp: seq<string>)
    requires MergeReady(env, target, legacy) && StampOk(stamp)
    requires later == env.(entries := later.entries)
    requires forall t | t in target.scenarios :: OutputTags(t, later.entries) == OutputTags(t, env.entries)
    requires !AnyRestorable(env, LegacyScenarios(legacy), target.scenarios)
    ensures var written := MergeLines(env, target, legacy, stamp);
            written.Ok? && forall newStamp :: MergeLines(later, target, Some(ParseFeature(written.value)), newStamp)
                                           == MergeLines(env, target, legacy, newStamp)
  {
    hide ParseFeature, MergedFile, Survivors, NormAll, OutcomesReady, MergeReady, BackgroundSection, MergedBackground, OutputTags,
         AnyRestored, AnyRestorable, StampOk, ScenariosOk, MergeScenarios;
    ReadyOutcomes(env, target, legacy);
    RestoredReady(env, target, legacy);
    SecondFile(env, later, target, legacy, stamp);
    var second := ParseFeature(MergeLines(env, target, legacy, stamp).value);
    ScenariosAgain(env, later, target, legacy, second);
    var a := Survivors(MergeScenarios(later, target, Some(second)).value.outcomes);
    var b := Survivors(MergeScenarios(env, target, legacy).value.outcomes);
    forall newStamp
      ensures MergeLines(later, target, Some(second), newStamp) == MergeLines(env, target, legacy, newStamp) {
      SameFile(newStamp, target, MergedBackground(later, target, Some(second)), MergedBackground(env, target, legacy), a, b);
    }
  }

  /** Exactly when a merge is a fixpoint: the second merge reproduces the first file if and only if no TARGET
      scenario that is rendered afresh, with steps and tags already in compiled form, loses Examples. */
  lemma MergeTwiceExactly(env: Env, later: Env, target: Feature, legacy: Option<Feature>, stamp: seq<string>)
    requires MergeReady(env, target, legacy) && StampOk(stamp)
    requires later == env.(entries := later.entries)
    requires forall t | t in target.scenarios :: OutputTags(t, later.entries) == OutputTags(t, env.entries)
    ensures var written := MergeLines(env, target, legacy, stamp);
            written.Ok?
            && (MergeLines(later, target, Some(ParseFeature(written.value)), stamp) == written
                <==> !AnyRestorable(env, LegacyScenarios(legacy), target.scenarios))
  {
    hide ParseFeature, MergedFile, Survivors, NormAll, OutcomesReady, MergeReady, BackgroundSection, MergedBackground, OutputTags,
         AnyRestored, AnyRestorable, StampOk, ScenariosOk, MergeScenarios, FeatureOk, BackgroundOk, FreshOk;
    ReadyOutcomes(env, target, legacy);
    RestoredReady(env, target, legacy);
    ReadyRuns(env, target, legacy);
    SecondFile(env, later, target, legacy, stamp);
    var written := MergeLines(env, target, legacy, stamp).value;
    var second := ParseFeature(written);
    ScenariosAgain(env, later, target, legacy, second);
    var b := Survivors(MergeScenarios(later, target, Some(second)).value.outcomes);
    var bg := MergedBackground(later, target, Some(second));
    if AnyRestored(env, LegacyScenarios(legacy), target.scenarios) {
      WrittenOk(later, target, second);
      BackgroundParsed(written);
      assert BackgroundOk(bg) by {
        SecondBackgroundOk(later, target, second);
      }
      MergedFileReadsBack(stamp, target, bg, b);
    } else {
      SameFile(stamp, target, bg, MergedBackground(env, target, legacy), b,
               Survivors(MergeScenarios(env, target, legacy).value.outcomes));
    }
  }

  lemma SecondBackgroundOk(env: Env, target: Feature, second: Feature)
    requires FeatureOk(target) && BackgroundOk(second.backgroundLines)
    ensures BackgroundOk(MergedBackground(env, target, Some(second)))
  {
    hide BackgroundOk, ScenariosOk, DescriptionOk, FeatureLineOk, AllTagSafe, BackgroundBucket;
  }

  /** For a merge that goes through, restoring is a matter of the input alone. */
  lemma RestoredReady(env: Env, target: Feature, legacy: Option<Feature>)
    requires OutcomesReady(env, target, legacy)
    ensures MergeScenarios(env, target, legacy).Ok?
    ensures AnyRestored(env, LegacyScenarios(legacy), target.scenarios)
       <==> AnyRestorable(env, LegacyScenarios(legacy), target.scenarios)
  {
    hide FeatureOk, LegacyOk, FreshOk, AnyRestored, AnyRestorable, Pass1, Pass2, KeyOrder, IdSet, Distinct, IdList;
    AnyRestoredExactly(env, LegacyScenarios(legacy), target.scenarios);
  }

  lemma ReadyRuns(env: Env, target: Feature, legacy: Option<Feature>)
    requires OutcomesReady(env, target, legacy)
    ensures FeatureOk(target) && LegacyOk(legacy) && MergeScenarios(env, target, legacy).Ok?
  {
    hide FeatureOk, LegacyOk, MergeScenarios, FreshOk;
  }
}
