/** Merging the same TARGET against the parsed output of a merge: exactly when it reproduces that output. */
module MergeFixpoint {
  import opened Text
  import opened Gherkin
  import opened FeatureRender
  import opened RoundTrip
  import opened StepRewrite
  import opened Traceability
  import opened CompilePipeline
  import opened Merge
  import opened MergeFacts
  import opened FileReadsBack
  import opened NormFacts

  // ------------------------------------------------------------------ scenarios with distinct join keys

  /** Each scenario carries its key as a `@T-` tag, and no contextgit. */
  ghost predicate Keyed(scenarios: seq<Scenario>, ids: seq<string>) {
    && |scenarios| == |ids|
    && forall k | 0 <= k < |ids| :: scenarios[k].contextgit.None? && TagId(scenarios[k].tags) == Some(ids[k])
  }

  lemma KeyedTail(scenarios: seq<Scenario>, ids: seq<string>)
    requires Keyed(scenarios, ids) && ids != []
    ensures Keyed(scenarios[1..], ids[1..]) && ScenarioId(scenarios[0]) == Some(ids[0])
  {
    hide TagId;
  }

  lemma {:induction false} KeyedMiss(scenarios: seq<Scenario>, ids: seq<string>, id: string)
    requires Keyed(scenarios, ids) && id !in ids
    ensures Find(scenarios, id).None?
  {
    hide Keyed, ScenarioId;
    if scenarios != [] {
      assert ids != [] by {
        KeyedLength(scenarios, ids);
      }
      KeyedTail(scenarios, ids);
      KeyedMiss(scenarios[1..], ids[1..], id);
    }
  }

  lemma KeyedLength(scenarios: seq<Scenario>, ids: seq<string>)
    requires Keyed(scenarios, ids)
    ensures |scenarios| == |ids|
  {
  }

  lemma {:induction false} KeyedFind(scenarios: seq<Scenario>, ids: seq<string>, k: nat)
    requires Keyed(scenarios, ids) && Distinct(ids) && k < |ids|
    ensures k < |scenarios| && Find(scenarios, ids[k]) == Some(scenarios[k])
  {
    hide Keyed, ScenarioId, Distinct;
    KeyedLength(scenarios, ids);
    KeyedTail(scenarios, ids);
    DistinctTail(ids);
    if k == 0 {
      KeyedMiss(scenarios[1..], ids[1..], ids[0]);
    } else {
      KeyedFind(scenarios[1..], ids[1..], k - 1);
      assert ids[1..][k - 1] == ids[k];
    }
  }

  lemma {:induction false} WithoutAbsent(ids: seq<string>, id: string)
    requires id !in ids
    ensures Without(ids, id) == ids
  {
    if ids != [] {
      WithoutAbsent(ids[1..], id);
    }
  }

  lemma {:induction false} KeyedOrder(scenarios: seq<Scenario>, ids: seq<string>)
    requires Keyed(scenarios, ids) && Distinct(ids)
    ensures KeyOrder(scenarios) == ids
  {
    hide Keyed, ScenarioId, Distinct;
    KeyedLength(scenarios, ids);
    if ids != [] {
      KeyedTail(scenarios, ids);
      DistinctTail(ids);
      KeyedOrder(scenarios[1..], ids[1..]);
      WithoutAbsent(ids[1..], ids[0]);
    }
  }

  // ------------------------------------------------------------------ the hypotheses

  /** The ids of the id-bearing scenarios, in order. */
  function IdList(targets: seq<Scenario>): seq<string> {
    if targets == [] then []
    else (if ScenarioId(targets[0]).Some? then [ScenarioId(targets[0]).value] else []) + IdList(targets[1..])
  }

  /** A LEGACY scenario is in the renderer's own form: printing and parsing it changes nothing. */
  ghost predicate Canonical(s: Scenario) {
    Norm(s) == s
  }

  ghost predicate LegacyOk(legacy: Option<Feature>) {
    legacy.Some? ==>
      && BackgroundOk(legacy.value.backgroundLines) && ScenariosOk(legacy.value.scenarios)
      && forall i | 0 <= i < |legacy.value.scenarios| :: Canonical(legacy.value.scenarios[i])
  }

  /** A freshly rendered TARGET scenario can be read back, under the id it was joined on. */
  ghost predicate FreshOk(o: Outcome) {
    Fresh(o.bucket) ==> ScenarioOk(o.scenario) && TagId(o.scenario.tags) == Some(o.id)
  }

  /** The classifier will call the scenario's own rewrite an EXAMPLES-ONLY change: the rewrite of `t` touched
      nothing but its Examples. */
  ghost predicate Restores(o: Outcome, t: Scenario) {
    Fresh(o.bucket) && Classify(Some(Norm(o.scenario)), Some(t)) == ExamplesOnly
  }

  ghost predicate RestoresIn(env: Env, legacy: seq<Scenario>, t: Scenario) {
    && ScenarioId(t).Some?
    && var id := ScenarioId(t).value;
    && TargetOutcome(env, Find(legacy, id), id, t).Ok?
    && Restores(TargetOutcome(env, Find(legacy, id), id, t).value, t)
  }

  ghost predicate AnyRestored(env: Env, legacy: seq<Scenario>, targets: seq<Scenario>) {
    exists i | 0 <= i < |targets| :: RestoresIn(env, legacy, targets[i])
  }

  // ------------------------------------------------------------------ one scenario, merged again

  /** The outcome of merging `t` against what the first merge wrote for it. */
  lemma OnceMore(env: Env, later: Env, legacy: Option<Scenario>, id: string, t: Scenario)
    requires later == env.(entries := later.entries) && OutputTags(t, later.entries) == OutputTags(t, env.entries)
    requires legacy.Some? ==> Canonical(legacy.value)
    requires TargetOutcome(env, legacy, id, t).Ok?
    ensures var o := TargetOutcome(env, legacy, id, t).value;
            && TargetOutcome(later, Some(Norm(o.scenario)), id, t).Ok?
            && var again := TargetOutcome(later, Some(Norm(o.scenario)), id, t).value;
            && again.id == id
            && (Norm(again.scenario) == Norm(o.scenario) <==> !Restores(o, t))
  {
    hide Norm, OutputTags, Rewrite, TagsMatchIgnoringId, ExamplesMatch, HandEdited, NormBlocks;
    var o := TargetOutcome(env, legacy, id, t).value;
    var n := Norm(o.scenario);
    NormTwice(o.scenario);
    NormParts(o.scenario);
    ExamplesMatchIsNorm(n.examples, t.examples);
    NormParts(n);
    NormParts(n.(examples := t.examples));
    if o.bucket == ExamplesOnly {
      NormParts(legacy.value);
      ExamplesMatchIsNorm(t.examples, t.examples);
      NormBlocksTwice(t.examples);
    }
  }

  /** A scenario that the second merge renders afresh was rendered afresh, identically, by the first. */
  lemma OnceMoreFresh(env: Env, later: Env, legacy: Option<Scenario>, id: string, t: Scenario)
    requires later == env.(entries := later.entries) && OutputTags(t, later.entries) == OutputTags(t, env.entries)
    requires legacy.Some? ==> Canonical(legacy.value)
    requires TargetOutcome(env, legacy, id, t).Ok? && FreshOk(TargetOutcome(env, legacy, id, t).value)
    requires TargetOutcome(later, Some(Norm(TargetOutcome(env, legacy, id, t).value.scenario)), id, t).Ok?
    ensures FreshOk(TargetOutcome(later, Some(Norm(TargetOutcome(env, legacy, id, t).value.scenario)), id, t).value)
  {
    hide Norm, OutputTags, Rewrite, TagsMatchIgnoringId, ExamplesMatch, HandEdited, NormBlocks, ScenarioOk, TagId;
    var o := TargetOutcome(env, legacy, id, t).value;
    NormParts(o.scenario);
    if legacy.Some? {
      NormParts(legacy.value);
    }
  }

  lemma NormParts(s: Scenario)
    ensures var n := Norm(s);
            && n.contextgit == None && n.tags == s.tags && n.keyword == s.keyword && n.name == RStrip(s.name)
            && n.steps == NormSteps(s.steps) && n.examples == NormBlocks(s.examples)
            && n.commentLines == IndentAll(STEP_PAD, s.commentLines)
  {
  }

  lemma NormBlocksTwice(blocks: seq<ExamplesBlock>)
    ensures NormBlocks(NormBlocks(blocks)) == NormBlocks(blocks)
  {
    hide NormBlocks, Strip, RStrip, IndentAll, NormSteps;
    var s := Scenario(None, [], "", "", [], blocks, []);
    NormParts(s);
    NormParts(Norm(s));
    NormTwice(s);
  }

  // ------------------------------------------------------------------ pass 1, again

  lemma {:induction false} FindIn(scenarios: seq<Scenario>, id: string)
    requires Find(scenarios, id).Some?
    ensures Find(scenarios, id).value in scenarios && ScenarioId(Find(scenarios, id).value) == Some(id)
  {
    hide ScenarioId;
    if Find(scenarios[1..], id).Some? {
      FindIn(scenarios[1..], id);
    }
  }

  lemma AnyRestoredCons(env: Env, legacy: seq<Scenario>, targets: seq<Scenario>)
    requires targets != []
    ensures AnyRestored(env, legacy, targets)
       <==> (RestoresIn(env, legacy, targets[0]) || AnyRestored(env, legacy, targets[1..]))
  {
    hide RestoresIn;
    if AnyRestored(env, legacy, targets[1..]) {
      var i :| 0 <= i < |targets[1..]| && RestoresIn(env, legacy, targets[1..][i]);
      assert RestoresIn(env, legacy, targets[i + 1]);
    }
    if AnyRestored(env, legacy, targets) && !RestoresIn(env, legacy, targets[0]) {
      var i :| 0 <= i < |targets| && RestoresIn(env, legacy, targets[i]);
      assert RestoresIn(env, legacy, targets[1..][i - 1]);
    }
  }

  ghost predicate AllCanonical(scenarios: seq<Scenario>) {
    forall s | s in scenarios :: Canonical(s)
  }

  /** `again` holds, for every outcome, what the file contains after it was written. */
  ghost predicate Holds(again: seq<Scenario>, outcomes: seq<Outcome>) {
    forall o | o in outcomes && o.bucket != LegacyDelete :: Find(again, o.id) == Some(Norm(o.scenario))
  }

  lemma NormAllCons(first: Scenario, rest: seq<Scenario>)
    ensures NormAll([first] + rest) == [Norm(first)] + NormAll(rest)
  {
    hide Norm, NormAll;
  }

  lemma {:induction false} Pass1Again(env: Env, later: Env, legacy: seq<Scenario>, again: seq<Scenario>,
                                      targets: seq<Scenario>)
    requires later == env.(entries := later.entries)
    requires forall t | t in targets :: OutputTags(t, later.entries) == OutputTags(t, env.entries)
    requires AllCanonical(legacy) && Pass1(env, legacy, targets).Ok?
    requires Holds(again, Pass1(env, legacy, targets).value)
    ensures Pass1(later, again, targets).Ok?
    ensures |Survivors(Pass1(later, again, targets).value)| == |Survivors(Pass1(env, legacy, targets).value)|
    ensures NormAll(Survivors(Pass1(later, again, targets).value)) == NormAll(Survivors(Pass1(env, legacy, targets).value))
       <==> !AnyRestored(env, legacy, targets)
    ensures (forall o | o in Pass1(env, legacy, targets).value :: FreshOk(o))
        ==> forall o | o in Pass1(later, again, targets).value :: FreshOk(o)
  {
    hide Norm, OutputTags, TargetOutcome, Find, ScenarioId, Canonical, NormAll, Restores, AnyRestored, FreshOk;
    if targets == [] {
      assert !AnyRestored(env, legacy, targets) by {
        NothingRestored(env, legacy);
      }
    } else {
      AnyRestoredCons(env, legacy, targets);
      var first := Pass1(env, legacy, targets).value;
      if ScenarioId(targets[0]).None? {
        Pass1Again(env, later, legacy, again, targets[1..]);
      } else {
        var id := ScenarioId(targets[0]).value;
        var found := Find(legacy, id);
        if found.Some? {
          FindIn(legacy, id);
        }
        var o := TargetOutcome(env, found, id, targets[0]).value;
        assert first == [o] + Pass1(env, legacy, targets[1..]).value;
        assert o in first;
        OutcomeId(env, found, id, targets[0]);
        OnceMore(env, later, found, id, targets[0]);
        var o2 := TargetOutcome(later, Some(Norm(o.scenario)), id, targets[0]).value;
        OutcomeId(later, Some(Norm(o.scenario)), id, targets[0]);
        if FreshOk(o) {
          OnceMoreFresh(env, later, found, id, targets[0]);
        }
        assert Holds(again, Pass1(env, legacy, targets[1..]).value);
        Pass1Again(env, later, legacy, again, targets[1..]);
        var x, y := Survivors(Pass1(env, legacy, targets[1..]).value), Survivors(Pass1(later, again, targets[1..]).value);
        NormAllCons(o.scenario, x);
        NormAllCons(o2.scenario, y);
        SameCons(Norm(o.scenario), NormAll(x), Norm(o2.scenario), NormAll(y));
        assert Survivors(Pass1(later, again, targets).value) == [o2.scenario] + y;
        assert Survivors(first) == [o.scenario] + x;
      }
    }
  }

  lemma SameCons(a: Scenario, x: seq<Scenario>, b: Scenario, y: seq<Scenario>)
    ensures [b] + y == [a] + x <==> (b == a && y == x)
  {
    if [b] + y == [a] + x {
      assert ([b] + y)[0] == ([a] + x)[0];
      assert ([b] + y)[1..] == y && ([a] + x)[1..] == x;
    }
  }

  lemma NothingRestored(env: Env, legacy: seq<Scenario>)
    ensures !AnyRestored(env, legacy, [])
  {
  }

  lemma OutcomeId(env: Env, legacy: Option<Scenario>, id: string, t: Scenario)
    requires TargetOutcome(env, legacy, id, t).Ok?
    ensures var o := TargetOutcome(env, legacy, id, t).value;
            o.id == id && o.bucket == FinalBucket(env, legacy, id, t) && TargetSide(o.bucket)
  {
    hide WriteScenario, FinalBucket;
    TargetSideBucket(env, legacy, id, t);
  }

  // ------------------------------------------------------------------ pass 2, again

  function SurvivorIds(outcomes: seq<Outcome>): seq<string> {
    if outcomes == [] then []
    else (if outcomes[0].bucket == LegacyDelete then [] else [outcomes[0].id]) + SurvivorIds(outcomes[1..])
  }

  lemma {:induction false} SurvivorIdsAppend(a: seq<Outcome>, b: seq<Outcome>)
    ensures SurvivorIds(a + b) == SurvivorIds(a) + SurvivorIds(b)
  {
    if a == [] {
      assert a + b == b;
    } else {
      assert (a + b)[1..] == a[1..] + b;
      SurvivorIdsAppend(a[1..], b);
    }
  }

  lemma {:induction false} Pass1Ids(env: Env, legacy: seq<Scenario>, targets: seq<Scenario>)
    requires Pass1(env, legacy, targets).Ok?
    ensures SurvivorIds(Pass1(env, legacy, targets).value) == IdList(targets)
  {
    hide TargetOutcome, Find, ScenarioId;
    if targets != [] {
      Pass1Ids(env, legacy, targets[1..]);
      if ScenarioId(targets[0]).Some? {
        var id := ScenarioId(targets[0]).value;
        OutcomeId(env, Find(legacy, id), id, targets[0]);
      }
    }
  }

  lemma {:induction false} IdListMembers(targets: seq<Scenario>, id: string)
    ensures id in IdList(targets) <==> id in IdSet(targets)
  {
    hide ScenarioId;
    if targets != [] {
      IdListMembers(targets[1..], id);
    }
  }

  /** A LEGACY-only outcome: the indexed scenario, preserved exactly when it carries the marker. */
  ghost predicate LegacyOutcome(legacy: seq<Scenario>, targetIds: set<string>, o: Outcome) {
    && o.id !in targetIds && Find(legacy, o.id) == Some(o.scenario)
    && o.bucket == (if HandEdited(o.scenario) then LegacyPreserve else LegacyDelete)
  }

  lemma {:induction false} Pass2Facts(legacy: seq<Scenario>, targetIds: set<string>, order: seq<string>)
    requires Distinct(order)
    ensures var rest := Pass2(legacy, targetIds, order);
            && (forall o | o in rest :: LegacyOutcome(legacy, targetIds, o))
            && (forall id | id in SurvivorIds(rest) :: id in order && id !in targetIds)
            && Distinct(SurvivorIds(rest))
  {
    hide Find, HandEdited, Distinct;
    if order == [] {
      EmptyDistinct();
    } else {
      DistinctTail(order);
      Pass2Facts(legacy, targetIds, order[1..]);
      var rest := Pass2(legacy, targetIds, order[1..]);
      DistinctFront(order[0], SurvivorIds(rest));
      assert [] + SurvivorIds(rest) == SurvivorIds(rest);
      var here := Pass2(legacy, targetIds, order);
      assert here == rest || here[1..] == rest;
    }
  }

  lemma EmptyDistinct()
    ensures Distinct([])
  {
  }

  lemma DistinctFront(x: string, ids: seq<string>)
    requires Distinct(ids)
    ensures x !in ids ==> Distinct([x] + ids)
  {
  }

  lemma DistinctAppend(a: seq<string>, b: seq<string>)
    requires Distinct(a) && Distinct(b) && forall x | x in a :: x !in b
    ensures Distinct(a + b)
  {
    forall i, j | 0 <= i < j < |a + b| ensures (a + b)[i] != (a + b)[j] {
      if i < |a| <= j {
        assert a[i] in a && b[j - |a|] in b;
      }
    }
  }

  lemma {:induction false} Pass2SkipsTargets(again: seq<Scenario>, targetIds: set<string>, ids: seq<string>, rest: seq<string>)
    requires forall id | id in ids :: id in targetIds
    ensures Pass2(again, targetIds, ids + rest) == Pass2(again, targetIds, rest)
  {
    hide Find, Classify;
    if ids == [] {
      assert ids + rest == rest;
    } else {
      assert (ids + rest)[1..] == ids[1..] + rest;
      Pass2SkipsTargets(again, targetIds, ids[1..], rest);
    }
  }

  lemma {:induction false} Pass2Again(legacy: seq<Scenario>, again: seq<Scenario>, targetIds: set<string>, rest: seq<Outcome>)
    requires forall o | o in rest :: LegacyOutcome(legacy, targetIds, o)
    requires Holds(again, rest)
    ensures Survivors(Pass2(again, targetIds, SurvivorIds(rest))) == NormAll(Survivors(rest))
  {
    hide Find, HandEdited, Norm, NormAll;
    if rest == [] {
      assert NormAll([]) == [];
    } else {
      assert forall o | o in rest[1..] :: o in rest;
      Pass2Again(legacy, again, targetIds, rest[1..]);
      var o := rest[0];
      assert o in rest && LegacyOutcome(legacy, targetIds, o);
      if o.bucket != LegacyDelete {
        HandEditedKept(o.scenario);
        NormAllCons(o.scenario, Survivors(rest[1..]));
        assert ([o.id] + SurvivorIds(rest[1..]))[1..] == SurvivorIds(rest[1..]);
      } else {
        assert [] + SurvivorIds(rest[1..]) == SurvivorIds(rest[1..]);
        assert [] + Survivors(rest[1..]) == Survivors(rest[1..]);
      }
    }
  }
}
