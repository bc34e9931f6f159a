/** What every merge does: which buckets are possible, what a collected use case keeps, and how the
    bucket counts add up. */
module MergeFacts {
  import opened Text
  import opened Gherkin
  import opened FeatureRender
  import opened StepRewrite
  import opened UseCases
  import opened CompilePipeline
  import opened Merge

  // ------------------------------------------------------------------ accounting

  function IdBearing(targets: seq<Scenario>): nat {
    if targets == [] then 0 else (if ScenarioId(targets[0]).Some? then 1 else 0) + IdBearing(targets[1..])
  }

  /** The ids that only LEGACY has. */
  function LegacyOnlyIds(legacy: seq<Scenario>, targets: seq<Scenario>): set<string> {
    IdSet(legacy) - IdSet(targets)
  }

  function Total(m: Merged): nat {
    CountOf(m, NoOp) + CountOf(m, ExamplesOnly) + CountOf(m, NewAdd) + CountOf(m, NeedsSemanticMerge)
    + CountOf(m, TargetWins) + CountOf(m, ResolvedFromLockfile) + CountOf(m, LegacyPreserve) + CountOf(m, LegacyDelete)
  }

  function TotalIn(outcomes: seq<Outcome>): nat {
    CountIn(outcomes, NoOp) + CountIn(outcomes, ExamplesOnly) + CountIn(outcomes, NewAdd)
    + CountIn(outcomes, NeedsSemanticMerge) + CountIn(outcomes, TargetWins) + CountIn(outcomes, ResolvedFromLockfile)
    + CountIn(outcomes, LegacyPreserve) + CountIn(outcomes, LegacyDelete)
  }

  lemma {:induction false} EveryOutcomeCounted(outcomes: seq<Outcome>)
    ensures TotalIn(outcomes) == |outcomes|
    ensures |Survivors(outcomes)| + CountIn(outcomes, LegacyDelete) == |outcomes|
  {
    if outcomes != [] {
      EveryOutcomeCounted(outcomes[1..]);
      var b := outcomes[0].bucket;
      assert b == NoOp || b == ExamplesOnly || b == NewAdd || b == NeedsSemanticMerge || b == TargetWins
          || b == ResolvedFromLockfile || b == LegacyPreserve || b == LegacyDelete;
    }
  }

  predicate TargetSide(b: Bucket) {
    b != LegacyPreserve && b != LegacyDelete
  }

  lemma TargetSideBucket(env: Env, legacy: Option<Scenario>, id: string, t: Scenario)
    ensures TargetSide(FinalBucket(env, legacy, id, t))
  {
    hide HandEdited;
    ClassifyCases(legacy, t);
  }

  /** Pass 1 yields one outcome per id-bearing TARGET scenario, none of them on the LEGACY-only side. */
  lemma {:induction false} Pass1Counts(env: Env, legacy: seq<Scenario>, targets: seq<Scenario>)
    requires Pass1(env, legacy, targets).Ok?
    ensures var first := Pass1(env, legacy, targets).value;
            && |first| == IdBearing(targets)
            && CountIn(first, LegacyPreserve) == 0 && CountIn(first, LegacyDelete) == 0
            && KeptIds(first) == IdSet(targets)
            && |Survivors(first)| == |first|
  {
    hide FinalBucket, ScenarioId, Find, WriteScenario;
    if targets != [] {
      Pass1Counts(env, legacy, targets[1..]);
      if ScenarioId(targets[0]).Some? {
        var id := ScenarioId(targets[0]).value;
        TargetSideBucket(env, Find(legacy, id), id, targets[0]);
      }
    }
  }

  predicate Distinct(ids: seq<string>) {
    forall i, j | 0 <= i < j < |ids| :: ids[i] != ids[j]
  }

  lemma {:induction false} WithoutDistinct(ids: seq<string>, id: string)
    requires Distinct(ids)
    ensures Distinct(Without(ids, id))
  {
    if ids != [] {
      assert forall i | 0 <= i < |ids| - 1 :: ids[1..][i] == ids[i + 1];
      WithoutDistinct(ids[1..], id);
      WithoutMember(ids[1..], id, ids[0]);
      var rest := Without(ids[1..], id);
      if ids[0] != id {
        assert ids[0] !in ids[1..];
        forall i, j | 0 <= i < j < |[ids[0]] + rest| ensures ([ids[0]] + rest)[i] != ([ids[0]] + rest)[j] {
          if i == 0 {
            assert rest[j - 1] in rest;
          }
        }
      } else {
        assert [] + rest == rest;
      }
    }
  }

  lemma {:induction false} KeyOrderDistinct(scenarios: seq<Scenario>)
    ensures Distinct(KeyOrder(scenarios))
  {
    hide ScenarioId;
    if scenarios != [] {
      KeyOrderDistinct(scenarios[1..]);
      if ScenarioId(scenarios[0]).Some? {
        var id := ScenarioId(scenarios[0]).value;
        var rest := Without(KeyOrder(scenarios[1..]), id);
        WithoutDistinct(KeyOrder(scenarios[1..]), id);
        WithoutMember(KeyOrder(scenarios[1..]), id, id);
        forall i, j | 0 <= i < j < |[id] + rest| ensures ([id] + rest)[i] != ([id] + rest)[j] {
          if i == 0 {
            assert rest[j - 1] in rest;
          }
        }
      }
    }
  }

  /** Pass 2 only preserves or deletes. */
  lemma {:induction false} Pass2Buckets(legacy: seq<Scenario>, targetIds: set<string>, order: seq<string>)
    ensures var rest := Pass2(legacy, targetIds, order);
            && CountIn(rest, LegacyPreserve) + CountIn(rest, LegacyDelete) == |rest|
            && |Survivors(rest)| == CountIn(rest, LegacyPreserve)
  {
    hide HandEdited, Find;
    if order != [] {
      Pass2Buckets(legacy, targetIds, order[1..]);
    }
  }

  function Elements(ids: seq<string>): (r: set<string>)
    ensures forall id :: id in r <==> id in ids
  {
    if ids == [] then {} else {ids[0]} + Elements(ids[1..])
  }

  lemma DistinctTail(ids: seq<string>)
    requires Distinct(ids) && ids != []
    ensures Distinct(ids[1..]) && ids[0] !in ids[1..]
  {
    assert forall i | 0 <= i < |ids| - 1 :: ids[1..][i] == ids[i + 1];
  }

  lemma OneMore(x: string, ids: set<string>, targetIds: set<string>)
    requires x !in ids
    ensures |({x} + ids) - targetIds| == |ids - targetIds| + (if x in targetIds then 0 else 1)
  {
    if x in targetIds {
      assert ({x} + ids) - targetIds == ids - targetIds;
    } else {
      assert ({x} + ids) - targetIds == {x} + (ids - targetIds);
    }
  }

  /** Pass 2 yields one outcome per LEGACY-only id. */
  lemma {:induction false} Pass2Length(legacy: seq<Scenario>, targetIds: set<string>, order: seq<string>)
    requires Distinct(order) && forall id | id in order :: Find(legacy, id).Some?
    ensures |Pass2(legacy, targetIds, order)| == |Elements(order) - targetIds|
  {
    hide Classify, Find, Distinct;
    if order != [] {
      DistinctTail(order);
      Pass2Length(legacy, targetIds, order[1..]);
      OneMore(order[0], Elements(order[1..]), targetIds);
    }
  }

  /** The buckets add up, through every re-bucketing branch: one unit per id-bearing TARGET scenario, per
      LEGACY-only id, and for a changed Background; and what is written is every id-bearing TARGET scenario
      plus the preserved ones. */
  lemma BucketsConserved(env: Env, target: Feature, legacy: Option<Feature>)
    requires MergeScenarios(env, target, legacy).Ok?
    ensures var m := MergeScenarios(env, target, legacy).value;
            var scenarios := LegacyScenarios(legacy);
            && Total(m) == IdBearing(target.scenarios) + |LegacyOnlyIds(scenarios, target.scenarios)|
                           + (if m.background.Some? then 1 else 0)
            && |Survivors(m.outcomes)| == IdBearing(target.scenarios) + CountOf(m, LegacyPreserve)
            && CountOf(m, LegacyPreserve) + CountOf(m, LegacyDelete) == |LegacyOnlyIds(scenarios, target.scenarios)|
  {
    hide Pass1, Pass2, KeyOrder, IdSet, Survivors, CountIn, Find, BackgroundBucket, Elements;
    var m := MergeScenarios(env, target, legacy).value;
    var scenarios := LegacyScenarios(legacy);
    var first := Pass1(env, scenarios, target.scenarios).value;
    var order := KeyOrder(scenarios);
    var rest := Pass2(scenarios, IdSet(target.scenarios), order);
    Pass1Counts(env, scenarios, target.scenarios);
    KeyOrderDistinct(scenarios);
    forall id | id in order ensures Find(scenarios, id).Some? {
      KeyOrderMember(scenarios, id);
    }
    Pass2Length(scenarios, IdSet(target.scenarios), order);
    Pass2Buckets(scenarios, IdSet(target.scenarios), order);
    assert Elements(order) == IdSet(scenarios) by {
      forall id ensures id in order <==> id in IdSet(scenarios) {
        KeyOrderMember(scenarios, id);
      }
    }
    EveryOutcomeCounted(m.outcomes);
    SurvivorsAppend(first, rest);
    CountInAppend(first, rest, LegacyPreserve);
    CountInAppend(first, rest, LegacyDelete);
    BackgroundSide(env, target, legacy);
  }

  lemma BackgroundSide(env: Env, target: Feature, legacy: Option<Feature>)
    ensures var b := BackgroundBucket(env, target, legacy); b.Some? ==> TargetSide(b.value)
  {
  }

  // ------------------------------------------------------------------ a collected use case is never overwritten

  /** TARGET-WINS needs both a real difference and the absence of a binding. */
  lemma TargetWinsExactly(env: Env, legacy: Option<Scenario>, id: string, t: Scenario)
    ensures FinalBucket(env, legacy, id, t) == TargetWins
       <==> (legacy.Some? && NoBinding(env, id)
             && !(legacy.value.steps == t.steps && TagsMatchIgnoringId(legacy.value.tags, t.tags)))
  {
    hide TagsMatchIgnoringId, ExamplesMatch;
  }

  /** The join key of a compiled scenario: its first tag that starts with `@T-`, without the `@`. */
  lemma {:induction false} TagIdExactly(front: seq<string>, rest: string, back: seq<string>)
    requires forall i | 0 <= i < |front| :: !("@T-" <= front[i])
    ensures TagId(front) == None && TagId(front + ["@T-" + rest] + back) == Some("T-" + rest)
  {
    var tags := front + ["@T-" + rest] + back;
    if front == [] {
      assert "@T-" <= tags[0] && tags[0][1..] == "T-" + rest;
    } else {
      assert tags[1..] == front[1..] + ["@T-" + rest] + back;
      assert forall i | 0 <= i < |front| - 1 :: front[1..][i] == front[i + 1];
      TagIdExactly(front[1..], rest, back);
    }
  }

  /** The manifest's item for a Background that a collected use case cannot take over: LEGACY's lines, then
      TARGET's. */
  lemma BackgroundItemExactly(env: Env, target: Feature, legacy: Feature)
    ensures BackgroundItem(env, target, Some(legacy))
            == if legacy.backgroundLines != target.backgroundLines && "__background__" !in env.locked
                  && env.uc in env.collected
               then [ManifestEntry("__background__", legacy.backgroundLines, target.backgroundLines)] else []
    ensures BackgroundItem(env, target, None) == []
  {
  }

  /** And for a scenario: both renderings, exactly when it is deferred. */
  lemma ManifestItemExactly(env: Env, legacy: Scenario, id: string, t: Scenario)
    ensures ManifestItem(env, Some(legacy), id, t)
            == if FinalBucket(env, Some(legacy), id, t) == NeedsSemanticMerge
               then [ManifestEntry(id, RenderScenario(legacy), RenderScenario(t))] else []
  {
    hide FinalBucket, RenderScenario;
  }

  /** The two sides have the same steps, and the same tags apart from the id. */
  ghost predicate SameButExamples(l: Scenario, t: Scenario) {
    l.steps == t.steps && forall tag: string | !("@T-" <= tag) :: tag in l.tags <==> tag in t.tags
  }

  /** The two sides have the same Examples, header by header and row by row, apart from white space around them. */
  ghost predicate SameExamples(l: Scenario, t: Scenario) {
    && |l.examples| == |t.examples|
    && forall i | 0 <= i < |l.examples| ::
         && Strip(l.examples[i].headerLine) == Strip(t.examples[i].headerLine)
         && |l.examples[i].rows| == |t.examples[i].rows|
         && forall k | 0 <= k < |l.examples[i].rows| :: Strip(l.examples[i].rows[k]) == Strip(t.examples[i].rows[k])
  }

  lemma TagsCompared(a: seq<string>, b: seq<string>)
    ensures TagsMatchIgnoringId(a, b) <==> forall tag: string | !("@T-" <= tag) :: tag in a <==> tag in b
  {
    var x := set t | t in a && !("@T-" <= t);
    var y := set t | t in b && !("@T-" <= t);
    if x == y {
      forall tag: string | !("@T-" <= tag) ensures tag in a <==> tag in b {
        assert tag in x <==> tag in y;
      }
    }
  }

  lemma ExamplesCompared(l: Scenario, t: Scenario)
    ensures ExamplesMatch(l.examples, t.examples) <==> SameExamples(l, t)
  {
    hide Strip;
    if |l.examples| == |t.examples| {
      forall i | 0 <= i < |l.examples|
        ensures BlockMatch(l.examples[i], t.examples[i])
           <==> (&& Strip(l.examples[i].headerLine) == Strip(t.examples[i].headerLine)
                 && |l.examples[i].rows| == |t.examples[i].rows|
                 && forall k | 0 <= k < |l.examples[i].rows| :: Strip(l.examples[i].rows[k]) == Strip(t.examples[i].rows[k])) {
        RowsCompared(l.examples[i].rows, t.examples[i].rows);
      }
    }
  }

  lemma RowsCompared(a: seq<string>, b: seq<string>)
    ensures StripAll(a) == StripAll(b) <==> |a| == |b| && forall k | 0 <= k < |a| :: Strip(a[k]) == Strip(b[k])
  {
    hide Strip;
    if StripAll(a) == StripAll(b) {
      assert |a| == |StripAll(a)| == |b|;
      forall k | 0 <= k < |a| ensures Strip(a[k]) == Strip(b[k]) {
        assert StripAll(a)[k] == StripAll(b)[k];
      }
    }
  }

  /** The bucket of an id-bearing TARGET scenario, as a table over what can be read off the two sides, the gate, the
      bound set and the lockfile. */
  lemma BucketExactly(env: Env, legacy: Option<Scenario>, id: string, t: Scenario)
    ensures legacy.None? ==> FinalBucket(env, legacy, id, t) == NewAdd
    ensures legacy.Some? && SameButExamples(legacy.value, t) ==>
              FinalBucket(env, legacy, id, t) == if SameExamples(legacy.value, t) then NoOp else ExamplesOnly
    ensures legacy.Some? && !SameButExamples(legacy.value, t) ==>
              FinalBucket(env, legacy, id, t)
              == if env.uc !in env.collected || (env.bound.Some? && id !in env.bound.value) then TargetWins
                 else if id in env.locked then ResolvedFromLockfile
                 else NeedsSemanticMerge
  {
    hide TagsMatchIgnoringId, ExamplesMatch;
    if legacy.Some? {
      TagsCompared(legacy.value.tags, t.tags);
      ExamplesCompared(legacy.value, t);
    }
  }

  /** What is written for it: LEGACY's scenario, with TARGET's Examples when only those differ, unless TARGET is
      rendered afresh. */
  lemma OutcomeExactly(env: Env, legacy: Option<Scenario>, id: string, t: Scenario)
    ensures var b := FinalBucket(env, legacy, id, t);
            var r := TargetOutcome(env, legacy, id, t);
            && (b == NewAdd || b == TargetWins ==>
                  r == (match WriteScenario(t, env.entries) case IndexError => IndexError case Ok(w) => Ok(Outcome(id, b, w))))
            && (b == ExamplesOnly ==> legacy.Some? && r == Ok(Outcome(id, b, legacy.value.(examples := t.examples))))
            && (b == NoOp || b == ResolvedFromLockfile || b == NeedsSemanticMerge ==>
                  legacy.Some? && r == Ok(Outcome(id, b, legacy.value)))
  {
    hide TagsMatchIgnoringId, ExamplesMatch, WriteScenario;
  }

  /** In a collected use case, a scenario that both sides have leaves the merge with LEGACY's steps, tags, name
      and comments; its Examples change only when steps and tags already agree, and then to TARGET's. */
  lemma CollectedKeepsLegacy(env: Env, l: Scenario, id: string, t: Scenario)
    requires env.uc in env.collected && env.bound.None?
    ensures TargetOutcome(env, Some(l), id, t).Ok?
    ensures var o := TargetOutcome(env, Some(l), id, t).value;
            && o.bucket != TargetWins && o.bucket != NewAdd
            && o.scenario.(examples := l.examples) == l
            && (o.scenario.examples != l.examples ==>
                  o.scenario.examples == t.examples && l.steps == t.steps && TagsMatchIgnoringId(l.tags, t.tags))
  {
    hide TagsMatchIgnoringId, ExamplesMatch, WriteScenario;
  }

  /** The whole merge of a collected use case: whenever a driver names a numbered feature file of it. */
  lemma {:induction false} CollectedNeverOverwritten(env: Env, named: set<string>, sibling: string,
                                                     legacy: seq<Scenario>, targets: seq<Scenario>, k: nat)
    requires sibling in named && UcNumber(sibling).Some? && UcNumber(env.filename) == UcNumber(sibling)
    requires env.collected == CollectedUcs(named) && env.uc == UcKey(env.filename) && env.bound.None?
    requires Pass1(env, legacy, targets).Ok? && k < |Pass1(env, legacy, targets).value|
    ensures var o := Pass1(env, legacy, targets).value[k];
            && o.bucket != TargetWins
            && (Find(legacy, o.id).Some? ==>
                  var l := Find(legacy, o.id).value;
                  o.scenario.(examples := l.examples) == l
                  && (o.scenario.examples != l.examples ==> o.bucket == ExamplesOnly))
    decreases |targets|
  {
    hide ScenarioId, Find, WriteScenario, UcNumber, CollectedUcs, Classify, UcKey;
    SiblingCollected(named, env.filename, sibling);
    if ScenarioId(targets[0]).None? {
      CollectedNeverOverwritten(env, named, sibling, legacy, targets[1..], k);
    } else if k > 0 {
      CollectedNeverOverwritten(env, named, sibling, legacy, targets[1..], k - 1);
    } else {
      var id := ScenarioId(targets[0]).value;
      ClassifyCases(Find(legacy, id), targets[0]);
      if Find(legacy, id).Some? {
        CollectedKeepsLegacy(env, Find(legacy, id).value, id, targets[0]);
      }
    }
  }

  /** TARGET's Background replaces a different one of LEGACY only in an uncollected use case that the lockfile
      does not answer for, and never by an empty one; a collected use case keeps its own. */
  lemma BackgroundReplacedExactly(env: Env, target: Feature, legacy: Feature)
    requires legacy.backgroundLines != [] && legacy.backgroundLines != target.backgroundLines
    ensures MergedBackground(env, target, Some(legacy)) == target.backgroundLines
       <==> (env.uc !in env.collected && BACKGROUND_ID !in env.locked && target.backgroundLines != [])
    ensures MergedBackground(env, target, Some(legacy)) != target.backgroundLines
        ==> MergedBackground(env, target, Some(legacy)) == legacy.backgroundLines
  {
  }

  /** The unnumbered case is the opposite: every scenario that differs is overwritten. */
  lemma UnnumberedOverwritten(env: Env, named: set<string>, l: Scenario, id: string, t: Scenario)
    requires "BR-UC-" <= env.filename && forall i | 0 <= i < |env.filename| :: !IsDigit(env.filename[i])
    requires env.collected == CollectedUcs(named) && env.uc == UcKey(env.filename)
    requires !(l.steps == t.steps && TagsMatchIgnoringId(l.tags, t.tags))
    ensures FinalBucket(env, Some(l), id, t) == TargetWins
  {
    hide TagsMatchIgnoringId, ExamplesMatch, UcKey, CollectedUcs;
    UnnumberedNeverCollected(named, env.filename);
  }
}
