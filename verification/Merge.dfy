/** Merge mode: joining TARGET scenarios with the LEGACY ones of the compiled file, classifying each pair,
    and rendering the merged file. */
module Merge {
  import opened Text
  import opened Gherkin
  import opened FeatureParser
  import opened FeatureRender
  import opened StepRewrite
  import opened Traceability
  import opened CompilePipeline

  // ------------------------------------------------------------------ join key and hand-edit marker

  /** `_extract_id_from_tags`: the first tag that starts with `@T-`, without its `@`. */
  function TagId(tags: seq<string>): Option<string> {
    if tags == [] then None
    else if "@T-" <= tags[0] then Some(tags[0][1..])
    else TagId(tags[1..])
  }

  function ScenarioId(s: Scenario): Option<string> {
    if s.contextgit.Some? then Some(s.contextgit.value.id) else TagId(s.tags)
  }

  /** `@hand-edited\b` or `#\s*HAND-EDITED` at the start of `u`, ignoring case. */
  predicate MarkerAt(u: string) {
    && u != ""
    && if u[0] == '@' then "@hand-edited" <= Lower(u) && (|u| == 12 || !IsWord(u[12]))
       else u[0] == '#' && "hand-edited" <= Lower(LStrip(u[1..]))
  }

  predicate HasMarker(s: string) {
    s != "" && (MarkerAt(s) || HasMarker(s[1..]))
  }

  /** `_has_hand_edited_marker`. */
  predicate HandEdited(s: Scenario) {
    || (exists i | 0 <= i < |s.tags| :: HasMarker(s.tags[i]))
    || (exists i | 0 <= i < |s.commentLines| :: HasMarker(s.commentLines[i]))
  }

  // ------------------------------------------------------------------ classification

  datatype Bucket =
    | NoOp | ExamplesOnly | NewAdd | NeedsSemanticMerge | TargetWins | ResolvedFromLockfile
    | LegacyPreserve | LegacyDelete

  predicate TagsMatchIgnoringId(a: seq<string>, b: seq<string>) {
    (set t | t in a && !("@T-" <= t)) == (set t | t in b && !("@T-" <= t))
  }

  predicate BlockMatch(a: ExamplesBlock, b: ExamplesBlock) {
    Strip(a.headerLine) == Strip(b.headerLine) && StripAll(a.rows) == StripAll(b.rows)
  }

  predicate ExamplesMatch(a: seq<ExamplesBlock>, b: seq<ExamplesBlock>) {
    |a| == |b| && forall i | 0 <= i < |a| :: BlockMatch(a[i], b[i])
  }

  /** `classify_scenario_pair`; both sides missing is a caller bug. */
  function Classify(legacy: Option<Scenario>, target: Option<Scenario>): Bucket
    requires legacy.Some? || target.Some?
  {
    match (legacy, target)
    case (None, Some(_)) => NewAdd
    case (Some(l), None) => if HandEdited(l) then LegacyPreserve else LegacyDelete
    case (Some(l), Some(t)) =>
      if l.steps == t.steps && TagsMatchIgnoringId(l.tags, t.tags) then
        if ExamplesMatch(l.examples, t.examples) then NoOp else ExamplesOnly
      else NeedsSemanticMerge
  }

  // ------------------------------------------------------------------ one scenario

  const BACKGROUND_ID := "__background__"

  /** What a merge of one file depends on besides the two files. `locked` holds the ids that the lockfile
      answers for. */
  datatype Env = Env(uc: string, filename: string, collected: set<string>, bound: Option<set<string>>,
                     locked: set<string>, entries: seq<Entry>)

  predicate NoBinding(env: Env, id: string) {
    env.uc !in env.collected || (env.bound.Some? && id !in env.bound.value)
  }

  datatype Outcome = Outcome(id: string, bucket: Bucket, scenario: Scenario)

  predicate Fresh(b: Bucket) {
    b == NewAdd || b == TargetWins
  }

  /** The bucket after the re-bucketing branches. */
  function FinalBucket(env: Env, legacy: Option<Scenario>, id: string, t: Scenario): Bucket {
    var b := Classify(legacy, Some(t));
    if b != NeedsSemanticMerge then b
    else if NoBinding(env, id) then TargetWins
    else if id in env.locked then ResolvedFromLockfile
    else NeedsSemanticMerge
  }

  function TargetOutcome(env: Env, legacy: Option<Scenario>, id: string, t: Scenario): Result<Outcome> {
    var b := FinalBucket(env, legacy, id, t);
    if Fresh(b) then
      match WriteScenario(t, env.entries)
      case IndexError => IndexError
      case Ok(w) => Ok(Outcome(id, b, w))
    else
      Ok(Outcome(id, b, if b == ExamplesOnly then legacy.value.(examples := t.examples) else legacy.value))
  }

  // ------------------------------------------------------------------ the index by id

  /** `by_id.get(id)`: the last scenario with the id. */
  function Find(scenarios: seq<Scenario>, id: string): Option<Scenario> {
    if scenarios == [] then None
    else if Find(scenarios[1..], id).Some? then Find(scenarios[1..], id)
    else if ScenarioId(scenarios[0]) == Some(id) then Some(scenarios[0])
    else None
  }

  function Without(ids: seq<string>, id: string): seq<string> {
    if ids == [] then []
    else (if ids[0] == id then [] else [ids[0]]) + Without(ids[1..], id)
  }

  /** The keys of the index in insertion order: ids by first occurrence. */
  function KeyOrder(scenarios: seq<Scenario>): seq<string> {
    if scenarios == [] then []
    else match ScenarioId(scenarios[0])
      case None => KeyOrder(scenarios[1..])
      case Some(id) => [id] + Without(KeyOrder(scenarios[1..]), id)
  }

  function IdSet(scenarios: seq<Scenario>): set<string> {
    if scenarios == [] then {}
    else (if ScenarioId(scenarios[0]).Some? then {ScenarioId(scenarios[0]).value} else {}) + IdSet(scenarios[1..])
  }

  // ------------------------------------------------------------------ both passes

  /** Pass 1: the id-bearing TARGET scenarios, in order. */
  function Pass1(env: Env, legacy: seq<Scenario>, targets: seq<Scenario>): Result<seq<Outcome>> {
    if targets == [] then Ok([])
    else match ScenarioId(targets[0])
      case None => Pass1(env, legacy, targets[1..])
      case Some(id) =>
        match TargetOutcome(env, Find(legacy, id), id, targets[0])
        case IndexError => IndexError
        case Ok(o) =>
          match Pass1(env, legacy, targets[1..])
          case IndexError => IndexError
          case Ok(rest) => Ok([o] + rest)
  }

  /** Pass 2: the LEGACY-only ids, in the order of the index. */
  function Pass2(legacy: seq<Scenario>, targetIds: set<string>, order: seq<string>): seq<Outcome> {
    if order == [] then []
    else
      var rest := Pass2(legacy, targetIds, order[1..]);
      var found := Find(legacy, order[0]);
      if order[0] in targetIds || found.None? then rest
      else [Outcome(order[0], Classify(found, None), found.value)] + rest
  }

  /** The scenarios that end up in the file: a LEGACY-DELETE is omitted. */
  function Survivors(outcomes: seq<Outcome>): seq<Scenario> {
    if outcomes == [] then []
    else (if outcomes[0].bucket == LegacyDelete then [] else [outcomes[0].scenario]) + Survivors(outcomes[1..])
  }

  datatype Merged = Merged(background: Option<Bucket>, outcomes: seq<Outcome>)

  function LegacyScenarios(legacy: Option<Feature>): seq<Scenario> {
    if legacy.Some? then legacy.value.scenarios else []
  }

  /** Whether Background is a merge unit of its own, and how it is resolved. */
  function BackgroundBucket(env: Env, target: Feature, legacy: Option<Feature>): Option<Bucket> {
    if legacy.None? || legacy.value.backgroundLines == target.backgroundLines then None
    else if BACKGROUND_ID in env.locked then Some(ResolvedFromLockfile)
    else if env.uc !in env.collected then Some(TargetWins)
    else Some(NeedsSemanticMerge)
  }

  function MergeScenarios(env: Env, target: Feature, legacy: Option<Feature>): Result<Merged> {
    var scenarios := LegacyScenarios(legacy);
    match Pass1(env, scenarios, target.scenarios)
    case IndexError => IndexError
    case Ok(first) =>
      Ok(Merged(BackgroundBucket(env, target, legacy),
                first + Pass2(scenarios, IdSet(target.scenarios), KeyOrder(scenarios))))
  }

  // ------------------------------------------------------------------ rendering

  function MergedBackground(env: Env, target: Feature, legacy: Option<Feature>): seq<string> {
    if BackgroundBucket(env, target, legacy) == Some(TargetWins) && target.backgroundLines != [] then target.backgroundLines
    else if legacy.Some? && legacy.value.backgroundLines != [] then legacy.value.backgroundLines
    else target.backgroundLines
  }

  function BackgroundSection(background: seq<string>): seq<string> {
    if background == [] then [] else WithoutTrailingBlanks(background) + [""]
  }

  function MergedFile(stamp: seq<string>, target: Feature, background: seq<string>, scenarios: seq<Scenario>): seq<string> {
    WithoutTrailingBlanks(stamp + FeatureHead(target) + BackgroundSection(background) + RenderAll(scenarios))
  }

  /** The lines that `merge_feature` writes. */
  function MergeLines(env: Env, target: Feature, legacy: Option<Feature>, stamp: seq<string>): Result<seq<string>> {
    match MergeScenarios(env, target, legacy)
    case IndexError => IndexError
    case Ok(m) => Ok(MergedFile(stamp, target, MergedBackground(env, target, legacy), Survivors(m.outcomes)))
  }

  // ------------------------------------------------------------------ accounting

  function CountIn(outcomes: seq<Outcome>, b: Bucket): nat {
    if outcomes == [] then 0 else (if outcomes[0].bucket == b then 1 else 0) + CountIn(outcomes[1..], b)
  }

  function CountOf(m: Merged, b: Bucket): nat {
    CountIn(m.outcomes, b) + (if m.background == Some(b) then 1 else 0)
  }

  lemma {:induction false} CountInAppend(a: seq<Outcome>, c: seq<Outcome>, b: Bucket)
    ensures CountIn(a + c, b) == CountIn(a, b) + CountIn(c, b)
  {
    if a == [] {
      assert a + c == c;
    } else {
      assert (a + c)[1..] == a[1..] + c;
      CountInAppend(a[1..], c, b);
    }
  }

  lemma {:induction false} SurvivorsAppend(a: seq<Outcome>, c: seq<Outcome>)
    ensures Survivors(a + c) == Survivors(a) + Survivors(c)
  {
    if a == [] {
      assert a + c == c;
    } else {
      assert (a + c)[1..] == a[1..] + c;
      SurvivorsAppend(a[1..], c);
    }
  }

  // ------------------------------------------------------------------ the script's state

  /** An item for the semantic merge: the id and the two renderings. */
  datatype ManifestEntry = ManifestEntry(id: string, legacyGherkin: seq<string>, targetGherkin: seq<string>)

  /** What pass 1 hands to the semantic merge for one scenario. */
  function ManifestItem(env: Env, legacy: Option<Scenario>, id: string, t: Scenario): seq<ManifestEntry> {
    if FinalBucket(env, legacy, id, t) == NeedsSemanticMerge && legacy.Some? then
      [ManifestEntry(id, RenderScenario(legacy.value), RenderScenario(t))]
    else []
  }

  /** The mapping that pass 1 proposes for one scenario: only freshly rendered ones get one. */
  function ProposedItem(env: Env, legacy: Option<Scenario>, id: string, t: Scenario): seq<Entry> {
    var mapping := NewMapping(t, env.entries, env.filename);
    if Fresh(FinalBucket(env, legacy, id, t)) && mapping.Some? then [mapping.value] else []
  }

  function ManifestFor(env: Env, legacy: seq<Scenario>, targets: seq<Scenario>): seq<ManifestEntry> {
    if targets == [] then []
    else
      var t := targets[|targets| - 1];
      ManifestFor(env, legacy, targets[..|targets| - 1])
      + (match ScenarioId(t) case None => [] case Some(id) => ManifestItem(env, Find(legacy, id), id, t))
  }

  function MergeNews(env: Env, legacy: seq<Scenario>, targets: seq<Scenario>): seq<Entry> {
    if targets == [] then []
    else
      var t := targets[|targets| - 1];
      MergeNews(env, legacy, targets[..|targets| - 1])
      + (match ScenarioId(t) case None => [] case Some(id) => ProposedItem(env, Find(legacy, id), id, t))
  }

  function BackgroundItem(env: Env, target: Feature, legacy: Option<Feature>): seq<ManifestEntry> {
    if BackgroundBucket(env, target, legacy) == Some(NeedsSemanticMerge) && legacy.Some? then
      [ManifestEntry(BACKGROUND_ID, legacy.value.backgroundLines, target.backgroundLines)]
    else []
  }

  /** The mutable state of `merge_feature`. */
  class Merger {
    var counts: map<Bucket, int>
    var merged: seq<Scenario>
    var manifest: seq<ManifestEntry>
    var ids: set<string>
    var newMappings: seq<Entry>
    ghost var outcomes: seq<Outcome>
    ghost var background: Option<Bucket>

    constructor ()
      ensures Valid() && outcomes == [] && background == None && newMappings == [] && manifest == []
    {
      counts, merged, manifest, ids, newMappings := map[], [], [], {}, [];
      outcomes, background := [], None;
    }

    function Count(b: Bucket): int
      reads this`counts
    {
      if b in counts then counts[b] else 0
    }

    /** The state is what the outcomes so far add up to. */
    ghost predicate Valid()
      reads this
    {
      && (forall b :: Count(b) == CountOf(Merged(background, outcomes), b))
      && merged == Survivors(outcomes)
      && |manifest| == CountOf(Merged(background, outcomes), NeedsSemanticMerge)
      && ids == KeptIds(outcomes)
    }

    method Bump(b: Bucket, d: int)
      modifies this`counts
      ensures forall c :: Count(c) == old(Count(c)) + (if c == b then d else 0)
    {
      counts := counts[b := Count(b) + d];
    }

    /** The Background section of the script, before pass 1. */
    method MergeBackground(env: Env, target: Feature, legacy: Option<Feature>) returns (useTarget: bool)
      requires Valid() && background == None && outcomes == []
      modifies this
      ensures Valid() && outcomes == [] && background == BackgroundBucket(env, target, legacy)
      ensures useTarget <==> background == Some(TargetWins)
      ensures newMappings == old(newMappings)
      ensures manifest == old(manifest) + BackgroundItem(env, target, legacy)
    {
      useTarget := false;
      NoOutcomes();
      if legacy.Some? && legacy.value.backgroundLines != target.backgroundLines {
        if BACKGROUND_ID in env.locked {
          Bump(ResolvedFromLockfile, 1);
          background := Some(ResolvedFromLockfile);
        } else if env.uc !in env.collected {
          Bump(TargetWins, 1);
          useTarget := true;
          background := Some(TargetWins);
        } else {
          Bump(NeedsSemanticMerge, 1);
          manifest := manifest + [ManifestEntry(BACKGROUND_ID, legacy.value.backgroundLines, target.backgroundLines)];
          background := Some(NeedsSemanticMerge);
        }
      }
    }

    /** The render path that NEW-ADD and TARGET-WINS share. */
    method TakeTarget(env: Env, t: Scenario) returns (r: Result<Scenario>)
      modifies this`merged, this`newMappings
      ensures r == WriteScenario(t, env.entries)
      ensures r.Ok? ==> merged == old(merged) + [r.value]
      ensures var mapping := NewMapping(t, env.entries, env.filename);
              newMappings == old(newMappings) + (if mapping.Some? then [mapping.value] else [])
    {
      hide OutputTags, RewriteSteps, StripTransport, NewMapping;
      var tags := OutputTags(t, env.entries);
      var mapping := NewMapping(t, env.entries, env.filename);
      if mapping.Some? {
        newMappings := newMappings + [mapping.value];
      }
      var transformed, _ := ApplyStepTransforms(t, []);
      r := StripTransportLoop(transformed);
      if r.Ok? {
        r := Ok(r.value.(tags := tags));
        merged := merged + [r.value];
      }
    }

    /** Everything but the ghost record already counts `o` in. */
    ghost predicate Pending(o: Outcome)
      reads this
    {
      && (forall b :: Count(b) == CountOf(Merged(background, outcomes), b) + (if o.bucket == b then 1 else 0))
      && merged == Survivors(outcomes) + (if o.bucket == LegacyDelete then [] else [o.scenario])
      && |manifest| == CountOf(Merged(background, outcomes), NeedsSemanticMerge) + (if o.bucket == NeedsSemanticMerge then 1 else 0)
      && ids == KeptIds(outcomes) + (if o.bucket == LegacyDelete then {} else {o.id})
    }

    ghost method Record(o: Outcome)
      requires Pending(o)
      modifies this`outcomes
      ensures Valid() && outcomes == old(outcomes) + [o]
    {
      hide CountIn, Survivors, KeptIds;
      OutcomeSnoc(outcomes, o);
      outcomes := outcomes + [o];
    }

    /** The NEEDS-SEMANTIC-MERGE branch: demote to TARGET-WINS, resolve from the lockfile, or defer. */
    method MergeDiffering(env: Env, legacy: Scenario, id: string, t: Scenario) returns (r: Result<Scenario>)
      modifies this`counts, this`merged, this`manifest, this`newMappings
      ensures var b := if NoBinding(env, id) then TargetWins
                       else if id in env.locked then ResolvedFromLockfile else NeedsSemanticMerge;
              && (forall c :: Count(c) == old(Count(c)) + (if c == b then 1 else 0) - (if c == NeedsSemanticMerge then 1 else 0))
              && r == (if b == TargetWins then WriteScenario(t, env.entries) else Ok(legacy))
              && (r.Ok? ==> merged == old(merged) + [r.value])
              && manifest == old(manifest) + (if b == NeedsSemanticMerge
                                              then [ManifestEntry(id, RenderScenario(legacy), RenderScenario(t))] else [])
              && var mapping := NewMapping(t, env.entries, env.filename);
                 newMappings == old(newMappings) + (if b == TargetWins && mapping.Some? then [mapping.value] else [])
    {
      hide WriteScenario, NewMapping, RenderScenario;
      if NoBinding(env, id) {
        Bump(NeedsSemanticMerge, -1);
        Bump(TargetWins, 1);
        r := TakeTarget(env, t);
        return;
      }
      var legacyGherkin := RenderScenarioLines(legacy);
      var targetGherkin := RenderScenarioLines(t);
      if id in env.locked {
        Bump(NeedsSemanticMerge, -1);
        Bump(ResolvedFromLockfile, 1);
      } else {
        manifest := manifest + [ManifestEntry(id, legacyGherkin, targetGherkin)];
      }
      merged := merged + [legacy];
      r := Ok(legacy);
    }

    /** Pass 1 on one id-bearing TARGET scenario. */
    method MergeTarget(env: Env, legacy: Option<Scenario>, id: string, t: Scenario) returns (ok: bool)
      requires Valid()
      modifies this
      ensures background == old(background)
      ensures ok <==> TargetOutcome(env, legacy, id, t).Ok?
      ensures ok ==> Valid() && outcomes == old(outcomes) + [TargetOutcome(env, legacy, id, t).value]
      ensures newMappings == old(newMappings) + ProposedItem(env, legacy, id, t)
      ensures manifest == old(manifest) + ManifestItem(env, legacy, id, t)
    {
      hide WriteScenario, NewMapping, CountOf, Survivors, KeptIds, NoBinding, Classify, RenderScenario;
      ClassifyCases(legacy, t);
      ids := ids + {id};
      var bucket := Classify(legacy, Some(t));
      Bump(bucket, 1);
      if bucket == NoOp {
        merged := merged + [legacy.value];
      } else if bucket == ExamplesOnly {
        merged := merged + [legacy.value.(examples := t.examples)];
      } else if bucket == NewAdd {
        var r := TakeTarget(env, t);
        if r.IndexError? {
          return false;
        }
      } else {
        var r := MergeDiffering(env, legacy.value, id, t);
        if r.IndexError? {
          return false;
        }
      }
      Record(TargetOutcome(env, legacy, id, t).value);
      ok := true;
    }

    /** Pass 2 on one LEGACY-only scenario. */
    method MergeLegacyOnly(id: string, l: Scenario)
      requires Valid()
      modifies this
      ensures Valid() && background == old(background) && newMappings == old(newMappings) && manifest == old(manifest)
      ensures outcomes == old(outcomes) + [Outcome(id, Classify(Some(l), None), l)]
    {
      hide HandEdited, CountOf, Survivors, KeptIds;
      var bucket := Classify(Some(l), None);
      Bump(bucket, 1);
      if bucket == LegacyPreserve {
        merged := merged + [l];
        ids := ids + {id};
      }
      Record(Outcome(id, bucket, l));
    }

    /** Pass 1: the TARGET scenarios, against the index of LEGACY. */
    method FirstPass(env: Env, targets: seq<Scenario>, byId: map<string, Scenario>, ghost scenarios: seq<Scenario>)
      returns (ok: bool, targetIds: set<string>)
      requires Valid() && outcomes == []
      requires forall id :: (if id in byId then Some(byId[id]) else None) == Find(scenarios, id)
      modifies this
      ensures background == old(background)
      ensures ok <==> Pass1(env, scenarios, targets).Ok?
      ensures ok ==> Valid() && targetIds == IdSet(targets) && outcomes == Pass1(env, scenarios, targets).value
      ensures ok ==> newMappings == old(newMappings) + MergeNews(env, scenarios, targets)
      ensures ok ==> manifest == old(manifest) + ManifestFor(env, scenarios, targets)
    {
      hide TargetOutcome, ScenarioId, Classify, Pass1, Find, IdSet, Valid, ProposedItem, ManifestItem, FinalBucket,
           MergeNews, ManifestFor;
      targetIds := {};
      EmptyPasses(env, scenarios);
      for k := 0 to |targets|
        invariant Valid() && background == old(background)
        invariant Pass1(env, scenarios, targets[..k]) == Ok(outcomes)
        invariant targetIds == IdSet(targets[..k])
        invariant newMappings == old(newMappings) + MergeNews(env, scenarios, targets[..k])
        invariant manifest == old(manifest) + ManifestFor(env, scenarios, targets[..k])
      {
        var t := targets[k];
        assert targets[..k + 1] == targets[..k] + [t];
        ItemsSnoc(env, scenarios, targets[..k], t);
        Pass1Snoc(env, scenarios, targets[..k], t);
        IdSetSnoc(targets[..k], t);
        var id := ScenarioId(t);
        if id.None? {
          assert outcomes + [] == outcomes;
          continue;
        }
        targetIds := targetIds + {id.value};
        var legacy := if id.value in byId then Some(byId[id.value]) else None;
        var merged := MergeTarget(env, legacy, id.value, t);
        if !merged {
          Pass1Raises(env, scenarios, targets, k);
          return false, targetIds;
        }
      }
      assert targets[..|targets|] == targets;
      ok := true;
    }

    /** Pass 2: what only LEGACY has. */
    method SecondPass(scenarios: seq<Scenario>, byId: map<string, Scenario>, order: seq<string>, targetIds: set<string>)
      requires Valid()
      requires forall id :: (if id in byId then Some(byId[id]) else None) == Find(scenarios, id)
      requires forall k | 0 <= k < |order| :: order[k] in byId
      modifies this
      ensures Valid() && background == old(background) && newMappings == old(newMappings) && manifest == old(manifest)
      ensures outcomes == old(outcomes) + Pass2(scenarios, targetIds, order)
    {
      hide Classify, Pass2, Find, Valid;
      EmptyPass2(scenarios, targetIds);
      for k := 0 to |order|
        invariant Valid() && background == old(background) && newMappings == old(newMappings) && manifest == old(manifest)
        invariant outcomes == old(outcomes) + Pass2(scenarios, targetIds, order[..k])
      {
        var id := order[k];
        assert order[..k + 1] == order[..k] + [id];
        Pass2Snoc(scenarios, targetIds, order[..k], id);
        if id in targetIds {
          continue;
        }
        MergeLegacyOnly(id, byId[id]);
      }
      assert order[..|order|] == order;
    }

    /** Both passes over indexed scenarios. */
    method MergePasses(env: Env, target: Feature, scenarios: seq<Scenario>) returns (ok: bool)
      requires Valid() && outcomes == []
      modifies this
      ensures background == old(background)
      ensures ok <==> Pass1(env, scenarios, target.scenarios).Ok?
      ensures ok ==> Valid() && outcomes == Pass1(env, scenarios, target.scenarios).value
                       + Pass2(scenarios, IdSet(target.scenarios), KeyOrder(scenarios))
      ensures ok ==> newMappings == old(newMappings) + MergeNews(env, scenarios, target.scenarios)
      ensures ok ==> manifest == old(manifest) + ManifestFor(env, scenarios, target.scenarios)
    {
      hide Pass1, Pass2, KeyOrder, Find, IdSet, Valid, MergeNews, ManifestFor;
      var byId, order := IndexById(scenarios);
      var targetIds;
      ok, targetIds := FirstPass(env, target.scenarios, byId, scenarios);
      if ok {
        SecondPass(scenarios, byId, order, targetIds);
      }
    }

    /** `merge_feature` on the lines of both files. */
    method MergeFeature(env: Env, targetLines: seq<string>, legacyLines: Option<seq<string>>, stamp: seq<string>)
      returns (r: Result<seq<string>>)
      requires Valid() && outcomes == [] && background == None
      modifies this
      ensures r == MergeLines(env, ParseFeature(targetLines), ParseOption(legacyLines), stamp)
      ensures r.Ok? ==> Valid() && MergeScenarios(env, ParseFeature(targetLines), ParseOption(legacyLines))
                                   == Ok(Merged(background, outcomes))
      ensures var target, legacy := ParseFeature(targetLines), ParseOption(legacyLines);
              r.Ok? ==> && newMappings == old(newMappings) + MergeNews(env, LegacyScenarios(legacy), target.scenarios)
                        && manifest == old(manifest) + BackgroundItem(env, target, legacy)
                                       + ManifestFor(env, LegacyScenarios(legacy), target.scenarios)
    {
      hide Pass1, Pass2, KeyOrder, IdSet, Survivors, MergeNews, ManifestFor, ParseFeature, FeatureHead, WithoutTrailingBlanks, RenderScenario,
           CountOf, KeptIds;
      var target := ParseFeatureFile(targetLines);
      var legacy: Option<Feature> := None;
      if legacyLines.Some? {
        var parsed := ParseFeatureFile(legacyLines.value);
        legacy := Some(parsed);
      }
      var useTarget := MergeBackground(env, target, legacy);
      var ok := MergePasses(env, target, if legacy.Some? then legacy.value.scenarios else []);
      if !ok {
        return IndexError;
      }
      var background := target.backgroundLines;
      if useTarget && target.backgroundLines != [] {
        background := target.backgroundLines;
      } else if legacy.Some? && legacy.value.backgroundLines != [] {
        background := legacy.value.backgroundLines;
      }
      var text := RenderMerged(stamp, target, background, merged);
      r := Ok(text);
    }
  }

  /** The tail of `merge_feature`: header from TARGET, the chosen Background, the merged scenarios. */
  method RenderMerged(stamp: seq<string>, target: Feature, background: seq<string>, scenarios: seq<Scenario>)
    returns (text: seq<string>)
    ensures text == MergedFile(stamp, target, background, scenarios)
  {
    hide FeatureHead, WithoutTrailingBlanks, RenderScenario;
    var lines := stamp + FeatureHead(target);
    if background != [] {
      var trimmed := TrimTrailingBlanks(background);
      lines := lines + (trimmed + [""]);
    }
    ghost var head := lines;
    for k := 0 to |scenarios|
      invariant lines == head + RenderAll(scenarios[..k])
    {
      var rendered := RenderScenarioLines(scenarios[k]);
      assert scenarios[..k + 1] == scenarios[..k] + [scenarios[k]];
      RenderAllSnoc(scenarios[..k], scenarios[k]);
      lines := lines + (rendered + [""]);
    }
    assert scenarios[..|scenarios|] == scenarios;
    assert lines == stamp + FeatureHead(target) + BackgroundSection(background) + RenderAll(scenarios);
    text := TrimTrailingBlanks(lines);
  }

  function ParseOption(lines: Option<seq<string>>): Option<Feature> {
    match lines case None => None case Some(l) => Some(ParseFeature(l))
  }

  // ------------------------------------------------------------------ the index, built left to right

  lemma {:induction false} FindSnoc(scenarios: seq<Scenario>, s: Scenario, id: string)
    ensures Find(scenarios + [s], id) == if ScenarioId(s) == Some(id) then Some(s) else Find(scenarios, id)
  {
    hide ScenarioId;
    if scenarios == [] {
      assert scenarios + [s] == [s];
      assert [s][1..] == [];
    } else {
      var longer := scenarios + [s];
      assert longer[1..] == scenarios[1..] + [s] && longer[0] == scenarios[0];
      FindSnoc(scenarios[1..], s, id);
    }
  }

  lemma {:induction false} WithoutSnoc(ids: seq<string>, last: string, id: string)
    ensures Without(ids + [last], id) == Without(ids, id) + (if last == id then [] else [last])
  {
    if ids == [] {
      assert ids + [last] == [last];
      assert [last][1..] == [];
    } else {
      var longer := ids + [last];
      assert longer[1..] == ids[1..] + [last] && longer[0] == ids[0];
      WithoutSnoc(ids[1..], last, id);
      var first := if ids[0] == id then [] else [ids[0]];
      var end := if last == id then [] else [last];
      assert first + (Without(ids[1..], id) + end) == (first + Without(ids[1..], id)) + end;
    }
  }

  lemma {:induction false} WithoutMember(ids: seq<string>, id: string, x: string)
    ensures x in Without(ids, id) <==> (x in ids && x != id)
  {
    if ids != [] {
      WithoutMember(ids[1..], id, x);
    }
  }

  lemma {:induction false} KeyOrderMember(scenarios: seq<Scenario>, id: string)
    ensures id in KeyOrder(scenarios) <==> Find(scenarios, id).Some?
    ensures id in IdSet(scenarios) <==> Find(scenarios, id).Some?
  {
    hide ScenarioId;
    if scenarios != [] {
      KeyOrderMember(scenarios[1..], id);
      if ScenarioId(scenarios[0]).Some? {
        WithoutMember(KeyOrder(scenarios[1..]), ScenarioId(scenarios[0]).value, id);
      }
    }
  }

  /** The first scenario's id in front of the others. */
  function WithFirst(first: Option<string>, rest: seq<string>): seq<string> {
    match first case None => rest case Some(id) => [id] + Without(rest, id)
  }

  lemma KeyOrderCons(scenarios: seq<Scenario>)
    requires scenarios != []
    ensures KeyOrder(scenarios) == WithFirst(ScenarioId(scenarios[0]), KeyOrder(scenarios[1..]))
  {
    hide ScenarioId, Without;
  }

  /** An id that comes last, unless it is there already. */
  function WithLast(rest: seq<string>, last: Option<string>): seq<string> {
    if last.None? || last.value in rest then rest else rest + [last.value]
  }

  lemma FirstThenLast(first: Option<string>, rest: seq<string>, last: Option<string>)
    ensures WithFirst(first, WithLast(rest, last)) == WithLast(WithFirst(first, rest), last)
  {
    hide Without;
    if first.Some? && last.Some? {
      WithoutMember(rest, first.value, last.value);
      WithoutSnoc(rest, last.value, first.value);
      assert [first.value] + (Without(rest, first.value) + [last.value]) == [first.value] + Without(rest, first.value) + [last.value];
    }
  }

  lemma {:induction false} KeyOrderSnoc(scenarios: seq<Scenario>, s: Scenario)
    ensures KeyOrder(scenarios + [s]) == WithLast(KeyOrder(scenarios), ScenarioId(s))
  {
    hide ScenarioId, Without, KeyOrder, WithFirst, WithLast;
    if scenarios == [] {
      assert scenarios + [s] == [s];
      OneKey(s);
    } else {
      var longer := scenarios + [s];
      assert longer[1..] == scenarios[1..] + [s] && longer[0] == scenarios[0];
      KeyOrderSnoc(scenarios[1..], s);
      KeyOrderCons(longer);
      KeyOrderCons(scenarios);
      FirstThenLast(ScenarioId(scenarios[0]), KeyOrder(scenarios[1..]), ScenarioId(s));
    }
  }

  lemma OneKey(s: Scenario)
    ensures KeyOrder([s]) == WithLast(KeyOrder([]), ScenarioId(s))
  {
    hide ScenarioId;
    assert [s][1..] == [];
  }

  /** `by_id[sid] = scen` over a file: later scenarios replace earlier ones but keep their place. */
  method IndexById(scenarios: seq<Scenario>) returns (byId: map<string, Scenario>, order: seq<string>)
    ensures order == KeyOrder(scenarios)
    ensures forall id :: (if id in byId then Some(byId[id]) else None) == Find(scenarios, id)
    ensures forall k | 0 <= k < |order| :: order[k] in byId
  {
    hide ScenarioId, Find, KeyOrder;
    byId, order := map[], [];
    assert KeyOrder([]) == [] && forall id :: Find([], id).None? by {
      EmptyIndex();
    }
    for k := 0 to |scenarios|
      invariant order == KeyOrder(scenarios[..k])
      invariant forall id :: (if id in byId then Some(byId[id]) else None) == Find(scenarios[..k], id)
      invariant forall i | 0 <= i < |order| :: order[i] in byId
    {
      var s := scenarios[k];
      assert scenarios[..k + 1] == scenarios[..k] + [s];
      KeyOrderSnoc(scenarios[..k], s);
      var id := ScenarioId(s);
      if id.Some? {
        KeyOrderMember(scenarios[..k], id.value);
      }
      ghost var before := byId;
      if id.Some? {
        if id.value !in byId {
          order := order + [id.value];
        }
        byId := byId[id.value := s];
      }
      forall x ensures (if x in byId then Some(byId[x]) else None) == Find(scenarios[..k + 1], x) {
        FindSnoc(scenarios[..k], s, x);
        assert (if x in before then Some(before[x]) else None) == Find(scenarios[..k], x);
      }
    }
    assert scenarios[..|scenarios|] == scenarios;
  }

  lemma ItemsSnoc(env: Env, legacy: seq<Scenario>, targets: seq<Scenario>, t: Scenario)
    ensures MergeNews(env, legacy, targets + [t]) == MergeNews(env, legacy, targets)
            + (match ScenarioId(t) case None => [] case Some(id) => ProposedItem(env, Find(legacy, id), id, t))
    ensures ManifestFor(env, legacy, targets + [t]) == ManifestFor(env, legacy, targets)
            + (match ScenarioId(t) case None => [] case Some(id) => ManifestItem(env, Find(legacy, id), id, t))
  {
    hide ScenarioId, Find, ProposedItem, ManifestItem;
    assert (targets + [t])[..|targets|] == targets;
  }

  lemma EmptyIndex()
    ensures KeyOrder([]) == [] && forall id :: Find([], id).None?
  {
  }

  lemma EmptyPasses(env: Env, legacy: seq<Scenario>)
    ensures Pass1(env, legacy, []) == Ok([]) && IdSet([]) == {}
    ensures MergeNews(env, legacy, []) == [] && ManifestFor(env, legacy, []) == []
  {
  }

  lemma EmptyPass2(legacy: seq<Scenario>, targetIds: set<string>)
    ensures Pass2(legacy, targetIds, []) == []
  {
  }

  lemma {:induction false} IdSetSnoc(scenarios: seq<Scenario>, s: Scenario)
    ensures IdSet(scenarios + [s]) == IdSet(scenarios) + (if ScenarioId(s).Some? then {ScenarioId(s).value} else {})
  {
    hide ScenarioId;
    if scenarios == [] {
      assert scenarios + [s] == [s];
      assert [s][1..] == [];
    } else {
      var longer := scenarios + [s];
      assert longer[1..] == scenarios[1..] + [s] && longer[0] == scenarios[0];
      IdSetSnoc(scenarios[1..], s);
    }
  }

  /** What pass 1 does with one scenario. */
  function Pass1Item(env: Env, legacy: seq<Scenario>, t: Scenario): Result<seq<Outcome>> {
    match ScenarioId(t)
    case None => Ok([])
    case Some(id) =>
      match TargetOutcome(env, Find(legacy, id), id, t) case IndexError => IndexError case Ok(o) => Ok([o])
  }

  lemma {:induction false} Pass1Snoc(env: Env, legacy: seq<Scenario>, targets: seq<Scenario>, t: Scenario)
    requires Pass1(env, legacy, targets).Ok?
    ensures Pass1(env, legacy, targets + [t])
            == match Pass1Item(env, legacy, t)
               case IndexError => IndexError
               case Ok(o) => Ok(Pass1(env, legacy, targets).value + o)
  {
    hide TargetOutcome, ScenarioId, Find;
    if targets == [] {
      assert targets + [t] == [t];
      assert [t][1..] == [];
      if Pass1Item(env, legacy, t).Ok? {
        assert Pass1Item(env, legacy, t).value + [] == [] + Pass1Item(env, legacy, t).value;
      }
    } else {
      var longer := targets + [t];
      assert longer[1..] == targets[1..] + [t] && longer[0] == targets[0];
      Pass1Snoc(env, legacy, targets[1..], t);
      if Pass1Item(env, legacy, t).Ok? {
        var o := Pass1Item(env, legacy, t).value;
        var rest := Pass1(env, legacy, targets[1..]).value;
        var first := Pass1Item(env, legacy, targets[0]).value;
        assert first + (rest + o) == (first + rest) + o;
      }
    }
  }

  lemma {:induction false} Pass1Raises(env: Env, legacy: seq<Scenario>, targets: seq<Scenario>, k: nat)
    requires k < |targets| && Pass1Item(env, legacy, targets[k]).IndexError?
    ensures Pass1(env, legacy, targets).IndexError?
  {
    hide TargetOutcome, ScenarioId, Find;
    if k > 0 {
      Pass1Raises(env, legacy, targets[1..], k - 1);
    }
  }

  lemma {:induction false} Pass2Snoc(legacy: seq<Scenario>, targetIds: set<string>, order: seq<string>, id: string)
    ensures Pass2(legacy, targetIds, order + [id])
            == Pass2(legacy, targetIds, order)
               + (if id in targetIds || Find(legacy, id).None? then []
                  else [Outcome(id, Classify(Find(legacy, id), None), Find(legacy, id).value)])
  {
    hide Find, Classify;
    if order == [] {
      assert order + [id] == [id];
      assert [id][1..] == [];
    } else {
      var longer := order + [id];
      assert longer[1..] == order[1..] + [id] && longer[0] == order[0];
      Pass2Snoc(legacy, targetIds, order[1..], id);
    }
  }

  lemma ClassifyCases(legacy: Option<Scenario>, t: Scenario)
    ensures var b := Classify(legacy, Some(t));
            if legacy.None? then b == NewAdd else b == NoOp || b == ExamplesOnly || b == NeedsSemanticMerge
  {
  }

  lemma NoOutcomes()
    ensures forall b :: CountIn([], b) == 0
  {
  }

  /** The ids the merge reports: all but the deleted ones. */
  function KeptIds(outcomes: seq<Outcome>): set<string> {
    if outcomes == [] then {}
    else (if outcomes[0].bucket == LegacyDelete then {} else {outcomes[0].id}) + KeptIds(outcomes[1..])
  }

  lemma {:induction false} KeptIdsAppend(a: seq<Outcome>, c: seq<Outcome>)
    ensures KeptIds(a + c) == KeptIds(a) + KeptIds(c)
  {
    if a == [] {
      assert a + c == c;
    } else {
      assert (a + c)[1..] == a[1..] + c;
      KeptIdsAppend(a[1..], c);
    }
  }

  lemma OutcomeSnoc(outcomes: seq<Outcome>, o: Outcome)
    ensures forall b :: CountIn(outcomes + [o], b) == CountIn(outcomes, b) + (if o.bucket == b then 1 else 0)
    ensures Survivors(outcomes + [o]) == Survivors(outcomes) + (if o.bucket == LegacyDelete then [] else [o.scenario])
    ensures KeptIds(outcomes + [o]) == KeptIds(outcomes) + (if o.bucket == LegacyDelete then {} else {o.id})
  {
    forall b ensures CountIn(outcomes + [o], b) == CountIn(outcomes, b) + (if o.bucket == b then 1 else 0) {
      CountInAppend(outcomes, [o], b);
    }
    SurvivorsAppend(outcomes, [o]);
    KeptIdsAppend(outcomes, [o]);
    assert [o][1..] == [];
  }
}
