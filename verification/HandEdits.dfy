/** Hand-edited scenarios over whole runs: what no TARGET names, every sequence of merges keeps. */
module HandEdits {
  import opened Text
  import opened Gherkin
  import opened FeatureParser
  import opened RoundTrip
  import opened Merge
  import opened MergeFacts
  import opened FileReadsBack
  import opened NormFacts
  import opened MergeFixpoint
  import opened MergeTwice
  import opened WrittenTargets
  import opened MergeFiles

  // ------------------------------------------------------------------ the protected scenarios of a file

  /** The hand-edited scenarios with an id in `ids`, taken in the order given. */
  function Pick(scenarios: seq<Scenario>, ids: set<string>, order: seq<string>): seq<Scenario> {
    if order == [] then []
    else
      var found := Find(scenarios, order[0]);
      (if order[0] in ids && found.Some? && HandEdited(found.value) then [found.value] else [])
      + Pick(scenarios, ids, order[1..])
  }

  /** The hand-edited scenarios with an id in `ids`, in file order. */
  function Protected(scenarios: seq<Scenario>, ids: set<string>): seq<Scenario> {
    Pick(scenarios, ids, KeyOrder(scenarios))
  }

  lemma {:induction false} PickWithout(scenarios: seq<Scenario>, ids: set<string>, order: seq<string>, id: string)
    requires id !in ids
    ensures Pick(scenarios, ids, Without(order, id)) == Pick(scenarios, ids, order)
  {
    hide Find, HandEdited;
    if order != [] {
      PickWithout(scenarios, ids, order[1..], id);
      var rest := Without(order[1..], id);
      if order[0] == id {
        assert [] + rest == rest;
      } else {
        assert ([order[0]] + rest)[1..] == rest;
      }
    }
  }

  lemma {:induction false} PickAfter(first: Scenario, rest: seq<Scenario>, ids: set<string>, order: seq<string>)
    requires ScenarioId(first).Some? ==> ScenarioId(first).value !in ids
    ensures Pick([first] + rest, ids, order) == Pick(rest, ids, order)
  {
    hide HandEdited, ScenarioId;
    if order != [] {
      PickAfter(first, rest, ids, order[1..]);
      assert ([first] + rest)[1..] == rest;
    }
  }

  /** Scenarios under other ids in front change nothing. */
  lemma {:induction false} ProtectedBehind(front: seq<Scenario>, rest: seq<Scenario>, ids: set<string>)
    requires forall s | s in front :: ScenarioId(s).Some? ==> ScenarioId(s).value !in ids
    ensures Protected(front + rest, ids) == Protected(rest, ids)
  {
    hide ScenarioId, Pick, Find;
    if front == [] {
      assert front + rest == rest;
    } else {
      var tail := front[1..] + rest;
      assert front + rest == [front[0]] + tail && ([front[0]] + tail)[1..] == tail;
      assert front[0] in front && forall s | s in front[1..] :: s in front;
      ProtectedBehind(front[1..], rest, ids);
      PickAfter(front[0], tail, ids, KeyOrder(front + rest));
      if ScenarioId(front[0]).Some? {
        var id := ScenarioId(front[0]).value;
        var others := Without(KeyOrder(tail), id);
        PickSkips(tail, ids, id, others);
        PickWithout(tail, ids, KeyOrder(tail), id);
      }
    }
  }

  lemma PickSkips(scenarios: seq<Scenario>, ids: set<string>, id: string, order: seq<string>)
    requires id !in ids
    ensures Pick(scenarios, ids, [id] + order) == Pick(scenarios, ids, order)
  {
    hide Find, HandEdited;
    assert ([id] + order)[1..] == order;
  }

  // ------------------------------------------------------------------ one merge

  /** Pass 2 keeps every hand-edited scenario that TARGET does not name, in order. */
  lemma {:induction false} Pass2Protects(legacy: seq<Scenario>, again: seq<Scenario>, targetIds: set<string>, ids: set<string>,
                                         order: seq<string>)
    requires ids !! targetIds && Holds(again, Pass2(legacy, targetIds, order))
    ensures Pick(again, ids, SurvivorIds(Pass2(legacy, targetIds, order))) == NormAll(Pick(legacy, ids, order))
  {
    hide Find, HandEdited, Norm, NormAll;
    if order == [] {
      assert NormAll([]) == [];
    } else {
      var rest := Pass2(legacy, targetIds, order[1..]);
      var found := Find(legacy, order[0]);
      var all := Pass2(legacy, targetIds, order);
      assert forall o | o in rest :: o in all by {
        assert all == rest || all[1..] == rest;
      }
      Pass2Protects(legacy, again, targetIds, ids, order[1..]);
      var kept := Pick(legacy, ids, order[1..]);
      assert [] + kept == kept;
      if order[0] !in targetIds && found.Some? {
        var o := Outcome(order[0], Classify(found, None), found.value);
        assert all == [o] + rest && o in all && all[1..] == rest;
        if HandEdited(found.value) {
          HandEditedKept(found.value);
          NormAllCons(found.value, kept);
          assert ([order[0]] + SurvivorIds(rest))[1..] == SurvivorIds(rest);
        } else {
          assert [] + SurvivorIds(rest) == SurvivorIds(rest);
        }
      }
    }
  }

  lemma KeyedAwayFrom(scenarios: seq<Scenario>, keys: seq<string>, ids: set<string>)
    requires Keyed(scenarios, keys) && forall id | id in keys :: id !in ids
    ensures forall s | s in scenarios :: ScenarioId(s).Some? ==> ScenarioId(s).value !in ids
  {
    hide TagId;
    forall s | s in scenarios ensures ScenarioId(s).Some? ==> ScenarioId(s).value !in ids {
      var k :| 0 <= k < |scenarios| && scenarios[k] == s;
      assert keys[k] in keys;
    }
  }

  lemma KeyedCompiled(scenarios: seq<Scenario>, keys: seq<string>)
    requires Keyed(scenarios, keys) && ScenariosOk(scenarios)
    ensures CompiledOk(scenarios)
  {
    hide TagId, ScenarioOk;
  }

  /** The protected scenarios before and after one merge, on scenarios. */
  lemma OutcomesProtect(env: Env, target: Feature, legacy: seq<Scenario>, ids: set<string>)
    requires CompiledOk(legacy) && ScenariosOk(target.scenarios) && ids !! IdSet(target.scenarios)
    requires forall t | t in target.scenarios :: Readable(t, env.entries)
    requires Pass1(env, legacy, target.scenarios).Ok?
    ensures var outcomes := Pass1(env, legacy, target.scenarios).value
                            + Pass2(legacy, IdSet(target.scenarios), KeyOrder(legacy));
            && ScenariosOk(Survivors(outcomes)) && CompiledOk(NormAll(Survivors(outcomes)))
            && Protected(NormAll(Survivors(outcomes)), ids) == NormAll(Protected(legacy, ids))
  {
    hide ScenarioOk, NormAll, Norm, Pass1, Pass2, KeyOrder, IdSet, IdList, OutcomeOk, FreshOk, Holds, Distinct, Keyed,
         Survivors, SurvivorIds, HandEdited, Find, CompiledOk, Readable, Pick, LegacyOutcome, ScenarioId, ScenariosOk;
    var targetIds := IdSet(target.scenarios);
    var first := Pass1(env, legacy, target.scenarios).value;
    var order := KeyOrder(legacy);
    var rest := Pass2(legacy, targetIds, order);
    AllScenariosOk(target.scenarios);
    ReadableFresh(env, legacy, target.scenarios);
    Pass1Ok(env, legacy, target.scenarios);
    KeyOrderDistinct(legacy);
    Pass2Facts(legacy, targetIds, order);
    forall o | o in rest ensures OutcomeOk(o) {
      LegacyOutcomeOk(legacy, targetIds, o);
    }
    OutcomesPrintable(first + rest);
    OutcomesKeyed(first + rest);
    OutcomesKeyed(first);
    OutcomesKeyed(rest);
    SurvivorsAppend(first, rest);
    NormAllAppend(Survivors(first), Survivors(rest));
    NormAllOk(Survivors(first + rest));
    KeyedCompiled(NormAll(Survivors(first + rest)), SurvivorIds(first + rest));
    Pass1Ids(env, legacy, target.scenarios);
    forall id | id in SurvivorIds(first) ensures id !in ids {
      IdListMembers(target.scenarios, id);
    }
    var front, again := NormAll(Survivors(first)), NormAll(Survivors(rest));
    KeyedAwayFrom(front, SurvivorIds(first), ids);
    ProtectedBehind(front, again, ids);
    KeyedOrder(again, SurvivorIds(rest));
    assert SurvivorIds(rest)[0..] == SurvivorIds(rest) && [] + again == again;
    KeyedHolds(again, rest, SurvivorIds(rest), []);
    Pass2Protects(legacy, again, targetIds, ids, order);
  }

  lemma AllScenariosOk(scenarios: seq<Scenario>)
    requires ScenariosOk(scenarios)
    ensures forall s | s in scenarios :: ScenarioOk(s)
  {
    hide ScenarioOk;
  }

  /** A merge against TARGET lines whose scenarios can be read back and name none of `ids`. */
  datatype Input = Input(env: Env, target: seq<string>, stamp: seq<string>)

  ghost predicate InputOk(input: Input, ids: set<string>) {
    var target := ParseFeature(input.target);
    && StampOk(input.stamp) && target.featureLine != ""
    && ids !! IdSet(target.scenarios)
    && forall t | t in target.scenarios :: Readable(t, input.env.entries)
  }

  /** The file after one merge; a merge that raises leaves it alone. */
  function FileAfter(lines: seq<string>, input: Input): seq<string> {
    match MergeLines(input.env, ParseFeature(input.target), Some(ParseFeature(lines)), input.stamp)
    case IndexError => lines
    case Ok(written) => written
  }

  function FileAfterAll(lines: seq<string>, inputs: seq<Input>): seq<string>
    decreases |inputs|
  {
    if inputs == [] then lines else FileAfterAll(FileAfter(lines, inputs[0]), inputs[1..])
  }

  lemma OneMergeProtects(lines: seq<string>, input: Input, ids: set<string>)
    requires InputOk(input, ids) && CompiledOk(ParseFeature(lines).scenarios)
    ensures var after := ParseFeature(FileAfter(lines, input)).scenarios;
            CompiledOk(after) && NormAll(Protected(after, ids)) == NormAll(Protected(ParseFeature(lines).scenarios, ids))
  {
    hide ParseFeature, Pass1, Pass2, KeyOrder, IdSet, Survivors, CompiledOk, NormAll, Protected, Readable, MergedFile, FeatureOk,
         StampOk, MergedBackground, ScenariosOk, BackgroundOk;
    var target, legacy := ParseFeature(input.target), ParseFeature(lines);
    if MergeLines(input.env, target, Some(legacy), input.stamp).Ok? {
      ParsedFeatureOk(input.target);
      assert ScenariosOk(target.scenarios) by {
        ParsedFileScenariosOk(input.target);
      }
      OutcomesProtect(input.env, target, legacy.scenarios, ids);
      BackgroundParsed(lines);
      SecondBackgroundOk(input.env, target, legacy);
      var survivors := Survivors(MergeScenarios(input.env, target, Some(legacy)).value.outcomes);
      MergedFileReadsBack(input.stamp, target, MergedBackground(input.env, target, Some(legacy)), survivors);
      NormAllTwice(Protected(legacy.scenarios, ids));
    }
  }

  /** A hand-edited scenario whose id no TARGET names survives every finite sequence of merges, whatever the
      TARGET files, bound sets, lockfile answers, traceability tables and clocks: after the whole run the
      protected scenarios of the file are the ones it began with, in the same relative order and unchanged up
      to whitespace. */
  lemma {:induction false} HandEditsSurvive(lines: seq<string>, inputs: seq<Input>, ids: set<string>)
    requires CompiledOk(ParseFeature(lines).scenarios) && forall input | input in inputs :: InputOk(input, ids)
    ensures NormAll(Protected(ParseFeature(FileAfterAll(lines, inputs)).scenarios, ids))
         == NormAll(Protected(ParseFeature(lines).scenarios, ids))
    decreases |inputs|
  {
    hide ParseFeature, CompiledOk, NormAll, Protected, InputOk, FileAfter;
    if inputs != [] {
      assert inputs[0] in inputs && forall input | input in inputs[1..] :: input in inputs;
      OneMergeProtects(lines, inputs[0], ids);
      HandEditsSurvive(FileAfter(lines, inputs[0]), inputs[1..], ids);
    }
  }

  /** What `Protected` says of one scenario: it is there exactly when the index finds it and it is marked. */
  lemma ProtectedMember(scenarios: seq<Scenario>, ids: set<string>, s: Scenario)
    ensures s in Protected(scenarios, ids)
       <==> (HandEdited(s) && exists id | id in ids :: Find(scenarios, id) == Some(s))
  {
    hide HandEdited, Find, KeyOrder;
    PickMember(scenarios, ids, KeyOrder(scenarios), s);
    forall id | Find(scenarios, id) == Some(s) ensures id in KeyOrder(scenarios) {
      KeyOrderMember(scenarios, id);
    }
  }

  lemma {:induction false} PickMember(scenarios: seq<Scenario>, ids: set<string>, order: seq<string>, s: Scenario)
    ensures s in Pick(scenarios, ids, order)
       <==> (HandEdited(s) && exists id | id in ids :: id in order && Find(scenarios, id) == Some(s))
  {
    hide HandEdited, Find;
    if order != [] {
      PickMember(scenarios, ids, order[1..], s);
    }
  }
}
