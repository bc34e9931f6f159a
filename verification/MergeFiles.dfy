/** The fixpoint of merge mode, stated on file lines. */
module MergeFiles {
  import opened Text
  import opened Gherkin
  import opened FeatureParser
  import opened RoundTrip
  import opened ParserFacts
  import opened StepRewrite
  import opened Traceability
  import opened CompilePipeline
  import opened Merge
  import opened MergeFacts
  import opened FileReadsBack
  import opened MergeFixpoint
  import opened RestoredExamples
  import opened WrittenTargets
  import opened MergeTwice

  lemma ParsedFileScenariosOk(lines: seq<string>)
    ensures ScenariosOk(ParseFeature(lines).scenarios)
  {
    hide ParsePreamble, DescriptionRun, BackgroundRun, ParseScenarios, Strip, ScenariosOk;
    var p := ParsePreamble(lines, NO_PREAMBLE);
    var afterFeature := if p.rest == [] then [] else p.rest[1..];
    var afterDescription := afterFeature[DescriptionRun(afterFeature)..];
    ParsedScenariosOk(afterDescription[BackgroundRun(afterDescription)..]);
  }

  /** TARGET and LEGACY lines that a merge is a fixpoint on, up to restored Examples: a `Feature:` line, distinct
      ids, readable TARGET scenarios, and a LEGACY file in the renderer's own form. */
  ghost predicate FilesReady(entries: seq<Entry>, targetLines: seq<string>, legacyLines: Option<seq<string>>) {
    var target := ParseFeature(targetLines);
    && target.featureLine != "" && Distinct(IdList(target.scenarios))
    && (forall t | t in target.scenarios :: Readable(t, entries))
    && (legacyLines.Some? ==> AllCanonical(ParseFeature(legacyLines.value).scenarios))
  }

  lemma FilesAreReady(env: Env, targetLines: seq<string>, legacyLines: Option<seq<string>>)
    requires FilesReady(env.entries, targetLines, legacyLines)
    requires MergeScenarios(env, ParseFeature(targetLines), ParseOption(legacyLines)).Ok?
    ensures MergeReady(env, ParseFeature(targetLines), ParseOption(legacyLines))
  {
    hide ParseFeature, FeatureOk, Distinct, IdList, Readable, Canonical, ScenarioOk, BackgroundOk, MergeScenarios;
    ParsedFeatureOk(targetLines);
    if legacyLines.Some? {
      BackgroundParsed(legacyLines.value);
      ParsedFileScenariosOk(legacyLines.value);
    }
  }

  /** Re-running a merge reproduces its own output, whatever the buckets, the bound set, the lockfile answers and
      the clock, if and only if no TARGET scenario that is rendered afresh, with steps and tags already in compiled
      form, loses Examples. */
  lemma MergeReproducesItself(env: Env, later: Env, targetLines: seq<string>, legacyLines: Option<seq<string>>,
                              stamp: seq<string>)
    requires FilesReady(env.entries, targetLines, legacyLines) && StampOk(stamp)
    requires later == env.(entries := later.entries)
    requires forall t | t in ParseFeature(targetLines).scenarios :: OutputTags(t, later.entries) == OutputTags(t, env.entries)
    requires MergeLines(env, ParseFeature(targetLines), ParseOption(legacyLines), stamp).Ok?
    ensures var target, legacy := ParseFeature(targetLines), ParseOption(legacyLines);
            var written := MergeLines(env, target, legacy, stamp).value;
            && (MergeLines(later, target, Some(ParseFeature(written)), stamp) == Ok(written)
                <==> !AnyRestorable(env, LegacyScenarios(legacy), target.scenarios))
            && (!AnyRestorable(env, LegacyScenarios(legacy), target.scenarios) ==>
                  forall newStamp :: MergeLines(later, target, Some(ParseFeature(written)), newStamp)
                                  == MergeLines(env, target, legacy, newStamp))
  {
    hide ParseFeature, MergeReady, StampOk, OutputTags, AnyRestorable, MergedFile, MergedBackground, Survivors, FilesReady,
         MergeScenarios;
    var target, legacy := ParseFeature(targetLines), ParseOption(legacyLines);
    FilesAreReady(env, targetLines, legacyLines);
    MergeTwiceExactly(env, later, target, legacy, stamp);
    if !AnyRestorable(env, LegacyScenarios(legacy), target.scenarios) {
      MergeIsFixpointUnlessRestored(env, later, target, legacy, stamp);
    }
  }

  // ------------------------------------------------------------------ no `<transport>` in names

  lemma PlainWritten(t: Scenario, entries: seq<Entry>)
    requires !Contains(t.name, "<transport>")
    ensures WriteScenario(t, entries) == Ok(t.(steps := RewriteSteps(t.steps), tags := OutputTags(t, entries)))
  {
    hide Contains, OutputTags, RewriteSteps;
  }

  predicate PlainName(t: Scenario) {
    ScenarioId(t).Some? ==> !Contains(t.name, "<transport>")
  }

  lemma PlainOutcome(env: Env, legacy: Option<Scenario>, t: Scenario)
    requires ScenarioId(t).Some? && PlainName(t)
    ensures TargetOutcome(env, legacy, ScenarioId(t).value, t).Ok?
  {
    hide Contains, FinalBucket, WriteScenario, ScenarioId;
    PlainWritten(t, env.entries);
  }

  lemma {:induction false} PlainPass1(env: Env, legacy: seq<Scenario>, targets: seq<Scenario>)
    requires forall t | t in targets :: PlainName(t)
    ensures Pass1(env, legacy, targets).Ok?
  {
    hide PlainName, TargetOutcome, Find, ScenarioId;
    if targets != [] {
      assert targets[0] in targets && forall t | t in targets[1..] :: t in targets;
      PlainPass1(env, legacy, targets[1..]);
      if ScenarioId(targets[0]).Some? {
        PlainOutcome(env, Find(legacy, ScenarioId(targets[0]).value), targets[0]);
      }
    }
  }

  /** Without `<transport>` in the names of id-bearing scenarios a merge never raises and nothing is restored, so
      every merge is a fixpoint. */
  lemma PlainNamesReproduce(env: Env, target: Feature, legacy: Option<Feature>, stamp: seq<string>)
    requires forall t | t in target.scenarios :: PlainName(t)
    ensures MergeLines(env, target, legacy, stamp).Ok?
    ensures !AnyRestorable(env, LegacyScenarios(legacy), target.scenarios)
  {
    hide Contains, Restorable, Pass1, Pass2, KeyOrder, IdSet, ScenarioId;
    PlainPass1(env, LegacyScenarios(legacy), target.scenarios);
    forall i | 0 <= i < |target.scenarios| ensures !Restorable(env, LegacyScenarios(legacy), target.scenarios[i]) {
      assert PlainName(target.scenarios[i]);
      if Restorable(env, LegacyScenarios(legacy), target.scenarios[i]) {
        NamedAfterTransport(env, LegacyScenarios(legacy), target.scenarios[i]);
        HasOwnKey(env, LegacyScenarios(legacy), target.scenarios[i]);
      }
    }
  }

  lemma HasOwnKey(env: Env, legacy: seq<Scenario>, t: Scenario)
    requires Restorable(env, legacy, t)
    ensures ScenarioId(t).Some?
  {
    hide LosesExamples, FinalBucket, TagsMatchIgnoringId, RewriteSteps, NormSteps;
  }
}
