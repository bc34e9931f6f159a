/** `merge_features`: a merge over many files, and what it leaves in the traceability table. */
module MergeRun {
  import opened Text
  import opened Gherkin
  import opened FeatureParser
  import opened FeatureRender
  import opened RoundTrip
  import opened StepRewrite
  import opened Traceability
  import opened UseCases
  import opened CompilePipeline
  import opened Merge
  import opened MergeFacts
  import opened FileReadsBack
  import opened MergeFixpoint
  import opened MergeTwice
  import opened WrittenTargets
  import opened MergeFiles
  import opened HandEdits

  // ------------------------------------------------------------------ what each file contributes

  /** A TARGET file with the compiled file of the same name, if there is one, and the lockfile's answers. */
  datatype Source = Source(name: string, target: seq<string>, legacy: Option<seq<string>>, locked: set<string>)

  /** The options of a run. */
  datatype Settings = Settings(collected: set<string>, bound: Option<set<string>>)

  function EnvOf(s: Source, o: Settings, m: Mappings): Env {
    Env(UcKey(s.name), s.name, o.collected, o.bound, s.locked, EntriesOf(m, UcKey(s.name)))
  }

  function FileMerge(s: Source, o: Settings, m: Mappings): Result<Merged> {
    MergeScenarios(EnvOf(s, o, m), ParseFeature(s.target), ParseOption(s.legacy))
  }

  function FileLines(s: Source, o: Settings, m: Mappings, stamp: seq<string>): Result<seq<string>> {
    MergeLines(EnvOf(s, o, m), ParseFeature(s.target), ParseOption(s.legacy), stamp)
  }

  datatype Contribution = Contribution(uc: string, name: string, ids: set<string>, news: seq<Entry>)

  function ContributionOf(s: Source, o: Settings, m: Mappings): Contribution
    requires FileMerge(s, o, m).Ok?
  {
    Contribution(UcKey(s.name), s.name, KeptIds(FileMerge(s, o, m).value.outcomes),
                 MergeNews(EnvOf(s, o, m), LegacyScenarios(ParseOption(s.legacy)), ParseFeature(s.target).scenarios))
  }

  function ProducedBy(cs: seq<Contribution>, uc: string): set<string> {
    if cs == [] then {}
    else ProducedBy(cs[..|cs| - 1], uc) + (if cs[|cs| - 1].uc == uc then cs[|cs| - 1].ids else {})
  }

  function TouchedBy(cs: seq<Contribution>, uc: string): set<string> {
    if cs == [] then {}
    else TouchedBy(cs[..|cs| - 1], uc) + (if cs[|cs| - 1].uc == uc then {cs[|cs| - 1].name} else {})
  }

  function ProposedBy(cs: seq<Contribution>, uc: string): seq<Entry> {
    if cs == [] then []
    else ProposedBy(cs[..|cs| - 1], uc) + (if cs[|cs| - 1].uc == uc then cs[|cs| - 1].news else [])
  }

  /** The entries of a use case after the run. */
  function SettledBy(cs: seq<Contribution>, uc: string, existing: seq<Entry>): seq<Entry> {
    Prune(AddNew(existing, ProposedBy(cs, uc)), ProducedBy(cs, uc), TouchedBy(cs, uc))
  }

  ghost predicate AllContribute(cs: seq<Contribution>, sources: seq<Source>, o: Settings, m: Mappings) {
    && |cs| == |sources|
    && forall i | 0 <= i < |sources| :: FileMerge(sources[i], o, m).Ok? && cs[i] == ContributionOf(sources[i], o, m)
  }

  // ------------------------------------------------------------------ the manifest

  /** What a file hands to the semantic merge. */
  function ItemsOf(s: Source, o: Settings, m: Mappings): seq<ManifestEntry> {
    var env, target, legacy := EnvOf(s, o, m), ParseFeature(s.target), ParseOption(s.legacy);
    BackgroundItem(env, target, legacy) + ManifestFor(env, LegacyScenarios(legacy), target.scenarios)
  }

  /** How often a file counts a bucket. */
  function CountFor(s: Source, o: Settings, m: Mappings, b: Bucket): nat {
    if FileMerge(s, o, m).Ok? then CountOf(FileMerge(s, o, m).value, b) else 0
  }

  function NeedsBy(sources: seq<Source>, o: Settings, m: Mappings, uc: string): seq<ManifestEntry> {
    if sources == [] then []
    else
      var s := sources[|sources| - 1];
      NeedsBy(sources[..|sources| - 1], o, m, uc) + (if UcKey(s.name) == uc then ItemsOf(s, o, m) else [])
  }

  function TotalBy(sources: seq<Source>, o: Settings, m: Mappings, uc: string, b: Bucket): nat {
    if sources == [] then 0
    else
      var s := sources[|sources| - 1];
      TotalBy(sources[..|sources| - 1], o, m, uc, b) + (if UcKey(s.name) == uc then CountFor(s, o, m, b) else 0)
  }

  /** The manifest's entry for one use case. */
  datatype UcManifest = UcManifest(buckets: map<Bucket, int>, needs: seq<ManifestEntry>)

  const NO_ITEMS := UcManifest(map[], [])

  function ManifestAt(manifest: map<string, UcManifest>, uc: string): UcManifest {
    if uc in manifest then manifest[uc] else NO_ITEMS
  }

  function CountAt(counts: map<Bucket, int>, b: Bucket): int {
    if b in counts then counts[b] else 0
  }

  ghost predicate ManifestOfAt(manifest: map<string, UcManifest>, sources: seq<Source>, o: Settings, m: Mappings, uc: string) {
    && ManifestAt(manifest, uc).needs == NeedsBy(sources, o, m, uc)
    && forall b :: CountAt(ManifestAt(manifest, uc).buckets, b) == TotalBy(sources, o, m, uc, b)
  }

  /** The manifest of a run over these sources. */
  ghost predicate ManifestOf(manifest: map<string, UcManifest>, sources: seq<Source>, o: Settings, m: Mappings) {
    && manifest.Keys == (set s | s in sources :: UcKey(s.name))
    && forall uc :: ManifestOfAt(manifest, sources, o, m, uc)
  }

  method AddCounts(counts: map<Bucket, int>, more: map<Bucket, int>) returns (total: map<Bucket, int>)
    ensures forall b :: CountAt(total, b) == CountAt(counts, b) + CountAt(more, b)
  {
    total := counts;
    var left := more.Keys;
    while left != {}
      invariant left <= more.Keys
      invariant forall b :: CountAt(total, b) == CountAt(counts, b) + (if b in left then 0 else CountAt(more, b))
      decreases left
    {
      var b :| b in left;
      total := total[b := CountAt(total, b) + more[b]];
      left := left - {b};
    }
  }

  /** The manifest with the counts and items of one more file. */
  method GatherManifest(manifest: map<string, UcManifest>, s: Source, counts: map<Bucket, int>, items: seq<ManifestEntry>,
                        ghost sources: seq<Source>, ghost o: Settings, ghost m: Mappings)
    returns (r: map<string, UcManifest>)
    requires ManifestOf(manifest, sources, o, m)
    requires items == ItemsOf(s, o, m) && forall b :: CountAt(counts, b) == CountFor(s, o, m, b)
    ensures ManifestOf(r, sources + [s], o, m)
  {
    hide UcKey, ItemsOf, CountFor;
    var uc := UcKey(s.name);
    var before := ManifestAt(manifest, uc);
    var buckets := AddCounts(before.buckets, counts);
    r := manifest[uc := UcManifest(buckets, before.needs + items)];
    assert (sources + [s])[..|sources|] == sources;
    forall u ensures ManifestOfAt(r, sources + [s], o, m, u) {
      assert ManifestOfAt(manifest, sources, o, m, u);
    }
  }

  lemma NothingInManifest(o: Settings, m: Mappings)
    ensures ManifestOf(map[], [], o, m)
  {
  }

  lemma {:induction false} ItemsCounted(env: Env, legacy: seq<Scenario>, targets: seq<Scenario>)
    requires Pass1(env, legacy, targets).Ok?
    ensures |ManifestFor(env, legacy, targets)| == CountIn(Pass1(env, legacy, targets).value, NeedsSemanticMerge)
  {
    hide Find, ScenarioId, Pass1, ManifestFor, ManifestItem, CountIn, TargetOutcome;
    if targets == [] {
      EmptyPasses(env, legacy);
      NoOutcomes();
    } else {
      var n := |targets| - 1;
      var t := targets[n];
      assert targets[..n] + [t] == targets;
      FrontPasses(env, legacy, targets[..n], t);
      ItemsCounted(env, legacy, targets[..n]);
      ItemsSnoc(env, legacy, targets[..n], t);
      Pass1Snoc(env, legacy, targets[..n], t);
      if ScenarioId(t).Some? {
        OneItemCounted(env, Find(legacy, ScenarioId(t).value), ScenarioId(t).value, t);
      } else {
        NoOutcomes();
      }
      CountInAppend(Pass1(env, legacy, targets[..n]).value, Pass1Item(env, legacy, t).value, NeedsSemanticMerge);
    }
  }

  lemma {:induction false} FrontPasses(env: Env, legacy: seq<Scenario>, targets: seq<Scenario>, t: Scenario)
    requires Pass1(env, legacy, targets + [t]).Ok?
    ensures Pass1(env, legacy, targets).Ok?
  {
    hide Find, ScenarioId, TargetOutcome;
    if targets != [] {
      assert (targets + [t])[1..] == targets[1..] + [t];
      FrontPasses(env, legacy, targets[1..], t);
    }
  }

  lemma OneItemCounted(env: Env, legacy: Option<Scenario>, id: string, t: Scenario)
    requires TargetOutcome(env, legacy, id, t).Ok?
    ensures |ManifestItem(env, legacy, id, t)| == CountIn([TargetOutcome(env, legacy, id, t).value], NeedsSemanticMerge)
  {
    hide WriteScenario, RenderScenario, TagsMatchIgnoringId, ExamplesMatch;
    assert [TargetOutcome(env, legacy, id, t).value][1..] == [];
  }

  lemma {:induction false} NothingForLegacy(legacy: seq<Scenario>, targetIds: set<string>, order: seq<string>)
    ensures CountIn(Pass2(legacy, targetIds, order), NeedsSemanticMerge) == 0
  {
    hide Find, HandEdited;
    if order != [] {
      NothingForLegacy(legacy, targetIds, order[1..]);
    }
  }

  /** The manifest lists one item for every NEEDS-SEMANTIC-MERGE that a file counts. */
  lemma FileItemsCounted(s: Source, o: Settings, m: Mappings)
    requires FileMerge(s, o, m).Ok?
    ensures |ItemsOf(s, o, m)| == CountFor(s, o, m, NeedsSemanticMerge)
  {
    hide ParseFeature, UcKey, Pass1, Pass2, KeyOrder, IdSet, ManifestFor, CountIn;
    var env, target, legacy := EnvOf(s, o, m), ParseFeature(s.target), ParseOption(s.legacy);
    var scenarios := LegacyScenarios(legacy);
    ItemsCounted(env, scenarios, target.scenarios);
    NothingForLegacy(scenarios, IdSet(target.scenarios), KeyOrder(scenarios));
    CountInAppend(Pass1(env, scenarios, target.scenarios).value,
                  Pass2(scenarios, IdSet(target.scenarios), KeyOrder(scenarios)), NeedsSemanticMerge);
  }

  /** Conservation over a run: the manifest of a use case lists as many items as its files counted. */
  lemma {:induction false} ManifestCounted(sources: seq<Source>, o: Settings, m: Mappings, uc: string)
    requires forall i | 0 <= i < |sources| :: FileMerge(sources[i], o, m).Ok?
    ensures |NeedsBy(sources, o, m, uc)| == TotalBy(sources, o, m, uc, NeedsSemanticMerge)
  {
    hide FileMerge, ItemsOf, CountFor, UcKey;
    if sources != [] {
      ManifestCounted(sources[..|sources| - 1], o, m, uc);
      FileItemsCounted(sources[|sources| - 1], o, m);
    }
  }

  // ------------------------------------------------------------------ the run

  ghost predicate GatheredByAt(g: Gathered, cs: seq<Contribution>, uc: string) {
    && ProducedBy(cs, uc) == SetAt(g.produced, uc)
    && TouchedBy(cs, uc) == SetAt(g.touched, uc)
    && ProposedBy(cs, uc) == ListAt(g.proposed, uc)
  }

  ghost predicate GatheredBy(g: Gathered, cs: seq<Contribution>) {
    g.produced.Keys == g.touched.Keys && forall uc :: GatheredByAt(g, cs, uc)
  }

  method GatherContribution(g: Gathered, c: Contribution, ghost cs: seq<Contribution>) returns (r: Gathered)
    requires GatheredBy(g, cs)
    ensures GatheredBy(r, cs + [c])
  {
    var produced := g.produced[c.uc := SetAt(g.produced, c.uc) + c.ids];
    var touched := g.touched[c.uc := SetAt(g.touched, c.uc) + {c.name}];
    var proposed := if c.news == [] then g.proposed else g.proposed[c.uc := ListAt(g.proposed, c.uc) + c.news];
    r := Gathered(produced, touched, proposed);
    assert (cs + [c])[..|cs|] == cs;
    forall u ensures GatheredByAt(r, cs + [c], u) {
      assert GatheredByAt(g, cs, u);
    }
  }

  lemma NothingGatheredYet()
    ensures GatheredBy(Gathered(map[], map[], map[]), [])
  {
  }

  predicate DistinctSources(sources: seq<Source>) {
    forall i, j | 0 <= i < j < |sources| :: sources[i].name != sources[j].name
  }

  /** One call of `merge_feature`, with a fresh state. */
  method MergeFile(s: Source, o: Settings, entries: seq<Entry>, stamp: seq<string>, ghost m: Mappings)
    returns (r: Result<seq<string>>, c: Contribution, counts: map<Bucket, int>, items: seq<ManifestEntry>)
    requires entries == EntriesOf(m, UcKey(s.name))
    ensures r == FileLines(s, o, m, stamp)
    ensures r.Ok? ==> FileMerge(s, o, m).Ok? && c == ContributionOf(s, o, m)
    ensures r.Ok? ==> items == ItemsOf(s, o, m) && forall b :: CountAt(counts, b) == CountFor(s, o, m, b)
  {
    hide MergeScenarios, ParseFeature, MergeNews, MergedFile, MergedBackground, ManifestFor, Survivors, CountOf, KeptIds, UcKey;
    var env := Env(UcKey(s.name), s.name, o.collected, o.bound, s.locked, entries);
    var merger := new Merger();
    r := merger.MergeFeature(env, s.target, s.legacy, stamp);
    c := Contribution(env.uc, s.name, merger.ids, merger.newMappings);
    counts, items := merger.counts, merger.manifest;
    if r.Ok? {
      forall b ensures CountAt(counts, b) == CountFor(s, o, m, b) {
        assert merger.Count(b) == CountAt(merger.counts, b);
      }
    }
  }

  /** The whole run. A row too short for the transport column aborts it before the table is touched; without files
      nothing is recorded. */
  method MergeFeatures(sources: seq<Source>, o: Settings, table: Table, stamp: seq<string>, sha: string, now: string)
    returns (ok: bool, outputs: map<string, seq<string>>, manifest: map<string, UcManifest>, ghost cs: seq<Contribution>)
    requires DistinctSources(sources)
    modifies table
    ensures ok ==> AllContribute(cs, sources, o, old(table.mappings))
    ensures ok ==> forall uc :: EntriesOf(table.mappings, uc) == SettledBy(cs, uc, EntriesOf(old(table.mappings), uc))
    ensures ok ==> forall i | 0 <= i < |sources| ::
              sources[i].name in outputs && FileLines(sources[i], o, old(table.mappings), stamp) == Ok(outputs[sources[i].name])
    ensures ok ==> ManifestOf(manifest, sources, o, old(table.mappings))
    ensures ok && sources != [] ==> table.commit == Some(sha) && table.compiledAt == Some(now)
    ensures !ok || sources == [] ==> unchanged(table)
    ensures !ok ==> exists i | 0 <= i < |sources| :: FileLines(sources[i], o, table.mappings, stamp).IndexError?
  {
    hide FileLines, FileMerge, ContributionOf, ProducedBy, TouchedBy, ProposedBy, AddNew, Prune, UcKey, ManifestOf, ItemsOf,
         CountFor;
    outputs, manifest := map[], map[];
    cs := [];
    NothingInManifest(o, table.mappings);
    if sources == [] {
      NoFilesMerged(table.mappings);
      return true, outputs, manifest, cs;
    }
    var g := Gathered(map[], map[], map[]);
    NothingGatheredYet();
    for k := 0 to |sources|
      invariant unchanged(table)
      invariant ManifestOf(manifest, sources[..k], o, table.mappings)
      invariant AllContribute(cs, sources[..k], o, table.mappings)
      invariant GatheredBy(g, cs)
      invariant forall i | 0 <= i < k ::
                  sources[i].name in outputs && FileLines(sources[i], o, table.mappings, stamp) == Ok(outputs[sources[i].name])
    {
      var s := sources[k];
      var r, c, counts, items := MergeFile(s, o, EntriesOf(table.mappings, UcKey(s.name)), stamp, table.mappings);
      if r.IndexError? {
        assert FileLines(sources[k], o, table.mappings, stamp).IndexError?;
        return false, outputs, manifest, cs;
      }
      outputs := outputs[s.name := r.value];
      g := GatherContribution(g, c, cs);
      cs := cs + [c];
      manifest := GatherManifest(manifest, s, counts, items, sources[..k], o, table.mappings);
      assert sources[..k] + [s] == sources[..k + 1];
    }
    assert sources[..|sources|] == sources;
    UpdateAll(table, g.proposed);
    var pruned := PruneAll(table, g);
    forall uc ensures EntriesOf(table.mappings, uc) == SettledBy(cs, uc, EntriesOf(old(table.mappings), uc)) {
      assert GatheredByAt(g, cs, uc);
    }
    table.commit, table.compiledAt := Some(sha), Some(now);
    ok := true;
  }

  lemma NoFilesMerged(m: Mappings)
    ensures forall uc :: SettledBy([], uc, EntriesOf(m, uc)) == EntriesOf(m, uc)
  {
    forall uc ensures SettledBy([], uc, EntriesOf(m, uc)) == EntriesOf(m, uc) {
      PruneUntouched(EntriesOf(m, uc));
    }
  }

  // ------------------------------------------------------------------ no phantoms

  lemma {:induction false} KeyedIds(scenarios: seq<Scenario>, ids: seq<string>)
    requires Keyed(scenarios, ids)
    ensures IdSet(scenarios) == Elements(ids)
  {
    hide Keyed, ScenarioId;
    if ids == [] {
      KeyedSize(scenarios, ids);
    } else {
      KeyedSize(scenarios, ids);
      KeyedTail(scenarios, ids);
      KeyedIds(scenarios[1..], ids[1..]);
    }
  }

  lemma KeyedSize(scenarios: seq<Scenario>, ids: seq<string>)
    requires Keyed(scenarios, ids)
    ensures |scenarios| == |ids|
  {
  }

  lemma {:induction false} KeptAreSurvivors(outcomes: seq<Outcome>)
    ensures KeptIds(outcomes) == Elements(SurvivorIds(outcomes))
  {
    if outcomes != [] {
      KeptAreSurvivors(outcomes[1..]);
      var rest := SurvivorIds(outcomes[1..]);
      assert [] + rest == rest && ([outcomes[0].id] + rest)[1..] == rest;
    }
  }

  /** A source whose output can be read back. */
  ghost predicate SourceOk(s: Source, o: Settings, m: Mappings) {
    && ParseFeature(s.target).featureLine != ""
    && (forall t | t in ParseFeature(s.target).scenarios :: Readable(t, EntriesOf(m, UcKey(s.name))))
    && (s.legacy.Some? ==> CompiledOk(ParseFeature(s.legacy.value).scenarios))
  }

  lemma OutcomesReported(env: Env, target: Feature, legacy: seq<Scenario>)
    requires CompiledOk(legacy) && ScenariosOk(target.scenarios)
    requires forall t | t in target.scenarios :: Readable(t, env.entries)
    requires Pass1(env, legacy, target.scenarios).Ok?
    ensures var outcomes := Pass1(env, legacy, target.scenarios).value
                            + Pass2(legacy, IdSet(target.scenarios), KeyOrder(legacy));
            ScenariosOk(Survivors(outcomes)) && KeptIds(outcomes) == IdSet(NormAll(Survivors(outcomes)))
  {
    hide ScenarioOk, NormAll, Pass1, Pass2, KeyOrder, IdSet, OutcomeOk, FreshOk, Keyed, Survivors, SurvivorIds, KeptIds,
         CompiledOk, Readable, LegacyOutcome, ScenariosOk, Elements, Distinct;
    var targetIds := IdSet(target.scenarios);
    var first := Pass1(env, legacy, target.scenarios).value;
    var order := KeyOrder(legacy);
    var rest := Pass2(legacy, targetIds, order);
    AllScenariosOk(target.scenarios);
    ReadableFresh(env, legacy, target.scenarios);
    Pass1Ok(env, legacy, target.scenarios);
    KeyOrderDistinct(legacy);
    Pass2Facts(legacy, targetIds, order);
    forall o | o in rest ensures OutcomeOk(o) {
      LegacyOutcomeOk(legacy, targetIds, o);
    }
    OutcomesPrintable(first + rest);
    OutcomesKeyed(first + rest);
    KeyedIds(NormAll(Survivors(first + rest)), SurvivorIds(first + rest));
    KeptAreSurvivors(first + rest);
  }

  lemma NoLegacyOk()
    ensures CompiledOk([])
  {
  }

  /** The ids a merge reports are exactly the ids of the scenarios in the file it wrote. */
  lemma ReportsWhatIsThere(s: Source, o: Settings, m: Mappings, stamp: seq<string>)
    requires SourceOk(s, o, m) && FileLines(s, o, m, stamp).Ok? && StampOk(stamp)
    ensures FileMerge(s, o, m).Ok?
    ensures ContributionOf(s, o, m).ids == IdSet(ParseFeature(FileLines(s, o, m, stamp).value).scenarios)
  {
    hide ParseFeature, UcKey, Pass1, Pass2, KeyOrder, IdSet, Survivors, KeptIds, CompiledOk, Readable, MergedFile, FeatureOk,
         StampOk, MergedBackground, ScenariosOk, BackgroundOk, NormAll, MergeNews;
    var env, target, legacy := EnvOf(s, o, m), ParseFeature(s.target), ParseOption(s.legacy);
    ParsedFeatureOk(s.target);
    assert ScenariosOk(target.scenarios) by {
      ParsedFileScenariosOk(s.target);
    }
    NoLegacyOk();
    OutcomesReported(env, target, LegacyScenarios(legacy));
    BackgroundOfMerge(s, o, m);
    MergedFileReadsBack(stamp, target, MergedBackground(env, target, legacy), Survivors(FileMerge(s, o, m).value.outcomes));
  }

  lemma BackgroundOfMerge(s: Source, o: Settings, m: Mappings)
    ensures BackgroundOk(MergedBackground(EnvOf(s, o, m), ParseFeature(s.target), ParseOption(s.legacy)))
  {
    hide ParseFeature, BackgroundOk, BackgroundBucket, UcKey;
    BackgroundParsed(s.target);
    if s.legacy.Some? {
      BackgroundParsed(s.legacy.value);
    }
  }

  lemma {:induction false} ProducedFrom(cs: seq<Contribution>, uc: string, id: string)
    ensures id in ProducedBy(cs, uc) <==> exists i | 0 <= i < |cs| :: cs[i].uc == uc && id in cs[i].ids
  {
    if cs != [] {
      ProducedFrom(cs[..|cs| - 1], uc, id);
      if i :| 0 <= i < |cs| && cs[i].uc == uc && id in cs[i].ids {
        if i < |cs| - 1 {
          assert cs[..|cs| - 1][i] == cs[i];
        }
      }
    }
  }

  /** Traceability holds no phantoms: after a run, every entry that a touched file owns names a scenario that
      really is in one of the files the run wrote for that use case. */
  lemma NoPhantoms(cs: seq<Contribution>, sources: seq<Source>, o: Settings, m: Mappings, stamp: seq<string>,
                   uc: string, e: Entry)
    requires AllContribute(cs, sources, o, m) && StampOk(stamp)
    requires forall i | 0 <= i < |sources| :: SourceOk(sources[i], o, m) && FileLines(sources[i], o, m, stamp).Ok?
    requires e in SettledBy(cs, uc, EntriesOf(m, uc)) && e.feature in TouchedBy(cs, uc)
    ensures exists i | 0 <= i < |sources| ::
              UcKey(sources[i].name) == uc
              && e.id in IdSet(ParseFeature(FileLines(sources[i], o, m, stamp).value).scenarios)
  {
    hide SourceOk, FileLines, FileMerge, UcKey, ParseFeature, IdSet, ProducedBy, TouchedBy, ProposedBy, AddNew, Prune, StampOk,
         MergeNews, KeptIds;
    PruneMember(AddNew(EntriesOf(m, uc), ProposedBy(cs, uc)), ProducedBy(cs, uc), TouchedBy(cs, uc), e);
    assert e.id in ProducedBy(cs, uc);
    ProducedFrom(cs, uc, e.id);
    var i :| 0 <= i < |cs| && cs[i].uc == uc && e.id in cs[i].ids;
    ReportsWhatIsThere(sources[i], o, m, stamp);
  }

  /** An entry that no touched file owns, and every entry of a reported id, is there afterwards with all its
      fields; the lookup of a reported id that had an entry still finds the same one. */
  lemma EntriesKept(cs: seq<Contribution>, uc: string, existing: seq<Entry>, e: Entry)
    requires e in existing
    ensures e in SettledBy(cs, uc, existing) <==> Stays(e, ProducedBy(cs, uc), TouchedBy(cs, uc))
    ensures e.id in ProducedBy(cs, uc) ==> Lookup(SettledBy(cs, uc, existing), e.id) == Lookup(existing, e.id)
  {
    hide ProducedBy, TouchedBy, ProposedBy, AddNew, Prune, Lookup, Stays;
    var updated := AddNew(existing, ProposedBy(cs, uc));
    var added := UpdateAppends(existing, ProposedBy(cs, uc));
    PruneMember(updated, ProducedBy(cs, uc), TouchedBy(cs, uc), e);
    if e.id in ProducedBy(cs, uc) {
      PruneKeepsLookup(updated, ProducedBy(cs, uc), TouchedBy(cs, uc), e.id);
      LookupAppend(existing, added, e.id);
      LookupFinds(existing, e.id);
      HasOwnId(existing, e);
    }
  }

  lemma HasOwnId(entries: seq<Entry>, e: Entry)
    requires e in entries
    ensures HasId(entries, e.id)
  {
  }
}
