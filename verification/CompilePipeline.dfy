/** `compile_features` and `verify_features`: a whole run over all source files, and the check that
    re-renders them. */
module CompilePipeline {
  import opened Text
  import opened Gherkin
  import opened FeatureParser
  import opened FeatureRender
  import opened StepRewrite
  import opened Traceability
  import opened UseCases

  datatype SourceFile = SourceFile(name: string, lines: seq<string>)

  // ------------------------------------------------------------------ rendering one file

  /** A scenario as the compiler writes it: rewritten, with its output tags. */
  function WriteScenario(s: Scenario, entries: seq<Entry>): Result<Scenario> {
    match Rewrite(s)
    case IndexError => IndexError
    case Ok(r) => Ok(r.(tags := OutputTags(s, entries)))
  }

  function WriteAll(scenarios: seq<Scenario>, entries: seq<Entry>): Result<seq<Scenario>> {
    if scenarios == [] then Ok([])
    else match WriteScenario(scenarios[0], entries)
      case IndexError => IndexError
      case Ok(s) =>
        match WriteAll(scenarios[1..], entries)
        case IndexError => IndexError
        case Ok(rest) => Ok([s] + rest)
  }

  function CompileStamp(sha: string, now: string): seq<string> {
    ["# Generated from adcp-req @ " + sha + " on " + now,
     "#" + " DO NOT EDIT -- re-run: python scripts/compile_bdd.py",
     ""]
  }

  function FeatureHead(f: Feature): seq<string> {
    (if f.featureTags == [] then [] else [Join(" ", f.featureTags)]) + [f.featureLine] + RStripAll(f.descriptionLines)
  }

  function CompiledBackground(f: Feature): seq<string> {
    if f.backgroundLines == [] then [] else RStripAll(f.backgroundLines) + [""]
  }

  /** The lines of `_render_feature`. */
  function RenderFile(f: Feature, entries: seq<Entry>, stamp: seq<string>): Result<seq<string>> {
    match WriteAll(f.scenarios, entries)
    case IndexError => IndexError
    case Ok(written) => Ok(stamp + FeatureHead(f) + CompiledBackground(f) + RenderAll(written))
  }

  function IdsOf(scenarios: seq<Scenario>): set<string> {
    if scenarios == [] then {}
    else (if scenarios[0].contextgit.Some? then {scenarios[0].contextgit.value.id} else {}) + IdsOf(scenarios[1..])
  }

  function NewsFor(scenarios: seq<Scenario>, entries: seq<Entry>, filename: string): seq<Entry> {
    if scenarios == [] then []
    else (match NewMapping(scenarios[0], entries, filename) case None => [] case Some(e) => [e])
         + NewsFor(scenarios[1..], entries, filename)
  }

  lemma {:induction false} RenderAllSnoc(scenarios: seq<Scenario>, last: Scenario)
    ensures RenderAll(scenarios + [last]) == RenderAll(scenarios) + RenderScenario(last) + [""]
  {
    hide RenderScenario;
    if scenarios == [] {
      assert scenarios + [last] == [last];
      assert [last][1..] == [];
    } else {
      var longer := scenarios + [last];
      assert longer[1..] == scenarios[1..] + [last] && longer[0] == scenarios[0];
      RenderAllSnoc(scenarios[1..], last);
      var first := RenderScenario(scenarios[0]) + [""];
      assert first + (RenderAll(scenarios[1..]) + RenderScenario(last) + [""])
          == (first + RenderAll(scenarios[1..])) + RenderScenario(last) + [""];
    }
  }

  lemma {:induction false} WriteAllSnoc(scenarios: seq<Scenario>, last: Scenario, entries: seq<Entry>)
    requires WriteAll(scenarios, entries).Ok?
    ensures WriteAll(scenarios + [last], entries)
            == match WriteScenario(last, entries)
               case IndexError => IndexError
               case Ok(s) => Ok(WriteAll(scenarios, entries).value + [s])
  {
    hide WriteScenario;
    if scenarios == [] {
      assert scenarios + [last] == [last];
      assert [last][1..] == [];
      if WriteScenario(last, entries).Ok? {
        var s := WriteScenario(last, entries).value;
        assert [s] + [] == [] + [s];
      }
    } else {
      var longer := scenarios + [last];
      assert longer[1..] == scenarios[1..] + [last] && longer[0] == scenarios[0];
      WriteAllSnoc(scenarios[1..], last, entries);
      if WriteScenario(last, entries).Ok? {
        var s := WriteScenario(last, entries).value;
        var w := WriteScenario(scenarios[0], entries).value;
        assert [w] + (WriteAll(scenarios[1..], entries).value + [s]) == WriteAll(scenarios, entries).value + [s];
      }
    }
  }

  lemma {:induction false} WriteAllRaises(scenarios: seq<Scenario>, i: nat, entries: seq<Entry>)
    requires i < |scenarios| && WriteScenario(scenarios[i], entries).IndexError?
    ensures WriteAll(scenarios, entries).IndexError?
  {
    hide WriteScenario;
    if i > 0 {
      WriteAllRaises(scenarios[1..], i - 1, entries);
    }
  }

  lemma {:induction false} IdsAndNewsSnoc(scenarios: seq<Scenario>, last: Scenario, entries: seq<Entry>, filename: string)
    ensures IdsOf(scenarios + [last]) == IdsOf(scenarios) + IdsOf([last])
    ensures NewsFor(scenarios + [last], entries, filename)
            == NewsFor(scenarios, entries, filename) + NewsFor([last], entries, filename)
  {
    hide NewMapping;
    if scenarios == [] {
      assert scenarios + [last] == [last];
    } else {
      var longer := scenarios + [last];
      assert longer[1..] == scenarios[1..] + [last] && longer[0] == scenarios[0];
      IdsAndNewsSnoc(scenarios[1..], last, entries, filename);
      var first := match NewMapping(scenarios[0], entries, filename) case None => [] case Some(e) => [e];
      assert first + (NewsFor(scenarios[1..], entries, filename) + NewsFor([last], entries, filename))
          == (first + NewsFor(scenarios[1..], entries, filename)) + NewsFor([last], entries, filename);
    }
  }

  lemma OneScenario(s: Scenario, entries: seq<Entry>, filename: string)
    ensures IdsOf([s]) == if s.contextgit.Some? then {s.contextgit.value.id} else {}
    ensures NewsFor([s], entries, filename)
            == match NewMapping(s, entries, filename) case None => [] case Some(e) => [e]
  {
    hide NewMapping;
    assert [s][1..] == [];
  }

  /** `_render_feature`: one pass over the scenarios. */
  method RenderFeature(f: Feature, entries: seq<Entry>, filename: string, stamp: seq<string>)
    returns (r: Result<seq<string>>, news: seq<Entry>, ids: set<string>)
    ensures r == RenderFile(f, entries, stamp)
    ensures r.Ok? ==> news == NewsFor(f.scenarios, entries, filename) && ids == IdsOf(f.scenarios)
  {
    hide WriteScenario, RenderScenario, RenderAll, WriteAll, NewMapping, OutputTags, NewsFor, IdsOf, FeatureHead, Rewrite,
         CompiledBackground;
    news, ids := [], {};
    var lines := stamp + FeatureHead(f) + CompiledBackground(f);
    ghost var head := lines;
    ghost var written: seq<Scenario> := [];
    Starts(entries, filename);
    for i := 0 to |f.scenarios|
      invariant WriteAll(f.scenarios[..i], entries) == Ok(written)
      invariant lines == head + RenderAll(written)
      invariant news == NewsFor(f.scenarios[..i], entries, filename) && ids == IdsOf(f.scenarios[..i])
    {
      var s := f.scenarios[i];
      assert f.scenarios[..i + 1] == f.scenarios[..i] + [s];
      WriteAllSnoc(f.scenarios[..i], s, entries);
      IdsAndNewsSnoc(f.scenarios[..i], s, entries, filename);
      OneScenario(s, entries, filename);
      var mapping := NewMapping(s, entries, filename);
      if mapping.Some? {
        news := news + [mapping.value];
      }
      if s.contextgit.Some? {
        ids := ids + {s.contextgit.value.id};
      }
      var w := WriteScenario(s, entries);
      if w.IndexError? {
        WriteAllRaises(f.scenarios, i, entries);
        r := IndexError;
        return;
      }
      var rendered := RenderScenarioLines(w.value);
      RenderAllSnoc(written, w.value);
      written := written + [w.value];
      lines := lines + (rendered + [""]);
    }
    assert f.scenarios[..|f.scenarios|] == f.scenarios;
    r := Ok(lines);
  }

  lemma Starts(entries: seq<Entry>, filename: string)
    ensures WriteAll([], entries) == Ok([]) && RenderAll([]) == [] && NewsFor([], entries, filename) == [] && IdsOf([]) == {}
  {
  }

  // ------------------------------------------------------------------ a run over all files

  function KeyOf(f: SourceFile): string {
    UcKey(f.name)
  }

  /** The ids this run produced for a use case. */
  function ProducedIds(files: seq<SourceFile>, uc: string): set<string> {
    if files == [] then {}
    else (if KeyOf(files[0]) == uc then IdsOf(ParseFeature(files[0].lines).scenarios) else {}) + ProducedIds(files[1..], uc)
  }

  /** The file names this run touched for a use case. */
  function TouchedFiles(files: seq<SourceFile>, uc: string): set<string> {
    if files == [] then {}
    else (if KeyOf(files[0]) == uc then {files[0].name} else {}) + TouchedFiles(files[1..], uc)
  }

  /** The mappings this run proposed for a use case. */
  function ProposedFor(files: seq<SourceFile>, uc: string, entries: seq<Entry>): seq<Entry> {
    if files == [] then []
    else (if KeyOf(files[0]) == uc then NewsFor(ParseFeature(files[0].lines).scenarios, entries, files[0].name) else [])
         + ProposedFor(files[1..], uc, entries)
  }

  /** The entries of a use case at the end of a run. */
  function Settled(files: seq<SourceFile>, uc: string, existing: seq<Entry>): seq<Entry> {
    Prune(AddNew(existing, ProposedFor(files, uc, existing)), ProducedIds(files, uc), TouchedFiles(files, uc))
  }

  function Rendering(f: SourceFile, m: Mappings, stamp: seq<string>): Result<seq<string>> {
    RenderFile(ParseFeature(f.lines), EntriesOf(m, KeyOf(f)), stamp)
  }

  /** Files written and table updated by one run. */
  ghost predicate Compiled(files: seq<SourceFile>, before: Mappings, after: Mappings,
                           outputs: map<string, seq<string>>, stamp: seq<string>)
  {
    && (forall uc :: EntriesOf(after, uc) == Settled(files, uc, EntriesOf(before, uc)))
    && (forall i | 0 <= i < |files| ::
          files[i].name in outputs && Rendering(files[i], before, stamp) == Ok(outputs[files[i].name]))
  }

  predicate DistinctNames(files: seq<SourceFile>) {
    forall i, j | 0 <= i < j < |files| :: files[i].name != files[j].name
  }

  /** `d.get(uc, set())`. */
  function SetAt(d: map<string, set<string>>, uc: string): set<string> {
    if uc in d then d[uc] else {}
  }

  /** `d.get(uc, [])`. */
  function ListAt(d: map<string, seq<Entry>>, uc: string): seq<Entry> {
    if uc in d then d[uc] else []
  }

  /** What the compile loop has gathered per use case. */
  datatype Gathered = Gathered(produced: map<string, set<string>>, touched: map<string, set<string>>,
                               proposed: map<string, seq<Entry>>)

  ghost predicate GatheredAt(g: Gathered, files: seq<SourceFile>, m: Mappings, uc: string) {
    && ProducedIds(files, uc) == SetAt(g.produced, uc)
    && TouchedFiles(files, uc) == SetAt(g.touched, uc)
    && ProposedFor(files, uc, EntriesOf(m, uc)) == ListAt(g.proposed, uc)
  }

  ghost predicate GatheredFrom(g: Gathered, files: seq<SourceFile>, m: Mappings) {
    g.produced.Keys == g.touched.Keys && forall uc :: GatheredAt(g, files, m, uc)
  }

  lemma {:induction false} ProducedSnoc(files: seq<SourceFile>, last: SourceFile, uc: string)
    ensures ProducedIds(files + [last], uc)
            == ProducedIds(files, uc) + (if KeyOf(last) == uc then IdsOf(ParseFeature(last.lines).scenarios) else {})
    ensures TouchedFiles(files + [last], uc) == TouchedFiles(files, uc) + (if KeyOf(last) == uc then {last.name} else {})
  {
    hide KeyOf, IdsOf, ParseFeature;
    if files == [] {
      assert files + [last] == [last];
      assert [last][1..] == [];
    } else {
      var longer := files + [last];
      assert longer[1..] == files[1..] + [last] && longer[0] == files[0];
      ProducedSnoc(files[1..], last, uc);
    }
  }

  lemma {:induction false} ProposedSnoc(files: seq<SourceFile>, last: SourceFile, uc: string, entries: seq<Entry>)
    ensures ProposedFor(files + [last], uc, entries)
            == ProposedFor(files, uc, entries)
               + (if KeyOf(last) == uc then NewsFor(ParseFeature(last.lines).scenarios, entries, last.name) else [])
  {
    hide KeyOf, NewsFor, ParseFeature;
    if files == [] {
      assert files + [last] == [last];
      assert [last][1..] == [];
    } else {
      var longer := files + [last];
      assert longer[1..] == files[1..] + [last] && longer[0] == files[0];
      ProposedSnoc(files[1..], last, uc, entries);
    }
  }

  /** One file's contribution, merged into what was gathered (`setdefault(...).update` and friends). */
  method Gather(g: Gathered, uc: string, name: string, ids: set<string>, news: seq<Entry>,
                ghost files: seq<SourceFile>, ghost f: SourceFile, ghost m: Mappings)
    returns (r: Gathered)
    requires GatheredFrom(g, files, m)
    requires uc == KeyOf(f) && name == f.name && ids == IdsOf(ParseFeature(f.lines).scenarios)
    requires news == NewsFor(ParseFeature(f.lines).scenarios, EntriesOf(m, uc), name)
    ensures GatheredFrom(r, files + [f], m)
  {
    hide KeyOf, IdsOf, NewsFor, ParseFeature, ProducedIds, TouchedFiles, ProposedFor, EntriesOf;
    var produced := g.produced[uc := SetAt(g.produced, uc) + ids];
    var touched := g.touched[uc := SetAt(g.touched, uc) + {name}];
    var proposed := if news == [] then g.proposed else g.proposed[uc := ListAt(g.proposed, uc) + news];
    r := Gathered(produced, touched, proposed);
    forall u ensures GatheredAt(r, files + [f], m, u) {
      assert GatheredAt(g, files, m, u);
      ProducedSnoc(files, f, u);
      ProposedSnoc(files, f, u, EntriesOf(m, u));
    }
  }

  // ------------------------------------------------------------------ the whole run

  /** A mapping table with the proposals of some use cases added. */
  ghost predicate UpdatedFor(after: Mappings, before: Mappings, proposed: map<string, seq<Entry>>, done: set<string>) {
    forall uc :: EntriesOf(after, uc)
                 == if uc in done then AddNew(EntriesOf(before, uc), ListAt(proposed, uc)) else EntriesOf(before, uc)
  }

  ghost predicate PrunedFor(after: Mappings, before: Mappings, g: Gathered, done: set<string>) {
    forall uc :: EntriesOf(after, uc)
                 == if uc in done then Prune(EntriesOf(before, uc), SetAt(g.produced, uc), SetAt(g.touched, uc))
                    else EntriesOf(before, uc)
  }

  method UpdateAll(table: Table, proposed: map<string, seq<Entry>>)
    modifies table`mappings
    ensures forall uc :: EntriesOf(table.mappings, uc) == AddNew(EntriesOf(old(table.mappings), uc), ListAt(proposed, uc))
  {
    hide AddNew;
    var left := proposed.Keys;
    while left != {}
      invariant left <= proposed.Keys
      invariant UpdatedFor(table.mappings, old(table.mappings), proposed, proposed.Keys - left)
      decreases left
    {
      var uc :| uc in left;
      ghost var before := table.mappings;
      table.Update(uc, proposed[uc]);
      left := left - {uc};
    }
    NothingProposed();
  }

  lemma NothingProposed()
    ensures forall existing :: AddNew(existing, []) == existing
  {
  }

  method PruneAll(table: Table, g: Gathered) returns (pruned: nat)
    requires g.produced.Keys == g.touched.Keys
    modifies table`mappings
    ensures forall uc :: EntriesOf(table.mappings, uc)
                         == Prune(EntriesOf(old(table.mappings), uc), SetAt(g.produced, uc), SetAt(g.touched, uc))
  {
    hide Prune;
    var left := g.produced.Keys;
    pruned := 0;
    while left != {}
      invariant left <= g.produced.Keys
      invariant PrunedFor(table.mappings, old(table.mappings), g, g.produced.Keys - left)
      decreases left
    {
      var uc :| uc in left;
      ghost var before := table.mappings;
      var n := table.PruneUseCase(uc, g.produced[uc], SetAt(g.touched, uc));
      pruned := pruned + n;
      left := left - {uc};
    }
    forall uc | uc !in g.produced ensures Prune(EntriesOf(table.mappings, uc), {}, {}) == EntriesOf(table.mappings, uc) {
      PruneUntouched(EntriesOf(table.mappings, uc));
    }
  }

  lemma {:induction false} PruneUntouched(existing: seq<Entry>)
    ensures Prune(existing, {}, {}) == existing
  {
    if existing != [] {
      PruneUntouched(existing[1..]);
    }
  }

  /** `compile_features`: render every file, then update and prune the table and record the run. A row that is too
      short for the transport column aborts the run before the table is touched; without files nothing is recorded. */
  method CompileFeatures(files: seq<SourceFile>, table: Table, stamp: seq<string>, sha: string, now: string)
    returns (ok: bool, outputs: map<string, seq<string>>)
    requires DistinctNames(files)
    modifies table
    ensures ok ==> Compiled(files, old(table.mappings), table.mappings, outputs, stamp)
    ensures ok && files != [] ==> table.commit == Some(sha) && table.compiledAt == Some(now)
    ensures !ok || files == [] ==> unchanged(table)
    ensures !ok ==> exists i | 0 <= i < |files| :: Rendering(files[i], table.mappings, stamp).IndexError?
  {
    hide RenderFile, UcKey, ParseFeature, NewsFor, IdsOf, ProducedIds, TouchedFiles, ProposedFor, AddNew, Prune;
    outputs := map[];
    if files == [] {
      NoFilesCompiled(table.mappings, stamp);
      return true, outputs;
    }
    var g := Gathered(map[], map[], map[]);
    assert GatheredFrom(g, [], table.mappings) by {
      NothingGathered(table.mappings);
    }
    for k := 0 to |files|
      invariant unchanged(table)
      invariant GatheredFrom(g, files[..k], table.mappings)
      invariant forall i | 0 <= i < k ::
                  files[i].name in outputs && Rendering(files[i], table.mappings, stamp) == Ok(outputs[files[i].name])
    {
      var f := files[k];
      var feature := ParseFeatureFile(f.lines);
      var uc := UcKey(f.name);
      var r, news, ids := RenderFeature(feature, EntriesOf(table.mappings, uc), f.name, stamp);
      if r.IndexError? {
        assert Rendering(files[k], table.mappings, stamp).IndexError?;
        return false, outputs;
      }
      outputs := outputs[f.name := r.value];
      g := Gather(g, uc, f.name, ids, news, files[..k], f, table.mappings);
      assert files[..k] + [f] == files[..k + 1];
    }
    assert files[..|files|] == files;
    UpdateAll(table, g.proposed);
    var pruned := PruneAll(table, g);
    forall uc ensures EntriesOf(table.mappings, uc) == Settled(files, uc, EntriesOf(old(table.mappings), uc)) {
      assert GatheredAt(g, files, old(table.mappings), uc);
    }
    table.commit, table.compiledAt := Some(sha), Some(now);
    ok := true;
  }

  lemma NoFilesCompiled(m: Mappings, stamp: seq<string>)
    ensures Compiled([], m, m, map[], stamp)
  {
    forall uc ensures Settled([], uc, EntriesOf(m, uc)) == EntriesOf(m, uc) {
      PruneUntouched(EntriesOf(m, uc));
    }
  }

  lemma NothingGathered(m: Mappings)
    ensures GatheredFrom(Gathered(map[], map[], map[]), [], m)
  {
  }
}
