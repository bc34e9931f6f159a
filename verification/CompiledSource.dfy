/** A compile run from the text of a source file to its outputs: the entries of the table, the tags and the scenarios
    that are written. */
module CompiledSource {
  import opened Text
  import opened FeatureParser
  import opened RoundTrip
  import opened StepRewrite
  import opened Traceability
  import opened CompilePipeline
  import opened FileReadsBack
  import opened ContextGitFacts

  // ------------------------------------------------------------------ tags in order

  /** The output tags, one by one: the id first, the obligation of a mapped entry second, `@skip` last. */
  lemma TagsInOrder(tags: seq<string>, id: string, found: Option<Entry>)
    requires "@" + id !in tags && "@skip" !in tags && id != "skip"
    ensures found.None? ==> TagsWith(tags, id, found) == ["@" + id] + tags
    ensures found.Some? && found.value.status == "mapped" && found.value.obligation.Some? && found.value.obligation.value != ""
            && found.value.obligation.value != id && "@" + found.value.obligation.value !in tags ==>
              TagsWith(tags, id, found) == ["@" + id, "@" + found.value.obligation.value] + tags
    ensures found.Some? && (found.value.status == "stale" || found.value.status == "conflict") ==>
              TagsWith(tags, id, found) == ["@" + id] + tags + ["@skip"]
    ensures found.Some? && found.value.status == "new" ==> TagsWith(tags, id, found) == ["@" + id] + tags
  {
    var tagged := ["@" + id] + tags;
    assert "@skip"[1..] == "skip" && ("@" + id)[1..] == id;
    assert tagged[..1] == ["@" + id] && tagged[1..] == tags;
    if found.Some? && found.value.obligation.Some? {
      var o := found.value.obligation.value;
      assert ("@" + o)[1..] == o;
      assert ["@" + id] + ["@" + o] + tags == ["@" + id, "@" + o] + tags;
    }
  }

  /** A tag that is there already is not added again. */
  lemma TagsKept(tags: seq<string>, id: string)
    requires "@" + id in tags
    ensures TagsWith(tags, id, None) == tags
  {
  }

  // ------------------------------------------------------------------ the table after compiling new sources

  function RefsOf(a: Annotated): seq<string> {
    if a.names.Some? then a.names.value else []
  }

  /** A fresh entry for every scenario, in order. */
  function FreshEntries(list: seq<Annotated>, filename: string): seq<Entry> {
    if list == [] then []
    else [Entry(list[0].id, filename, None, RefsOf(list[0]), "new")] + FreshEntries(list[1..], filename)
  }

  function Ids(list: seq<Annotated>): set<string> {
    set a | a in list :: a.id
  }

  ghost predicate DistinctAnnotations(list: seq<Annotated>) {
    forall i, j | 0 <= i < j < |list| :: list[i].id != list[j].id
  }

  lemma {:induction false} NewsOfSource(list: seq<Annotated>, filename: string)
    ensures NewsFor(AllWithComments(list), [], filename) == FreshEntries(list, filename)
    ensures IdsOf(AllWithComments(list)) == Ids(list)
  {
    hide Norm;
    if list != [] {
      NewsOfSource(list[1..], filename);
      var all := AllWithComments(list);
      assert all[1..] == AllWithComments(list[1..]);
      assert Lookup([], list[0].id).None?;
      assert Ids(list) == {list[0].id} + Ids(list[1..]) by {
        assert list == [list[0]] + list[1..];
      }
    } else {
      assert AllWithComments([]) == [] && Ids([]) == {};
    }
  }

  lemma {:induction false} EntryAt(list: seq<Annotated>, filename: string, i: nat)
    requires i < |list|
    ensures |FreshEntries(list, filename)| == |list|
    ensures FreshEntries(list, filename)[i] == Entry(list[i].id, filename, None, RefsOf(list[i]), "new")
  {
    if |list| == 1 {
      assert list[1..] == [] && FreshEntries([], filename) == [];
    } else if i == 0 {
      EntryAt(list[1..], filename, 0);
    } else {
      EntryAt(list[1..], filename, i - 1);
    }
  }

  lemma OtherIds(news: seq<Entry>)
    requires DistinctIds(news) && news != []
    ensures DistinctIds(news[1..]) && forall e | e in news[1..] :: e.id != news[0].id && e in news
  {
    forall e | e in news[1..] ensures e.id != news[0].id {
      var k :| 0 <= k < |news[1..]| && news[1..][k] == e;
      assert news[k + 1] == e;
    }
  }

  lemma {:induction false} AllAppended(existing: seq<Entry>, news: seq<Entry>)
    requires DistinctIds(news) && forall e | e in news :: !HasId(existing, e.id)
    ensures AddNew(existing, news) == existing + news
    decreases |news|
  {
    hide HasId, DistinctIds;
    if news == [] {
      assert existing + news == existing;
    } else {
      assert news[0] in news;
      OtherIds(news);
      HasIdSnoc(existing, news[0]);
      AllAppended(existing + [news[0]], news[1..]);
      assert existing + [news[0]] + news[1..] == existing + news;
    }
  }

  lemma {:induction false} AllStay(entries: seq<Entry>, produced: set<string>, touched: set<string>)
    requires forall i | 0 <= i < |entries| :: entries[i].id in produced
    ensures Prune(entries, produced, touched) == entries
  {
    if entries != [] {
      assert forall i | 0 <= i < |entries| - 1 :: entries[1..][i] == entries[i + 1];
      AllStay(entries[1..], produced, touched);
    }
  }

  lemma FreshFacts(list: seq<Annotated>, filename: string)
    requires DistinctAnnotations(list)
    ensures DistinctIds(FreshEntries(list, filename))
    ensures forall i | 0 <= i < |FreshEntries(list, filename)| :: FreshEntries(list, filename)[i].id in Ids(list)
  {
    hide FreshEntries;
    var entries := FreshEntries(list, filename);
    if list == [] {
      assert entries == [] by {
        NoFresh(filename);
      }
    } else {
      EntryAt(list, filename, 0);
      forall i | 0 <= i < |entries| ensures entries[i].id == list[i].id && list[i] in list {
        EntryAt(list, filename, i);
      }
    }
  }

  lemma NoFresh(filename: string)
    ensures FreshEntries([], filename) == []
  {
  }

  /** A source file as it is written upstream. */
  function SourceText(featureLine: string, description: seq<string>, background: seq<string>, list: seq<Annotated>): seq<string> {
    [featureLine] + description + background + SourceLines(list)
  }

  ghost predicate SourceTextOk(featureLine: string, description: seq<string>, background: seq<string>, list: seq<Annotated>) {
    && FeatureLineOk(featureLine) && DescriptionOk(description) && BackgroundOk(background)
    && (forall i | 0 <= i < |list| :: AnnotatedOk(list[i])) && DistinctAnnotations(list)
  }

  /** Compiling a source file for a use case without entries leaves one entry per scenario: its id, the file, no
      obligation, its upstream names, status `new`, in the order of the file. */
  lemma FreshCompile(name: string, featureLine: string, description: seq<string>, background: seq<string>, list: seq<Annotated>)
    requires SourceTextOk(featureLine, description, background, list)
    ensures var file := SourceFile(name, SourceText(featureLine, description, background, list));
            Settled([file], KeyOf(file), []) == FreshEntries(list, name)
  {
    hide ParseFeature, NewsFor, IdsOf, AddNew, Prune, FreshEntries, SourceText, AnnotatedOk, FeatureLineOk, DescriptionOk,
         BackgroundOk, DistinctIds, HasId, DistinctAnnotations;
    var file := SourceFile(name, SourceText(featureLine, description, background, list));
    assert ParseFeature(file.lines).scenarios == AllWithComments(list) by {
      SourceScenarios(featureLine, description, background, list);
    }
    NewsOfSource(list, name);
    OneFile(file, []);
    FreshFacts(list, name);
    NothingThere(FreshEntries(list, name));
    AllAppended([], FreshEntries(list, name));
    assert [] + FreshEntries(list, name) == FreshEntries(list, name);
    AllStay(FreshEntries(list, name), Ids(list), {name});
  }

  lemma SourceScenarios(featureLine: string, description: seq<string>, background: seq<string>, list: seq<Annotated>)
    requires SourceTextOk(featureLine, description, background, list)
    ensures ParseFeature(SourceText(featureLine, description, background, list)).scenarios == AllWithComments(list)
  {
    hide ParseFeature, AnnotatedOk, FeatureLineOk, DescriptionOk, BackgroundOk, DistinctAnnotations, SourceLines, AllWithComments;
    SourceFileRead(featureLine, description, background, list);
  }

  lemma NothingThere(entries: seq<Entry>)
    ensures forall e | e in entries :: !HasId([], e.id)
  {
  }

  lemma OneFile(file: SourceFile, existing: seq<Entry>)
    ensures var uc := KeyOf(file);
            var scenarios := ParseFeature(file.lines).scenarios;
            && ProducedIds([file], uc) == IdsOf(scenarios) && TouchedFiles([file], uc) == {file.name}
            && ProposedFor([file], uc, existing) == NewsFor(scenarios, existing, file.name)
  {
    hide ParseFeature, NewsFor, IdsOf, KeyOf;
    var uc := KeyOf(file);
    assert [file][1..] == [];
    assert ProducedIds([], uc) == {} && TouchedFiles([], uc) == {} && ProposedFor([], uc, existing) == [];
    var news := NewsFor(ParseFeature(file.lines).scenarios, existing, file.name);
    assert news + [] == news;
  }

  // ------------------------------------------------------------------ the scenarios that are written

  lemma {:induction false} CommentedAt(list: seq<Annotated>, i: nat)
    requires i < |list|
    ensures |AllWithComments(list)| == |list| && AllWithComments(list)[i] == WithComment(list[i])
  {
    hide WithComment;
    if |list| == 1 {
      assert list[1..] == [] && AllWithComments([]) == [];
    } else if i == 0 {
      CommentedAt(list[1..], 0);
    } else {
      CommentedAt(list[1..], i - 1);
    }
  }

  /** What a compile run writes for a scenario of the source: its id as the first tag, unless it is a tag already,
      its steps rewritten, and, when `<transport>` is not in its name, everything else as it is up to white space. */
  lemma WrittenFromSource(a: Annotated)
    requires AnnotatedOk(a) && !Contains(RStrip(a.scenario.name), "<transport>")
    ensures var w := WriteScenario(WithComment(a), []);
            && w.Ok?
            && w.value == WithComment(a).(
                 steps := RewriteSteps(NormSteps(a.scenario.steps)),
                 tags := if "@" + a.id in a.scenario.tags then a.scenario.tags else ["@" + a.id] + a.scenario.tags)
  {
    hide Contains, RewriteSteps, NormSteps, NormBlocks, RStrip;
    assert Lookup([], a.id).None?;
    if "@" + a.id in a.scenario.tags {
      TagsKept(a.scenario.tags, a.id);
    }
  }
}
