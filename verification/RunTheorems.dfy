/** What a whole compile run does to the mapping table, and why verification accepts what it wrote. */
module RunTheorems {
  import opened Text
  import opened Gherkin
  import opened FeatureParser
  import opened FeatureRender
  import opened StepRewrite
  import opened Traceability
  import opened UseCases
  import opened CompilePipeline

  // ------------------------------------------------------------------ what a run proposes

  predicate AllNew(news: seq<Entry>) {
    forall i | 0 <= i < |news| :: news[i].status == "new"
  }

  lemma {:induction false} NewsFacts(scenarios: seq<Scenario>, entries: seq<Entry>, filename: string, id: string)
    ensures AllNew(NewsFor(scenarios, entries, filename))
    ensures HasId(NewsFor(scenarios, entries, filename), id) <==> (id in IdsOf(scenarios) && Lookup(entries, id).None?)
    ensures forall e | e in NewsFor(scenarios, entries, filename) :: e.feature == filename
  {
    hide Lookup;
    if scenarios != [] {
      NewsFacts(scenarios[1..], entries, filename, id);
      var mapping := NewMapping(scenarios[0], entries, filename);
      if mapping.Some? {
        NewsIds(NewsFor(scenarios, entries, filename));
        assert NewsFor(scenarios, entries, filename)[1..] == NewsFor(scenarios[1..], entries, filename);
      } else {
        assert NewsFor(scenarios, entries, filename) == NewsFor(scenarios[1..], entries, filename);
      }
    }
  }

  lemma HasIdAppend(a: seq<Entry>, b: seq<Entry>, id: string)
    ensures HasId(a + b, id) <==> (HasId(a, id) || HasId(b, id))
  {
    if HasId(a, id) {
      var i :| 0 <= i < |a| && a[i].id == id;
      assert (a + b)[i].id == id;
    }
    if HasId(b, id) {
      var i :| 0 <= i < |b| && b[i].id == id;
      assert (a + b)[|a| + i].id == id;
    }
    if HasId(a + b, id) {
      var i :| 0 <= i < |a + b| && (a + b)[i].id == id;
      assert if i < |a| then a[i].id == id else b[i - |a|].id == id;
    }
  }

  /** The run proposes exactly the produced ids that the table does not have, all with status `new`. */
  lemma {:induction false} ProposedFacts(files: seq<SourceFile>, uc: string, entries: seq<Entry>, id: string)
    ensures AllNew(ProposedFor(files, uc, entries))
    ensures HasId(ProposedFor(files, uc, entries), id) <==> (id in ProducedIds(files, uc) && Lookup(entries, id).None?)
    ensures forall e | e in ProposedFor(files, uc, entries) :: e.feature in TouchedFiles(files, uc)
  {
    hide Lookup, KeyOf, IdsOf, NewsFor, ParseFeature, HasId;
    if files == [] {
      NoIds(id);
    } else {
      ProposedFacts(files[1..], uc, entries, id);
      var scenarios := ParseFeature(files[0].lines).scenarios;
      NewsFacts(scenarios, entries, files[0].name, id);
      if KeyOf(files[0]) == uc {
        HasIdAppend(NewsFor(scenarios, entries, files[0].name), ProposedFor(files[1..], uc, entries), id);
      } else {
        assert [] + ProposedFor(files[1..], uc, entries) == ProposedFor(files[1..], uc, entries);
      }
    }
  }

  // ------------------------------------------------------------------ the table after a run

  /** Every id the run produced has an entry. */
  lemma ProducedIdsCovered(files: seq<SourceFile>, uc: string, existing: seq<Entry>, id: string)
    requires id in ProducedIds(files, uc)
    ensures HasId(Settled(files, uc, existing), id)
  {
    hide ProposedFor, ProducedIds, TouchedFiles, AddNew, Prune, Lookup, HasId;
    var news := ProposedFor(files, uc, existing);
    ProposedFacts(files, uc, existing, id);
    LookupFinds(existing, id);
    UpdateCovers(existing, news, id);
    var updated := AddNew(existing, news);
    LookupFinds(updated, id);
    PruneKeepsLookup(updated, ProducedIds(files, uc), TouchedFiles(files, uc), id);
    LookupFinds(Settled(files, uc, existing), id);
  }

  /** Which entries are there afterwards: an old entry survives unless a touched file owns it and its id was
      not produced, and everything else there is a fresh `new` entry for a produced id. */
  lemma SettledMembers(files: seq<SourceFile>, uc: string, existing: seq<Entry>, e: Entry)
    ensures e in existing ==>
              (e in Settled(files, uc, existing) <==> Stays(e, ProducedIds(files, uc), TouchedFiles(files, uc)))
    ensures e in Settled(files, uc, existing) && e !in existing ==>
              e.status == "new" && e.id in ProducedIds(files, uc) && Lookup(existing, e.id).None?
              && e.feature in TouchedFiles(files, uc)
  {
    hide ProposedFor, ProducedIds, TouchedFiles, AddNew, Prune, Lookup, HasId, Stays;
    var news := ProposedFor(files, uc, existing);
    var added := UpdateAppends(existing, news);
    PruneMember(AddNew(existing, news), ProducedIds(files, uc), TouchedFiles(files, uc), e);
    ProposedFacts(files, uc, existing, e.id);
    if e in added {
      MemberHasId(news, e);
    }
  }

  lemma MemberHasId(entries: seq<Entry>, e: Entry)
    requires e in entries
    ensures HasId(entries, e.id)
  {
  }

  /** Distinct ids stay distinct over a run. */
  lemma SettledDistinct(files: seq<SourceFile>, uc: string, existing: seq<Entry>)
    requires DistinctIds(existing)
    ensures DistinctIds(Settled(files, uc, existing))
  {
    hide ProposedFor, ProducedIds, TouchedFiles, AddNew, Prune, DistinctIds, Selects;
    var updated := AddNew(existing, ProposedFor(files, uc, existing));
    UpdateKeepsDistinct(existing, ProposedFor(files, uc, existing));
    var positions := PruneExact(updated, ProducedIds(files, uc), TouchedFiles(files, uc));
    SelectionDistinct(updated, Settled(files, uc, existing), positions);
  }

  lemma SelectionDistinct(existing: seq<Entry>, kept: seq<Entry>, positions: seq<nat>)
    requires Selects(existing, kept, positions) && DistinctIds(existing)
    ensures DistinctIds(kept)
  {
    forall i, j | 0 <= i < j < |kept| ensures kept[i].id != kept[j].id {
      assert positions[i] < positions[j];
    }
  }

  /** A second identical run proposes nothing, prunes nothing and leaves the table as it is. */
  lemma SecondRunChangesNothing(files: seq<SourceFile>, uc: string, existing: seq<Entry>)
    ensures var settled := Settled(files, uc, existing);
            && ProposedFor(files, uc, settled) == []
            && PrunedCount(settled, ProducedIds(files, uc), TouchedFiles(files, uc)) == 0
            && Settled(files, uc, settled) == settled
  {
    hide ProducedIds, TouchedFiles, Prune, Lookup, HasId, ProposedFor;
    var settled := Settled(files, uc, existing);
    var news := ProposedFor(files, uc, settled);
    if news != [] {
      var id := news[0].id;
      MemberHasId(news, news[0]);
      ProposedFacts(files, uc, settled, id);
      ProducedIdsCovered(files, uc, existing, id);
      LookupFinds(settled, id);
    }
    PruneTwice(AddNew(existing, ProposedFor(files, uc, existing)), ProducedIds(files, uc), TouchedFiles(files, uc));
  }

  // ------------------------------------------------------------------ verification accepts what a run wrote

  /** The lookup of a produced id: unchanged, or a fresh entry with status `new`. */
  lemma SettledLookup(files: seq<SourceFile>, uc: string, existing: seq<Entry>, id: string)
    requires id in ProducedIds(files, uc)
    ensures var found, after := Lookup(existing, id), Lookup(Settled(files, uc, existing), id);
            if found.Some? then after == found else after.Some? && after.value.status == "new"
  {
    hide ProposedFor, ProducedIds, TouchedFiles, AddNew, Prune, Lookup, HasId;
    var news := ProposedFor(files, uc, existing);
    var added := UpdateAppends(existing, news);
    PruneKeepsLookup(AddNew(existing, news), ProducedIds(files, uc), TouchedFiles(files, uc), id);
    LookupAppend(existing, added, id);
    ProposedFacts(files, uc, existing, id);
    ProducedIdsCovered(files, uc, existing, id);
    LookupFinds(Settled(files, uc, existing), id);
    LookupFinds(added, id);
  }

  /** A missing mapping and a mapping with status `new` give the same tags. */
  lemma NewTagsNothing(tags: seq<string>, id: string, e: Entry)
    requires e.status == "new"
    ensures TagsWith(tags, id, Some(e)) == TagsWith(tags, id, None)
  {
  }

  ghost predicate SameTags(scenarios: seq<Scenario>, a: seq<Entry>, b: seq<Entry>) {
    forall i | 0 <= i < |scenarios| :: OutputTags(scenarios[i], a) == OutputTags(scenarios[i], b)
  }

  lemma {:induction false} SameTagsSameText(scenarios: seq<Scenario>, a: seq<Entry>, b: seq<Entry>)
    requires SameTags(scenarios, a, b)
    ensures WriteAll(scenarios, a) == WriteAll(scenarios, b)
  {
    hide OutputTags, Rewrite;
    if scenarios != [] {
      assert OutputTags(scenarios[0], a) == OutputTags(scenarios[0], b);
      assert forall i | 0 <= i < |scenarios[1..]| :: scenarios[1..][i] == scenarios[i + 1];
      SameTagsSameText(scenarios[1..], a, b);
    }
  }

  lemma {:induction false} IdProduced(files: seq<SourceFile>, k: nat, id: string)
    requires k < |files| && id in IdsOf(ParseFeature(files[k].lines).scenarios)
    ensures id in ProducedIds(files, KeyOf(files[k]))
  {
    hide IdsOf, ParseFeature, KeyOf;
    if k > 0 {
      IdProduced(files[1..], k - 1, id);
    }
  }

  lemma {:induction false} ScenarioIdIn(scenarios: seq<Scenario>, i: nat)
    requires i < |scenarios| && scenarios[i].contextgit.Some?
    ensures scenarios[i].contextgit.value.id in IdsOf(scenarios)
  {
    if i > 0 {
      ScenarioIdIn(scenarios[1..], i - 1);
    }
  }

  /** The body that `verify_features` compares: everything after the two stamp lines. */
  function BodyOf(lines: seq<string>): seq<string> {
    if |lines| >= 2 then lines[2..] else []
  }

  /** The compiled file is there, and from its third line on it is what would be rendered now. */
  predicate Current(f: SourceFile, outputs: map<string, seq<string>>, m: Mappings, stamp: seq<string>) {
    && f.name in outputs
    && var r := Rendering(f, m, stamp);
    && r.Ok? && |outputs[f.name]| == |r.value|
    && forall j | 2 <= j < |r.value| :: outputs[f.name][j] == r.value[j]
  }

  /** Comparing the bodies is comparing the lines from the third on, against a text that has a third line. */
  lemma SameBody(a: seq<string>, b: seq<string>)
    requires |a| >= 3
    ensures BodyOf(a) == BodyOf(b) <==> |b| == |a| && forall j | 2 <= j < |a| :: b[j] == a[j]
  {
    if BodyOf(a) == BodyOf(b) {
      assert |b| >= 2 && |b[2..]| == |a[2..]|;
      forall j | 2 <= j < |a| ensures b[j] == a[j] {
        assert a[2..][j - 2] == b[2..][j - 2];
      }
    }
  }

  lemma RenderingLength(f: SourceFile, m: Mappings, stamp: seq<string>)
    ensures var r := Rendering(f, m, stamp); r.Ok? ==> |r.value| > |stamp|
  {
    hide WriteAll, ParseFeature, KeyOf, Join, RStripAll, RenderAll, CompiledBackground;
  }

  /** `verify_features`: the sha bookkeeping, then every file against a fresh rendering, line by line from the third
      on. Returns no verdict when a rendering raises. */
  method VerifyFeatures(files: seq<SourceFile>, outputs: map<string, seq<string>>, table: Table,
                        sha: string, now: string) returns (ok: Result<bool>)
    ensures table.commit != Some(sha) ==> ok == Ok(false)
    ensures table.commit == Some(sha) && ok.Ok? ==>
              (ok.value <==>
                 forall i | 0 <= i < |files| ::
                   && files[i].name in outputs
                   && var r := Rendering(files[i], table.mappings, CompileStamp(sha, now));
                   && r.Ok? && |outputs[files[i].name]| == |r.value|
                   && forall j | 2 <= j < |r.value| :: outputs[files[i].name][j] == r.value[j])
    ensures (forall i | 0 <= i < |files| :: Rendering(files[i], table.mappings, CompileStamp(sha, now)).Ok?) ==> ok.Ok?
  {
    hide Rendering, CompileStamp, BodyOf;
    if table.commit != Some(sha) {
      return Ok(false);
    }
    var stale, missing: seq<string> := [], [];
    for k := 0 to |files|
      invariant (stale == [] && missing == [])
                <==> forall i | 0 <= i < k :: Current(files[i], outputs, table.mappings, CompileStamp(sha, now))
    {
      var f := files[k];
      if f.name !in outputs {
        missing := missing + [f.name];
        continue;
      }
      var current := CheckFile(f, outputs, table.mappings, sha, now);
      if current.IndexError? {
        return IndexError;
      }
      if !current.value {
        stale := stale + [f.name];
      }
    }
    return Ok(stale == [] && missing == []);
  }

  /** Re-compile one file in memory and compare. */
  method CheckFile(f: SourceFile, outputs: map<string, seq<string>>, m: Mappings, sha: string, now: string)
    returns (current: Result<bool>)
    requires f.name in outputs
    ensures current == match Rendering(f, m, CompileStamp(sha, now))
                       case IndexError => IndexError
                       case Ok(_) => Ok(Current(f, outputs, m, CompileStamp(sha, now)))
  {
    var stamp := CompileStamp(sha, now);
    hide RenderFile, UcKey, BodyOf, ParseFeature;
    var feature := ParseFeatureFile(f.lines);
    var expected, _, _ := RenderFeature(feature, EntriesOf(m, UcKey(f.name)), f.name, stamp);
    if expected.IndexError? {
      return IndexError;
    }
    RenderingLength(f, m, stamp);
    SameBody(expected.value, outputs[f.name]);
    return Ok(BodyOf(expected.value) == BodyOf(outputs[f.name]));
  }

  lemma StampedBody(stamp: seq<string>, other: seq<string>, rest: seq<string>)
    requires |stamp| == |other| == 3 && stamp[2] == other[2]
    ensures BodyOf(stamp + rest) == BodyOf(other + rest)
  {
  }

  /** After a compile run, verification at the same commit finds every file current, whatever the clock says. */
  lemma VerifyAcceptsCompiled(files: seq<SourceFile>, before: Mappings, after: Mappings,
                              outputs: map<string, seq<string>>, sha: string, now: string, later: string)
    requires Compiled(files, before, after, outputs, CompileStamp(sha, now))
    ensures forall i | 0 <= i < |files| :: Current(files[i], outputs, after, CompileStamp(sha, later))
  {
    hide WriteAll, ParseFeature, UcKey, FeatureHead, CompiledBackground, BodyOf, Settled, RenderAll, OutputTags, IdsOf,
         EntriesOf;
    forall k | 0 <= k < |files| ensures Current(files[k], outputs, after, CompileStamp(sha, later)) {
      var f := files[k];
      var uc := KeyOf(f);
      var feature := ParseFeature(f.lines);
      forall i | 0 <= i < |feature.scenarios|
        ensures OutputTags(feature.scenarios[i], EntriesOf(before, uc)) == OutputTags(feature.scenarios[i], EntriesOf(after, uc)) {
        SettledTags(files, k, i, EntriesOf(before, uc));
      }
      SameTagsSameText(feature.scenarios, EntriesOf(before, uc), EntriesOf(after, uc));
      assert Rendering(f, before, CompileStamp(sha, now)) == Ok(outputs[f.name]);
      var written := WriteAll(feature.scenarios, EntriesOf(before, uc)).value;
      var rest := FeatureHead(feature) + CompiledBackground(feature) + RenderAll(written);
      SameBody(CompileStamp(sha, now) + rest, CompileStamp(sha, later) + rest);
      StampedBody(CompileStamp(sha, now), CompileStamp(sha, later), rest);
      assert CompileStamp(sha, now) + FeatureHead(feature) + CompiledBackground(feature) + RenderAll(written)
          == CompileStamp(sha, now) + rest;
      assert CompileStamp(sha, later) + FeatureHead(feature) + CompiledBackground(feature) + RenderAll(written)
          == CompileStamp(sha, later) + rest;
    }
  }

  /** After a compile run, whatever files are found then: verification at the same commit takes a file for current
      if and only if it is there with as many lines as were written, and the same ones from the third on. */
  lemma CurrentAfterRun(files: seq<SourceFile>, before: Mappings, after: Mappings, outputs: map<string, seq<string>>,
                        found: map<string, seq<string>>, sha: string, now: string, later: string, k: nat)
    requires Compiled(files, before, after, outputs, CompileStamp(sha, now)) && k < |files|
    ensures files[k].name in outputs
    ensures var written := outputs[files[k].name];
            Current(files[k], found, after, CompileStamp(sha, later))
            <==> (files[k].name in found && |found[files[k].name]| == |written|
                  && forall j | 2 <= j < |written| :: found[files[k].name][j] == written[j])
  {
    hide Rendering, CompileStamp, Settled;
    VerifyAcceptsCompiled(files, before, after, outputs, sha, now, later);
    assert Current(files[k], outputs, after, CompileStamp(sha, later));
  }

  /** So a line changed, added or removed after the stamp makes verification fail. */
  lemma ChangedIsStale(files: seq<SourceFile>, before: Mappings, after: Mappings, outputs: map<string, seq<string>>,
                       changed: seq<string>, sha: string, now: string, later: string, k: nat)
    requires Compiled(files, before, after, outputs, CompileStamp(sha, now)) && k < |files|
    requires var written := outputs[files[k].name];
             |changed| != |written| || exists j | 2 <= j < |written| :: changed[j] != written[j]
    ensures !(forall i | 0 <= i < |files| ::
                Current(files[i], outputs[files[k].name := changed], after, CompileStamp(sha, later)))
  {
    hide Current, CompileStamp, Compiled;
    CurrentAfterRun(files, before, after, outputs, outputs[files[k].name := changed], sha, now, later, k);
  }

  lemma SettledTags(files: seq<SourceFile>, k: nat, i: nat, existing: seq<Entry>)
    requires k < |files| && i < |ParseFeature(files[k].lines).scenarios|
    ensures var s := ParseFeature(files[k].lines).scenarios[i];
            OutputTags(s, existing) == OutputTags(s, Settled(files, KeyOf(files[k]), existing))
  {
    hide ParseFeature, KeyOf, Settled, IdsOf, Lookup, TagsWith, ProducedIds;
    var scenarios := ParseFeature(files[k].lines).scenarios;
    var s := scenarios[i];
    if s.contextgit.Some? {
      var id := s.contextgit.value.id;
      ScenarioIdIn(scenarios, i);
      IdProduced(files, k, id);
      SettledLookup(files, KeyOf(files[k]), existing, id);
      var after := Lookup(Settled(files, KeyOf(files[k]), existing), id);
      if Lookup(existing, id).None? {
        NewTagsNothing(s.tags, id, after.value);
      }
    }
  }
}
