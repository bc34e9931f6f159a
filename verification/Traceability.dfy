/** The scenario mapping table: lookup, the tags it contributes, and its update and prune at the end of a run. */
module Traceability {
  import opened Text
  import opened Gherkin

  datatype Entry = Entry(id: string, feature: string, obligation: Option<string>, upstream: seq<string>, status: string)

  /** The entries of every use case. */
  type Mappings = map<string, seq<Entry>>

  function EntriesOf(m: Mappings, uc: string): seq<Entry> {
    if uc in m then m[uc] else []
  }

  /** `_lookup_scenario_mapping`: the first entry with the id. */
  function Lookup(entries: seq<Entry>, id: string): Option<Entry> {
    if entries == [] then None
    else if entries[0].id == id then Some(entries[0])
    else Lookup(entries[1..], id)
  }

  /** The output tags of `_transform_scenario_tags`, given what the lookup found. */
  function TagsWith(tags: seq<string>, id: string, found: Option<Entry>): seq<string> {
    var tagged := if "@" + id in tags then tags else ["@" + id] + tags;
    match found
    case None => tagged
    case Some(m) =>
      if m.status == "mapped" then
        (match m.obligation
         case None => tagged
         case Some(o) => if o == "" || "@" + o in tagged then tagged else tagged[..1] + ["@" + o] + tagged[1..])
      else if (m.status == "stale" || m.status == "conflict") && "@skip" !in tagged then tagged + ["@skip"]
      else tagged
  }

  function OutputTags(s: Scenario, entries: seq<Entry>): seq<string> {
    if s.contextgit.None? then s.tags
    else TagsWith(s.tags, s.contextgit.value.id, Lookup(entries, s.contextgit.value.id))
  }

  /** The mapping that `_transform_scenario_tags` proposes for an id the table does not have. */
  function NewMapping(s: Scenario, entries: seq<Entry>, filename: string): Option<Entry> {
    if s.contextgit.Some? && Lookup(entries, s.contextgit.value.id).None? then
      Some(Entry(s.contextgit.value.id, filename, None, s.contextgit.value.upstream, "new"))
    else None
  }

  /** The tag that the status of a mapping adds. */
  function StatusTag(found: Option<Entry>): Option<string> {
    match found
    case None => None
    case Some(m) =>
      if m.status == "mapped" then
        (if m.obligation.Some? && m.obligation.value != "" then Some("@" + m.obligation.value) else None)
      else if m.status == "stale" || m.status == "conflict" then Some("@skip")
      else None
  }

  function AsSet(tags: seq<string>): set<string> {
    set t | t in tags
  }

  lemma InsertedSet(a: seq<string>, t: string, b: seq<string>)
    ensures AsSet(a + [t] + b) == AsSet(a + b) + {t}
  {
  }

  /** The output tags are the scenario's own, its id, and what the status adds; nothing is added twice. */
  lemma TagsExactly(tags: seq<string>, id: string, found: Option<Entry>)
    ensures AsSet(TagsWith(tags, id, found))
            == AsSet(tags) + {"@" + id} + (if StatusTag(found).Some? then {StatusTag(found).value} else {})
    ensures |TagsWith(tags, id, found)|
            == |tags| + (if "@" + id in tags then 0 else 1)
               + (if StatusTag(found).Some? && StatusTag(found).value !in tags && StatusTag(found).value != "@" + id then 1 else 0)
  {
    hide AsSet;
    var tagged := if "@" + id in tags then tags else ["@" + id] + tags;
    assert AsSet(tagged) == AsSet(tags) + {"@" + id} by {
      TaggedSet(tags, "@" + id);
    }
    assert forall t :: t in tagged <==> t in tags || t == "@" + id;
    var added := StatusTag(found);
    if added.Some? {
      if added.value in tagged {
        MemberOfSet(tagged, added.value);
      } else {
        InsertedSet(tagged[..1], added.value, tagged[1..]);
        InsertedSet(tagged, added.value, []);
        assert tagged[..1] + tagged[1..] == tagged && tagged + [] == tagged;
        assert tagged + [added.value] + [] == tagged + [added.value];
      }
    }
  }

  lemma TaggedSet(tags: seq<string>, tag: string)
    ensures AsSet(if tag in tags then tags else [tag] + tags) == AsSet(tags) + {tag}
  {
  }

  lemma MemberOfSet(tags: seq<string>, tag: string)
    requires tag in tags
    ensures AsSet(tags) + {tag} == AsSet(tags)
  {
  }

  // ------------------------------------------------------------------ update and prune

  predicate HasId(entries: seq<Entry>, id: string) {
    exists i | 0 <= i < |entries| :: entries[i].id == id
  }

  /** Append the entries whose id is not there yet. */
  function AddNew(existing: seq<Entry>, news: seq<Entry>): seq<Entry>
    decreases |news|
  {
    if news == [] then existing
    else AddNew(if HasId(existing, news[0].id) then existing else existing + [news[0]], news[1..])
  }

  /** An entry stays unless a touched file owns it and its id was not produced. */
  predicate Stays(e: Entry, produced: set<string>, touched: set<string>) {
    e.feature in touched ==> e.id in produced
  }

  function Prune(existing: seq<Entry>, produced: set<string>, touched: set<string>): seq<Entry> {
    if existing == [] then []
    else (if Stays(existing[0], produced, touched) then [existing[0]] else []) + Prune(existing[1..], produced, touched)
  }

  function PrunedCount(existing: seq<Entry>, produced: set<string>, touched: set<string>): nat {
    if existing == [] then 0
    else (if Stays(existing[0], produced, touched) then 0 else 1) + PrunedCount(existing[1..], produced, touched)
  }

  /** The table object that a run updates in place. */
  class Table {
    var mappings: Mappings
    /** The commit and the time of the last run. */
    var commit: Option<string>
    var compiledAt: Option<string>

    constructor (m: Mappings)
      ensures mappings == m && commit == None && compiledAt == None
    {
      mappings, commit, compiledAt := m, None, None;
    }

    /** The update loop for one use case. */
    method Update(uc: string, news: seq<Entry>)
      modifies this`mappings
      ensures mappings == old(mappings)[uc := AddNew(EntriesOf(old(mappings), uc), news)]
    {
      var existing := if uc in mappings then mappings[uc] else [];
      ghost var before := existing;
      var ids := set i | 0 <= i < |existing| :: existing[i].id;
      for k := 0 to |news|
        invariant AddNew(before, news) == AddNew(existing, news[k..])
        invariant forall id :: id in ids <==> HasId(existing, id)
      {
        var nm := news[k];
        assert news[k..][0] == nm && news[k..][1..] == news[k + 1..];
        if nm.id !in ids {
          assert forall id :: HasId(existing + [nm], id) <==> (HasId(existing, id) || id == nm.id) by {
            HasIdSnoc(existing, nm);
          }
          existing := existing + [nm];
          ids := ids + {nm.id};
        }
      }
      mappings := mappings[uc := existing];
    }

    /** The prune loop for one use case; returns how many entries it dropped. */
    method PruneUseCase(uc: string, produced: set<string>, touched: set<string>) returns (pruned: nat)
      modifies this`mappings
      ensures mappings == old(mappings)[uc := Prune(EntriesOf(old(mappings), uc), produced, touched)]
      ensures pruned == PrunedCount(EntriesOf(old(mappings), uc), produced, touched)
    {
      var existing := if uc in mappings then mappings[uc] else [];
      var kept: seq<Entry> := [];
      pruned := 0;
      for k := 0 to |existing|
        invariant mappings == old(mappings)
        invariant kept == Prune(existing[..k], produced, touched)
        invariant pruned == PrunedCount(existing[..k], produced, touched)
      {
        var m := existing[k];
        assert existing[..k + 1] == existing[..k] + [m];
        PruneSnoc(existing[..k], m, produced, touched);
        if m.feature in touched {
          if m.id in produced {
            kept := kept + [m];
          } else {
            pruned := pruned + 1;
          }
        } else {
          kept := kept + [m];
        }
      }
      assert existing[..|existing|] == existing;
      mappings := mappings[uc := kept];
    }
  }

  lemma {:induction false} PruneSnoc(existing: seq<Entry>, m: Entry, produced: set<string>, touched: set<string>)
    ensures Prune(existing + [m], produced, touched)
            == Prune(existing, produced, touched) + (if Stays(m, produced, touched) then [m] else [])
    ensures PrunedCount(existing + [m], produced, touched)
            == PrunedCount(existing, produced, touched) + (if Stays(m, produced, touched) then 0 else 1)
  {
    hide Stays;
    if existing == [] {
      assert existing + [m] == [m];
      assert [m][1..] == [];
    } else {
      var longer := existing + [m];
      assert longer[1..] == existing[1..] + [m] && longer[0] == existing[0];
      PruneSnoc(existing[1..], m, produced, touched);
      var first := if Stays(existing[0], produced, touched) then [existing[0]] else [];
      var last := if Stays(m, produced, touched) then [m] else [];
      assert first + (Prune(existing[1..], produced, touched) + last)
          == (first + Prune(existing[1..], produced, touched)) + last;
    }
  }

  lemma HasIdSnoc(existing: seq<Entry>, nm: Entry)
    ensures forall id :: HasId(existing + [nm], id) <==> (HasId(existing, id) || id == nm.id)
  {
    forall id ensures HasId(existing + [nm], id) <==> (HasId(existing, id) || id == nm.id) {
      if HasId(existing, id) {
        var i :| 0 <= i < |existing| && existing[i].id == id;
        assert (existing + [nm])[i].id == id;
      }
      assert (existing + [nm])[|existing|] == nm;
    }
  }

  // ------------------------------------------------------------------ what update and prune keep

  lemma {:induction false} LookupFinds(entries: seq<Entry>, id: string)
    ensures Lookup(entries, id).Some? <==> HasId(entries, id)
    ensures Lookup(entries, id).Some? ==> Lookup(entries, id).value in entries && Lookup(entries, id).value.id == id
  {
    if entries != [] && entries[0].id != id {
      LookupFinds(entries[1..], id);
      if HasId(entries, id) {
        var i :| 0 <= i < |entries| && entries[i].id == id;
        assert entries[1..][i - 1].id == id;
      }
    }
  }

  lemma {:induction false} LookupAppend(entries: seq<Entry>, more: seq<Entry>, id: string)
    ensures Lookup(entries + more, id) == if Lookup(entries, id).Some? then Lookup(entries, id) else Lookup(more, id)
  {
    if entries == [] {
      assert entries + more == more;
    } else {
      assert (entries + more)[1..] == entries[1..] + more;
      LookupAppend(entries[1..], more, id);
    }
  }

  predicate DistinctIds(entries: seq<Entry>) {
    forall i, j | 0 <= i < j < |entries| :: entries[i].id != entries[j].id
  }

  /** Update appends: old entries stay first and unchanged, and the appended ids are new and distinct. */
  lemma {:induction false} UpdateAppends(existing: seq<Entry>, news: seq<Entry>) returns (added: seq<Entry>)
    ensures AddNew(existing, news) == existing + added
    ensures DistinctIds(added)
    ensures forall e | e in added :: e in news && !HasId(existing, e.id)
    decreases |news|
  {
    hide HasId;
    if news == [] {
      added := [];
      assert existing + [] == existing;
    } else if HasId(existing, news[0].id) {
      added := UpdateAppends(existing, news[1..]);
    } else {
      var rest := UpdateAppends(existing + [news[0]], news[1..]);
      added := [news[0]] + rest;
      assert existing + [news[0]] + rest == existing + added;
      HasIdSnoc(existing, news[0]);
    }
  }

  /** After the update exactly the old and the proposed ids have an entry. */
  lemma {:induction false} UpdateCovers(existing: seq<Entry>, news: seq<Entry>, id: string)
    ensures HasId(AddNew(existing, news), id) <==> (HasId(existing, id) || HasId(news, id))
    decreases |news|
  {
    hide HasId;
    if news == [] {
      assert !HasId(news, id) by {
        NoIds(id);
      }
    } else {
      HasIdSnoc(existing, news[0]);
      NewsIds(news);
      UpdateCovers(if HasId(existing, news[0].id) then existing else existing + [news[0]], news[1..], id);
    }
  }

  lemma NoIds(id: string)
    ensures !HasId([], id)
  {
  }

  lemma NewsIds(news: seq<Entry>)
    requires news != []
    ensures forall id :: HasId(news, id) <==> (news[0].id == id || HasId(news[1..], id))
  {
    forall id ensures HasId(news, id) <==> (news[0].id == id || HasId(news[1..], id)) {
      if HasId(news, id) && news[0].id != id {
        var i :| 0 <= i < |news| && news[i].id == id;
        assert news[1..][i - 1].id == id;
      }
      if HasId(news[1..], id) {
        var i :| 0 <= i < |news[1..]| && news[1..][i].id == id;
        assert news[i + 1].id == id;
      }
    }
  }

  /** Distinct ids stay distinct. */
  lemma UpdateKeepsDistinct(existing: seq<Entry>, news: seq<Entry>)
    requires DistinctIds(existing)
    ensures DistinctIds(AddNew(existing, news))
  {
    var added := UpdateAppends(existing, news);
    forall i, j | 0 <= i < j < |existing + added| ensures (existing + added)[i].id != (existing + added)[j].id {
      if i < |existing| <= j {
        assert !HasId(existing, added[j - |existing|].id);
      }
    }
  }

  /** `positions` lists, in order, which entries of `existing` make up `kept`. */
  ghost predicate Selects(existing: seq<Entry>, kept: seq<Entry>, positions: seq<nat>) {
    && |positions| == |kept|
    && (forall k | 0 <= k < |positions| :: positions[k] < |existing| && existing[positions[k]] == kept[k])
    && (forall k, l | 0 <= k < l < |positions| :: positions[k] < positions[l])
  }

  function ShiftAll(positions: seq<nat>): (r: seq<nat>)
    ensures |r| == |positions|
    ensures forall k | 0 <= k < |r| :: r[k] == positions[k] + 1
  {
    if positions == [] then [] else [positions[0] + 1] + ShiftAll(positions[1..])
  }

  lemma SelectsSkip(existing: seq<Entry>, kept: seq<Entry>, positions: seq<nat>)
    requires existing != [] && Selects(existing[1..], kept, positions)
    ensures Selects(existing, kept, ShiftAll(positions))
  {
    hide ShiftAll;
    var p := ShiftAll(positions);
    forall k | 0 <= k < |p| ensures p[k] < |existing| && existing[p[k]] == kept[k] {
      assert existing[1..][positions[k]] == kept[k];
    }
  }

  lemma SelectsTake(existing: seq<Entry>, kept: seq<Entry>, positions: seq<nat>)
    requires existing != [] && Selects(existing[1..], kept, positions)
    ensures Selects(existing, [existing[0]] + kept, [0] + ShiftAll(positions))
  {
    hide ShiftAll, Selects;
    SelectsSkip(existing, kept, positions);
    SelectsFront(existing, kept, ShiftAll(positions));
  }

  lemma SelectsFront(existing: seq<Entry>, kept: seq<Entry>, positions: seq<nat>)
    requires existing != [] && Selects(existing, kept, positions)
    requires forall k | 0 <= k < |positions| :: positions[k] > 0
    ensures Selects(existing, [existing[0]] + kept, [0] + positions)
  {
  }

  /** Prune keeps exactly the entries that stay, with their fields and in their order. */
  lemma {:induction false} PruneExact(existing: seq<Entry>, produced: set<string>, touched: set<string>)
    returns (positions: seq<nat>)
    ensures Selects(existing, Prune(existing, produced, touched), positions)
    ensures |Prune(existing, produced, touched)| + PrunedCount(existing, produced, touched) == |existing|
  {
    hide Stays, Selects, ShiftAll;
    if existing == [] {
      positions := [];
      assert Selects([], [], []) by {
        SelectsNothing();
      }
    } else {
      var rest := PruneExact(existing[1..], produced, touched);
      var stays := Stays(existing[0], produced, touched);
      if stays {
        SelectsTake(existing, Prune(existing[1..], produced, touched), rest);
        positions := [0] + ShiftAll(rest);
      } else {
        SelectsSkip(existing, Prune(existing[1..], produced, touched), rest);
        positions := ShiftAll(rest);
        assert [] + Prune(existing[1..], produced, touched) == Prune(existing[1..], produced, touched);
      }
    }
  }

  lemma SelectsNothing()
    ensures Selects([], [], [])
  {
  }

  /** An entry survives the prune if and only if no touched file owns it or its id was produced. */
  lemma {:induction false} PruneMember(existing: seq<Entry>, produced: set<string>, touched: set<string>, e: Entry)
    ensures e in Prune(existing, produced, touched) <==> (e in existing && Stays(e, produced, touched))
  {
    hide Stays;
    if existing != [] {
      PruneMember(existing[1..], produced, touched, e);
    }
  }

  lemma {:induction false} PruneTwice(existing: seq<Entry>, produced: set<string>, touched: set<string>)
    ensures var kept := Prune(existing, produced, touched);
            Prune(kept, produced, touched) == kept && PrunedCount(kept, produced, touched) == 0
  {
    if existing != [] {
      PruneTwice(existing[1..], produced, touched);
      var rest := Prune(existing[1..], produced, touched);
      assert ([existing[0]] + rest)[1..] == rest;
      assert [] + rest == rest;
    }
  }

  /** Pruning never changes what a lookup of a produced id finds. */
  lemma {:induction false} PruneKeepsLookup(existing: seq<Entry>, produced: set<string>, touched: set<string>, id: string)
    requires id in produced
    ensures Lookup(Prune(existing, produced, touched), id) == Lookup(existing, id)
  {
    if existing != [] {
      PruneKeepsLookup(existing[1..], produced, touched, id);
      var rest := Prune(existing[1..], produced, touched);
      assert ([existing[0]] + rest)[1..] == rest;
      assert [] + rest == rest;
    }
  }
}
