/** Ranked suffixes: how two migrations make a text column unique before they constrain it. */
module RankedSuffixes {
  import opened Text

  function Suffixed(base: string, separator: char, n: nat): string {
    base + [separator] + Decimal(n)
  }

  /** The suffix can be read off the end: the text determines base and number. */
  lemma {:induction false} SuffixedInjective(a: string, n: nat, b: string, m: nat, separator: char)
    requires !IsDigit(separator) && Suffixed(a, separator, n) == Suffixed(b, separator, m)
    ensures a == b && n == m
  {
    var s := Suffixed(a, separator, n);
    var d, e := Decimal(n), Decimal(m);
    assert s[|a|] == separator && s[|b|] == separator;
    assert forall i | |a| < i < |s| :: s[i] == d[i - |a| - 1];
    assert forall i | |b| < i < |s| :: s[i] == e[i - |b| - 1];
    assert |a| == |b|;
    assert s[..|a|] == a && s[..|b|] == b;
    assert s[|a| + 1..] == d && s[|b| + 1..] == e;
    DecimalInjective(n, m);
  }

  lemma SubsetSmaller(small: set<int>, large: set<int>)
    requires small <= large
    ensures |small| <= |large|
    ensures small != large ==> |small| < |large|
  {
    var rest := large - small;
    assert large == small + rest && small * rest == {};
    assert |small + rest| == |small| + |rest|;
  }
}

/** Migration d1a7c4b90e33: every pricing option gets the id that was announced for it, and of several rows
    that announced the same id all but the first get a ranked suffix. */
module OptionIds {
  import opened Text
  import opened RankedSuffixes

  datatype PricingOption = PricingOption(
    id: int,
    tenantId: string,
    productId: string,
    model: string,
    currency: string,
    isFixed: bool,
    optionId: string)

  /** `_ANNOUNCED_ID`. */
  function Announced(row: PricingOption): string {
    Lower(row.model) + "_" + Lower(row.currency) + "_"
    + (if row.isFixed || Lower(row.model) == "cpa" then "fixed" else "auction")
  }

  predicate DistinctIds(rows: seq<PricingOption>) {
    forall i, j | 0 <= i < j < |rows| :: rows[i].id != rows[j].id
  }

  /** What `uq_pricing_options_option_id` enforces. */
  predicate UniqueOptionIds(rows: seq<PricingOption>) {
    forall i, j | 0 <= i < j < |rows| :: !SameGroup(rows[i], rows[j])
  }

  predicate SameGroup(a: PricingOption, b: PricingOption) {
    a.tenantId == b.tenantId && a.productId == b.productId && a.optionId == b.optionId
  }

  function Backfilled(rows: seq<PricingOption>): (r: seq<PricingOption>)
    ensures |r| == |rows|
    ensures forall i | 0 <= i < |rows| :: r[i] == rows[i].(optionId := Announced(rows[i]))
  {
    seq(|rows|, i requires 0 <= i < |rows| => rows[i].(optionId := Announced(rows[i])))
  }

  /** The rows of the partition that come before row `i`. */
  function Before(rows: seq<PricingOption>, i: nat): set<int>
    requires i < |rows|
  {
    set j | 0 <= j < |rows| && SameGroup(rows[j], rows[i]) && rows[j].id < rows[i].id
  }

  /** `row_number() OVER (PARTITION BY tenant_id, product_id, pricing_option_id ORDER BY id)`. */
  function RowNumber(rows: seq<PricingOption>, i: nat): nat
    requires i < |rows|
  {
    |Before(rows, i)| + 1
  }

  function Ranked(rows: seq<PricingOption>, i: nat): PricingOption
    requires i < |rows|
  {
    var n := RowNumber(rows, i);
    if n > 1 then rows[i].(optionId := Suffixed(rows[i].optionId, '_', n)) else rows[i]
  }

  function Deduplicated(rows: seq<PricingOption>): (r: seq<PricingOption>)
    ensures |r| == |rows|
    ensures forall i: nat | i < |rows| :: r[i] == Ranked(rows, i)
  {
    seq(|rows|, i requires 0 <= i < |rows| => Ranked(rows, i))
  }

  /** Rows of one group have different numbers. */
  lemma RowNumbersDiffer(rows: seq<PricingOption>, i: nat, j: nat)
    requires i < |rows| && j < |rows| && SameGroup(rows[i], rows[j]) && rows[i].id < rows[j].id
    ensures RowNumber(rows, i) < RowNumber(rows, j)
  {
    assert i in Before(rows, j) && i !in Before(rows, i);
    SubsetSmaller(Before(rows, i), Before(rows, j));
  }

  /** An announced id ends in a letter, so no suffixed id can be mistaken for one. */
  lemma AnnouncedEndsInLetter(row: PricingOption)
    ensures var s := Announced(row); s != "" && !IsDigit(s[|s| - 1])
  {
  }

  lemma SuffixedEndsInDigit(base: string, n: nat)
    ensures var s := Suffixed(base, '_', n); s != "" && IsDigit(s[|s| - 1])
  {
    var d := Decimal(n);
    assert Suffixed(base, '_', n)[|base| + 1 + |d| - 1] == d[|d| - 1];
  }

  ghost predicate AllAnnounced(rows: seq<PricingOption>) {
    forall i | 0 <= i < |rows| :: rows[i].optionId == Announced(rows[i])
  }

  lemma PairDiffers(rows: seq<PricingOption>, i: nat, j: nat)
    requires DistinctIds(rows) && AllAnnounced(rows) && i < |rows| && j < |rows| && i != j
    ensures !SameGroup(Ranked(rows, i), Ranked(rows, j))
  {
    hide Announced, RowNumber, Suffixed, Decimal;
    AnnouncedEndsInLetter(rows[i]);
    AnnouncedEndsInLetter(rows[j]);
    SuffixedEndsInDigit(rows[i].optionId, RowNumber(rows, i));
    SuffixedEndsInDigit(rows[j].optionId, RowNumber(rows, j));
    if SameGroup(rows[i], rows[j]) {
      if rows[i].id < rows[j].id {
        RowNumbersDiffer(rows, i, j);
      } else {
        RowNumbersDiffer(rows, j, i);
      }
    }
    if Suffixed(rows[i].optionId, '_', RowNumber(rows, i)) == Suffixed(rows[j].optionId, '_', RowNumber(rows, j)) {
      SuffixedInjective(rows[i].optionId, RowNumber(rows, i), rows[j].optionId, RowNumber(rows, j), '_');
    }
    assert RowNumber(rows, i) >= 1 && RowNumber(rows, j) >= 1 by {
      Positive(rows, i);
      Positive(rows, j);
    }
  }

  lemma Positive(rows: seq<PricingOption>, i: nat)
    requires i < |rows|
    ensures RowNumber(rows, i) >= 1
  {
  }

  /** For any table, after backfill and suffixing the constraint can be added. */
  lemma OptionIdsBecomeUnique(rows: seq<PricingOption>)
    requires DistinctIds(rows)
    ensures UniqueOptionIds(Deduplicated(Backfilled(rows)))
  {
    hide Announced, RowNumber, Ranked, SameGroup;
    var filled := Backfilled(rows);
    assert DistinctIds(filled);
    AnnouncedUnchanged(rows);
    forall i, j | 0 <= i < j < |filled| ensures !SameGroup(Ranked(filled, i), Ranked(filled, j)) {
      PairDiffers(filled, i, j);
    }
  }

  lemma AnnouncedUnchanged(rows: seq<PricingOption>)
    ensures AllAnnounced(Backfilled(rows))
  {
  }

  /** Exactly the first row of each group keeps the announced id, and no other column changes. */
  lemma FirstKeepsAnnounced(rows: seq<PricingOption>, i: nat)
    requires i < |rows|
    ensures var r := Deduplicated(Backfilled(rows))[i];
            && r == rows[i].(optionId := r.optionId)
            && (r.optionId == Announced(rows[i])
                <==> forall j | 0 <= j < |rows| && SameGroup(Backfilled(rows)[j], Backfilled(rows)[i])
                       :: rows[i].id <= rows[j].id)
  {
    hide Announced, Suffixed, SameGroup;
    var filled := Backfilled(rows);
    if Before(filled, i) != {} {
      var j :| j in Before(filled, i);
      assert SameGroup(filled[j], filled[i]) && rows[j].id < rows[i].id;
      assert |Before(filled, i)| > 0;
      SuffixedLonger(filled[i].optionId, RowNumber(filled, i));
    } else {
      forall j | 0 <= j < |rows| && SameGroup(filled[j], filled[i]) ensures rows[i].id <= rows[j].id {
        assert j !in Before(filled, i);
      }
    }
  }

  lemma SuffixedLonger(base: string, n: nat)
    ensures Suffixed(base, '_', n) != base
  {
    assert |Suffixed(base, '_', n)| > |base|;
  }

  /** `upgrade`: the two UPDATEs, then the constraint. The ranks are those of the table before the second
      UPDATE starts writing. */
  method AssignOptionIds(table: array<PricingOption>)
    requires DistinctIds(table[..])
    modifies table
    ensures table[..] == Deduplicated(Backfilled(old(table[..])))
    ensures UniqueOptionIds(table[..])
  {
    hide Announced, RowNumber, Suffixed, SameGroup, DistinctIds;
    ghost var rows := table[..];
    for i := 0 to table.Length
      invariant forall k | 0 <= k < i :: table[k] == rows[k].(optionId := Announced(rows[k]))
      invariant forall k | i <= k < table.Length :: table[k] == rows[k]
    {
      table[i] := table[i].(optionId := Announced(table[i]));
    }
    var filled := table[..];
    assert filled == Backfilled(rows);
    for i := 0 to table.Length
      invariant forall k: nat | k < i :: table[k] == Ranked(filled, k)
      invariant forall k | i <= k < table.Length :: table[k] == filled[k]
    {
      var n := RowNumber(filled, i);
      if n > 1 {
        table[i] := table[i].(optionId := Suffixed(table[i].optionId, '_', n));
      }
    }
    assert table[..] == Deduplicated(filled);
    OptionIdsBecomeUnique(rows);
  }
}

/** Migration 31ff6218695a: duplicate `buyer_ref` values get `-2`, `-3`, ... before the column is constrained. */
module BuyerRefs {
  import opened Text
  import opened RankedSuffixes

  datatype MediaBuy = MediaBuy(id: string, tenantId: string, principalId: string, buyerRef: Option<string>, createdAt: int)

  predicate SameScope(a: MediaBuy, b: MediaBuy) {
    a.tenantId == b.tenantId && a.principalId == b.principalId
  }

  predicate SameGroup(a: MediaBuy, b: MediaBuy) {
    SameScope(a, b) && a.buyerRef.Some? && a.buyerRef == b.buyerRef
  }

  /** What `uq_media_buys_buyer_ref` enforces: NULLs never collide. */
  predicate UniqueRefs(rows: seq<MediaBuy>) {
    forall i, j | 0 <= i < j < |rows| :: !SameGroup(rows[i], rows[j])
  }

  function Group(rows: seq<MediaBuy>, i: nat): set<int>
    requires i < |rows|
  {
    set j | 0 <= j < |rows| && SameGroup(rows[j], rows[i])
  }

  /** `row_number()` of row `i`: a number of its own within the size of its group, in order of `created_at`, and
      every smaller number is used too. */
  ghost predicate NumberedAt(rows: seq<MediaBuy>, numbers: seq<nat>, i: nat)
    requires i < |rows| == |numbers|
  {
    && 1 <= numbers[i] <= |Group(rows, i)|
    && (forall j | 0 <= j < |rows| && j != i && SameGroup(rows[i], rows[j]) ::
          numbers[i] != numbers[j] && (rows[i].createdAt < rows[j].createdAt ==> numbers[i] < numbers[j]))
    && (forall n: nat | 1 <= n <= |Group(rows, i)| :: Used(rows, numbers, i, n))
  }

  predicate Used(rows: seq<MediaBuy>, numbers: seq<nat>, i: nat, n: nat)
    requires i < |rows| == |numbers|
  {
    exists j | 0 <= j < |rows| :: SameGroup(rows[j], rows[i]) && numbers[j] == n
  }

  /** `numbers` numbers every group; rows created at the same time may be numbered either way. */
  ghost predicate Numbering(rows: seq<MediaBuy>, numbers: seq<nat>) {
    && |numbers| == |rows|
    && forall i: nat | i < |rows| && rows[i].buyerRef.Some? :: NumberedAt(rows, numbers, i)
  }

  function Renamed(row: MediaBuy, n: nat): MediaBuy {
    if row.buyerRef.Some? && n > 1 then row.(buyerRef := Some(Suffixed(row.buyerRef.value, '-', n))) else row
  }

  function RenamedAll(rows: seq<MediaBuy>, numbers: seq<nat>): (r: seq<MediaBuy>)
    requires |numbers| == |rows|
    ensures |r| == |rows| && forall i | 0 <= i < |rows| :: r[i] == Renamed(rows[i], numbers[i])
  {
    seq(|rows|, i requires 0 <= i < |rows| => Renamed(rows[i], numbers[i]))
  }

  /** In the scope of row `i`, some row `k` is already called what the `n`-th row of `i`'s group will be called. */
  predicate Taken(rows: seq<MediaBuy>, i: nat, k: nat, n: nat)
    requires i < |rows| && k < |rows|
  {
    && rows[i].buyerRef.Some? && SameScope(rows[i], rows[k]) && 2 <= n <= |Group(rows, i)|
    && rows[k].buyerRef == Some(Suffixed(rows[i].buyerRef.value, '-', n))
  }

  predicate NameTaken(rows: seq<MediaBuy>) {
    exists i: nat, k: nat, n: nat | i < |rows| && k < |rows| && n <= |rows| :: Taken(rows, i, k, n)
  }

  lemma {:induction false} GroupSize(members: set<int>, n: nat)
    requires forall j | j in members :: 0 <= j < n
    ensures |members| <= n
  {
    if n > 0 {
      GroupSize(members - {n - 1}, n - 1);
    } else {
      assert forall j :: j !in members;
      assert members == {};
    }
  }

  lemma TakenBounded(rows: seq<MediaBuy>, i: nat, k: nat, n: nat)
    requires i < |rows| && k < |rows| && Taken(rows, i, k, n)
    ensures NameTaken(rows)
  {
    GroupSize(Group(rows, i), |rows|);
  }

  lemma NumbersDiffer(rows: seq<MediaBuy>, numbers: seq<nat>, i: nat, j: nat)
    requires Numbering(rows, numbers) && i < |rows| && j < |rows| && i != j
    ensures |numbers| == |rows| && (SameGroup(rows[i], rows[j]) ==> numbers[i] != numbers[j])
    ensures rows[i].buyerRef.Some? ==> 1 <= numbers[i] <= |Group(rows, i)|
    ensures rows[j].buyerRef.Some? ==> 1 <= numbers[j] <= |Group(rows, j)|
  {
    hide Group;
  }

  /** Two renamed rows collide only when one kept a name that the other was given. */
  lemma CollisionIsTaken(rows: seq<MediaBuy>, numbers: seq<nat>, i: nat, j: nat)
    requires Numbering(rows, numbers) && i < |rows| && j < |rows| && i != j
    requires SameGroup(Renamed(rows[i], numbers[i]), Renamed(rows[j], numbers[j]))
    ensures NameTaken(rows)
  {
    hide Suffixed, Decimal, Group, Numbering, NameTaken;
    NumbersDiffer(rows, numbers, i, j);
    if numbers[i] > 1 && numbers[j] > 1 {
      SuffixedInjective(rows[i].buyerRef.value, numbers[i], rows[j].buyerRef.value, numbers[j], '-');
    } else if numbers[i] > 1 {
      TakenBounded(rows, i, j, numbers[i]);
    } else if numbers[j] > 1 {
      TakenBounded(rows, j, i, numbers[j]);
    }
  }

  lemma FirstOf(rows: seq<MediaBuy>, numbers: seq<nat>, i: nat, n: nat) returns (j: nat)
    requires Numbering(rows, numbers) && i < |rows| && rows[i].buyerRef.Some? && 1 <= n <= |Group(rows, i)|
    ensures j < |rows| && SameGroup(rows[j], rows[i]) && numbers[j] == n
  {
    assert NumberedAt(rows, numbers, i) && Used(rows, numbers, i, n);
    j :| 0 <= j < |rows| && SameGroup(rows[j], rows[i]) && numbers[j] == n;
  }

  lemma TakenCollides(rows: seq<MediaBuy>, numbers: seq<nat>, i: nat, k: nat, n: nat)
    requires Numbering(rows, numbers) && |numbers| == |rows|
    requires i < |rows| && k < |rows| && Taken(rows, i, k, n)
    ensures !UniqueRefs(RenamedAll(rows, numbers))
  {
    hide Suffixed, Decimal, Group, Numbering;
    assert k in Group(rows, k) && |Group(rows, k)| >= 1 by {
      OwnGroup(rows, k);
    }
    var a := FirstOf(rows, numbers, i, n);
    var b := FirstOf(rows, numbers, k, 1);
    var now := RenamedAll(rows, numbers);
    assert SameGroup(now[a], now[b]) && SameGroup(now[b], now[a]);
    assert a != b;
  }

  lemma OwnGroup(rows: seq<MediaBuy>, k: nat)
    requires k < |rows| && rows[k].buyerRef.Some?
    ensures k in Group(rows, k) && |Group(rows, k)| >= 1
  {
    SubsetSmaller({k}, Group(rows, k));
  }

  /** Exactly when the constraint can be added: unless some group has an `n`-th row and its new name `ref-n` is
      already in use in the same scope. However the database numbers rows created at the same time. */
  lemma RefsBecomeUniqueExactly(rows: seq<MediaBuy>, numbers: seq<nat>)
    requires |numbers| == |rows| && Numbering(rows, numbers)
    ensures UniqueRefs(RenamedAll(rows, numbers)) <==> !NameTaken(rows)
  {
    hide Numbering, Taken, Renamed, SameGroup;
    var now := RenamedAll(rows, numbers);
    if NameTaken(rows) {
      var i: nat, k: nat, n: nat :| i < |rows| && k < |rows| && n <= |rows| && Taken(rows, i, k, n);
      TakenCollides(rows, numbers, i, k, n);
    }
    if !UniqueRefs(now) {
      var i, j :| 0 <= i < j < |now| && SameGroup(now[i], now[j]);
      CollisionIsTaken(rows, numbers, i, j);
    }
  }

  /** The migration on its own example of trouble: `a`, `a` and `a-2` in one scope cannot be constrained. */
  lemma SecondDuplicateTaken()
    ensures var rows := [MediaBuy("1", "t", "p", Some("a"), 1), MediaBuy("2", "t", "p", Some("a"), 2),
                         MediaBuy("3", "t", "p", Some("a-2"), 3)];
            NameTaken(rows)
  {
    var rows := [MediaBuy("1", "t", "p", Some("a"), 1), MediaBuy("2", "t", "p", Some("a"), 2),
                 MediaBuy("3", "t", "p", Some("a-2"), 3)];
    assert Group(rows, 0) == {0, 1};
    assert Suffixed("a", '-', 2) == "a-2";
    TakenBounded(rows, 0, 2, 2);
  }
}
