/** The account migrations: the natural-key index (b2e94f7c1a03) and the repair of mangled brand ids under it
    (f4d31a97c058). The table is an array of rows; the UPDATE writes one row at a time in whatever order the
    database picks, and the unique index is checked at every row. */
module AccountRepair {
  import opened Text

  datatype Account = Account(
    tenantId: string,
    accountId: string,
    operator: Option<string>,
    domain: Option<string>,
    brandId: Option<string>,
    sandbox: Option<bool>,
    name: string)

  // ------------------------------------------------------------------ the natural key

  datatype Key = Key(tenantId: string, operator: Option<string>, domain: Option<string>, brandId: Option<string>,
                     sandbox: bool)

  /** `_KEY_SQL`: a NULL sandbox counts as false. */
  function KeyOf(a: Account): Key {
    Key(a.tenantId, a.operator, a.domain, a.brandId, a.sandbox == Some(true))
  }

  /** `_KEYED_ONLY`. */
  predicate Keyed(a: Account) {
    a.domain.Some?
  }

  predicate Clash(a: Account, b: Account) {
    Keyed(a) && Keyed(b) && KeyOf(a) == KeyOf(b)
  }

  /** What `uq_accounts_natural_key` enforces; NULL components are equal to each other. */
  predicate UniqueKeys(rows: seq<Account>) {
    forall i, j | 0 <= i < j < |rows| :: !Clash(rows[i], rows[j])
  }

  predicate PrimaryKey(rows: seq<Account>) {
    forall i, j | 0 <= i < j < |rows| :: !(rows[i].tenantId == rows[j].tenantId && rows[i].accountId == rows[j].accountId)
  }

  /** `count(*)` of one group of the survey. */
  function CountKey(rows: seq<Account>, key: Key): nat {
    if rows == [] then 0
    else (if Keyed(rows[0]) && KeyOf(rows[0]) == key then 1 else 0) + CountKey(rows[1..], key)
  }

  lemma {:induction false} CountsKey(rows: seq<Account>, key: Key)
    ensures CountKey(rows, key) > 0 <==> exists i | 0 <= i < |rows| :: Keyed(rows[i]) && KeyOf(rows[i]) == key
  {
    if rows != [] {
      CountsKey(rows[1..], key);
      if i :| 0 <= i < |rows| && Keyed(rows[i]) && KeyOf(rows[i]) == key {
        if i > 0 {
          assert rows[1..][i - 1] == rows[i];
        }
      }
    }
  }

  lemma UniqueTail(rows: seq<Account>)
    requires rows != []
    ensures UniqueKeys(rows) <==> UniqueKeys(rows[1..]) && forall j | 0 < j < |rows| :: !Clash(rows[0], rows[j])
  {
    hide Clash;
    if UniqueKeys(rows[1..]) && forall j | 0 < j < |rows| :: !Clash(rows[0], rows[j]) {
      forall i, j | 0 <= i < j < |rows| ensures !Clash(rows[i], rows[j]) {
        if i > 0 {
          assert rows[i] == rows[1..][i - 1] && rows[j] == rows[1..][j - 1];
        }
      }
    }
  }

  /** The first row's group is a singleton exactly when it clashes with no later row. */
  lemma FirstGroup(rows: seq<Account>)
    requires rows != [] && Keyed(rows[0])
    ensures CountKey(rows[1..], KeyOf(rows[0])) == 0 <==> forall j | 0 < j < |rows| :: !Clash(rows[0], rows[j])
  {
    hide KeyOf, CountKey;
    var rest, key := rows[1..], KeyOf(rows[0]);
    CountsKey(rest, key);
    assert forall j | 0 < j < |rows| :: rows[j] == rest[j - 1];
    assert forall i | 0 <= i < |rest| :: rest[i] == rows[i + 1];
  }

  /** `_SURVEY_SQL` finds no group with two accounts. */
  ghost predicate SurveyEmpty(rows: seq<Account>) {
    forall key :: CountKey(rows, key) <= 1
  }

  /** The index can be created if and only if the survey is empty. */
  lemma {:induction false} SurveyMatchesIndex(rows: seq<Account>)
    ensures SurveyEmpty(rows) <==> UniqueKeys(rows)
  {
    hide Keyed, KeyOf, UniqueKeys;
    if rows == [] {
      NoRowsUnique();
    } else {
      SurveyMatchesIndex(rows[1..]);
      UniqueTail(rows);
      if Keyed(rows[0]) {
        FirstGroup(rows);
      } else {
        assert forall j | 0 < j < |rows| :: !Clash(rows[0], rows[j]);
      }
      if SurveyEmpty(rows) {
        forall key ensures CountKey(rows[1..], key) <= 1 {
          assert CountKey(rows, key) <= 1;
        }
        assert CountKey(rows, KeyOf(rows[0])) <= 1;
      }
      if UniqueKeys(rows) {
        forall key ensures CountKey(rows, key) <= 1 {
          assert CountKey(rows[1..], key) <= 1;
        }
      }
    }
  }

  lemma NoRowsUnique()
    ensures UniqueKeys([])
  {
  }

  // ------------------------------------------------------------------ mangled brand ids

  predicate BrandChar(c: char) {
    'a' <= c <= 'z' || '0' <= c <= '9' || c == '_'
  }

  predicate BrandShape(s: string) {
    s != "" && forall i | 0 <= i < |s| :: BrandChar(s[i])
  }

  /** `brand ->> 'brand_id' LIKE 'root=%'`. */
  predicate Poisoned(a: Account) {
    a.brandId.Some? && "root=" <= a.brandId.value
  }

  /** `substring(... from '^root=''([a-z0-9_]+)''$')`. */
  function Extract(s: string): Option<string> {
    if |s| >= 8 && "root='" <= s && s[|s| - 1] == '\'' && BrandShape(s[6..|s| - 1]) then Some(s[6..|s| - 1]) else None
  }

  /** The model representation that the defect persisted. */
  function Mangle(brandId: string): string {
    "root='" + brandId + "'"
  }

  /** The extractor is the exact inverse of the mangling. */
  lemma ExtractInvertsMangle(s: string, brandId: string)
    ensures Extract(s) == Some(brandId) <==> BrandShape(brandId) && s == Mangle(brandId)
  {
    if Extract(s) == Some(brandId) {
      assert s == s[..6] + s[6..|s| - 1] + s[|s| - 1..];
      assert s[..6] == "root='";
    }
    if s == Mangle(brandId) {
      assert s[6..|s| - 1] == brandId;
    }
  }

  lemma ShapeNotPoisoned(brandId: string)
    requires BrandShape(brandId)
    ensures !("root=" <= brandId)
  {
    assert "root="[4] == '=';
  }

  predicate Parseable(rows: seq<Account>) {
    forall i | 0 <= i < |rows| && Poisoned(rows[i]) :: Extract(rows[i].brandId.value).Some?
  }

  /** The SET clause: both expressions read the old row. */
  function RepairRow(a: Account): Account
    requires Poisoned(a) ==> Extract(a.brandId.value).Some?
  {
    if !Poisoned(a) then a
    else
      var brandId := Extract(a.brandId.value).value;
      a.(brandId := Some(brandId), name := Replace(a.name, a.brandId.value, brandId))
  }

  /** The table when the UPDATE has passed over the rows in `done`. */
  function RepairedAt(rows: seq<Account>, done: set<int>): (r: seq<Account>)
    requires Parseable(rows)
    ensures |r| == |rows|
    ensures forall i | 0 <= i < |rows| :: r[i] == if i in done then RepairRow(rows[i]) else rows[i]
  {
    seq(|rows|, i requires 0 <= i < |rows| => if i in done then RepairRow(rows[i]) else rows[i])
  }

  function AllRows(rows: seq<Account>): (r: set<int>)
    ensures forall i :: i in r <==> 0 <= i < |rows|
  {
    if rows == [] then {} else AllRows(rows[..|rows| - 1]) + {|rows| - 1}
  }

  // ------------------------------------------------------------------ the collision survey

  /** A row of `_collision_sql`: `o` already holds the key that `p` will have. */
  predicate Occupies(p: Account, o: Account)
    requires Poisoned(p) ==> Extract(p.brandId.value).Some?
  {
    && KeyOf(RepairRow(p)) == KeyOf(o)
    && Poisoned(p) && !Poisoned(o) && o.accountId != p.accountId && Keyed(p)
  }

  predicate NoCollision(rows: seq<Account>)
    requires Parseable(rows)
  {
    forall i, j | 0 <= i < |rows| && 0 <= j < |rows| :: !Occupies(rows[i], rows[j])
  }

  /** Two rows clash halfway through only if they clashed before, or one occupies the other's repaired key. */
  lemma PairStaysApart(p: Account, o: Account, pDone: bool, oDone: bool)
    requires Poisoned(p) ==> Extract(p.brandId.value).Some?
    requires Poisoned(o) ==> Extract(o.brandId.value).Some?
    requires p.tenantId != o.tenantId || p.accountId != o.accountId
    requires !Clash(p, o) && !Occupies(p, o) && !Occupies(o, p)
    ensures !Clash(if pDone then RepairRow(p) else p, if oDone then RepairRow(o) else o)
  {
    hide Replace, Extract;
    if Poisoned(p) {
      var x := Extract(p.brandId.value).value;
      ExtractInvertsMangle(p.brandId.value, x);
      ShapeNotPoisoned(x);
    }
    if Poisoned(o) {
      var x := Extract(o.brandId.value).value;
      ExtractInvertsMangle(o.brandId.value, x);
      ShapeNotPoisoned(x);
    }
  }

  /** With both surveys empty, the natural key is unique at every moment of the UPDATE, whatever rows it has
      passed over so far. */
  lemma UniqueAtEveryMoment(rows: seq<Account>, done: set<int>)
    requires UniqueKeys(rows) && PrimaryKey(rows) && Parseable(rows) && NoCollision(rows)
    ensures UniqueKeys(RepairedAt(rows, done))
  {
    hide Occupies, Clash, RepairRow, Poisoned, Extract;
    var now := RepairedAt(rows, done);
    forall i, j | 0 <= i < j < |now| ensures !Clash(now[i], now[j]) {
      PairStaysApart(rows[i], rows[j], i in done, j in done);
    }
  }

  lemma OccupantClashes(p: Account, o: Account)
    requires Poisoned(p) ==> Extract(p.brandId.value).Some?
    requires Poisoned(o) ==> Extract(o.brandId.value).Some?
    requires Occupies(p, o)
    ensures Clash(RepairRow(p), RepairRow(o)) && Clash(RepairRow(o), RepairRow(p)) && p != o
  {
    hide Replace, Extract;
  }

  /** The collision survey is exact: it is empty if and only if the repaired table has a unique key. */
  lemma SurveyIsExact(rows: seq<Account>)
    requires UniqueKeys(rows) && PrimaryKey(rows) && Parseable(rows)
    ensures NoCollision(rows) <==> UniqueKeys(RepairedAt(rows, AllRows(rows)))
  {
    hide Occupies, Clash, RepairRow, Poisoned, Extract;
    var final := RepairedAt(rows, AllRows(rows));
    if NoCollision(rows) {
      UniqueAtEveryMoment(rows, AllRows(rows));
    }
    forall i, j | 0 <= i < |rows| && 0 <= j < |rows| && Occupies(rows[i], rows[j]) ensures !UniqueKeys(final) {
      OccupantClashes(rows[i], rows[j]);
      assert final[i] == RepairRow(rows[i]) && final[j] == RepairRow(rows[j]);
      assert Clash(final[i], final[j]) && Clash(final[j], final[i]) && i != j;
    }
  }

  /** The survey with `=` instead of `IS NOT DISTINCT FROM`: a NULL operator matches nothing. */
  predicate OccupiesByEquality(p: Account, o: Account)
    requires Poisoned(p) ==> Extract(p.brandId.value).Some?
  {
    Occupies(p, o) && p.operator.Some? && o.operator.Some?
  }

  /** It would miss collisions: two rows with a NULL operator pass it, and the UPDATE then violates the index. */
  lemma EqualitySurveyMisses()
    ensures var p := Account("t", "1", None, Some("d"), Some("root='x'"), None, "n");
            var o := Account("t", "2", None, Some("d"), Some("x"), Some(false), "n");
            && UniqueKeys([p, o]) && PrimaryKey([p, o]) && Parseable([p, o])
            && !OccupiesByEquality(p, o) && !OccupiesByEquality(o, p)
            && !UniqueKeys(RepairedAt([p, o], AllRows([p, o])))
  {
    var p := Account("t", "1", None, Some("d"), Some("root='x'"), None, "n");
    var o := Account("t", "2", None, Some("d"), Some("x"), Some(false), "n");
    ExtractInvertsMangle("root='x'", "x");
    assert Mangle("x") == "root='x'";
    var final := RepairedAt([p, o], AllRows([p, o]));
    assert Clash(final[0], final[1]);
  }

  // ------------------------------------------------------------------ the migration

  lemma {:induction false} NothingLeftPoisoned(rows: seq<Account>)
    requires Parseable(rows)
    ensures var final := RepairedAt(rows, AllRows(rows));
            && (forall i | 0 <= i < |final| :: !Poisoned(final[i]))
            && (forall i | 0 <= i < |final| && !Poisoned(rows[i]) :: final[i] == rows[i])
  {
    hide Extract, Replace, UniqueKeys;
    forall i | 0 <= i < |rows| && Poisoned(rows[i]) ensures !Poisoned(RepairRow(rows[i])) {
      var x := Extract(rows[i].brandId.value).value;
      ExtractInvertsMangle(rows[i].brandId.value, x);
      ShapeNotPoisoned(x);
    }
  }

  /** An order in which the database may visit the rows. */
  ghost predicate VisitsAll(order: seq<nat>, n: nat) {
    && (forall k | 0 <= k < |order| :: order[k] < n)
    && (forall i | 0 <= i < n :: i in order)
  }

  /** Whether writing `row` at `i` violates the unique index. */
  predicate Violates(rows: seq<Account>, i: nat, row: Account) {
    exists j | 0 <= j < |rows| :: j != i && Clash(row, rows[j])
  }

  lemma ClashSymmetric(a: Account, b: Account)
    ensures Clash(a, b) == Clash(b, a)
  {
  }

  lemma WriteChecked(rows: seq<Account>, i: nat, row: Account)
    requires i < |rows| && UniqueKeys(rows)
    ensures UniqueKeys(rows[i := row]) <==> !Violates(rows, i, row)
  {
    hide Clash;
    var now := rows[i := row];
    if Violates(rows, i, row) {
      var j :| 0 <= j < |rows| && j != i && Clash(row, rows[j]);
      ClashSymmetric(row, rows[j]);
      assert now[i] == row && now[j] == rows[j];
    } else {
      forall a, b | 0 <= a < b < |now| ensures !Clash(now[a], now[b]) {
        if a == i {
          assert now[b] == rows[b];
        } else if b == i {
          ClashSymmetric(rows[a], row);
        }
      }
    }
  }

  lemma OneMoreDone(rows: seq<Account>, done: set<int>, i: nat)
    requires Parseable(rows) && i < |rows|
    ensures RepairedAt(rows, done + {i}) == RepairedAt(rows, done)[i := RepairRow(rows[i])]
  {
    hide RepairRow, Poisoned, Extract;
  }

  /** `_REPAIR_SQL`, visiting the rows in any order with the index checked at each write; a violation raises
      and the transaction is rolled back. It goes through if and only if the collision survey is empty. */
  method RepairUpdate(table: array<Account>, order: seq<nat>) returns (ok: bool)
    requires VisitsAll(order, table.Length)
    requires UniqueKeys(table[..]) && PrimaryKey(table[..]) && Parseable(table[..])
    modifies table
    ensures ok <==> NoCollision(old(table[..]))
    ensures table[..] == if ok then RepairedAt(old(table[..]), AllRows(old(table[..]))) else old(table[..])
  {
    hide UniqueKeys, PrimaryKey, NoCollision, RepairRow, Poisoned, Extract, Violates, Clash;
    var rows := table[..];
    ghost var done: set<int> := {};
    for k := 0 to |order|
      invariant Parseable(rows) && rows == old(table[..])
      invariant forall i: int :: i in done <==> exists m | 0 <= m < k :: order[m] == i
      invariant table[..] == RepairedAt(rows, done)
      invariant UniqueKeys(table[..])
    {
      var i := order[k];
      if Poisoned(rows[i]) {
        var row := RepairRow(rows[i]);
        WriteChecked(table[..], i, row);
        OneMoreDone(rows, done, i);
        if Violates(table[..], i, row) {
          if NoCollision(rows) {
            UniqueAtEveryMoment(rows, done + {i});
            assert false;
          }
          forall j | 0 <= j < table.Length {
            table[j] := rows[j];
          }
          assert table[..] == rows;
          return false;
        }
        ghost var before := table[..];
        table[i] := row;
        assert table[..] == before[i := row];
      } else {
        UntouchedRow(rows, done, i);
      }
      done := done + {i};
    }
    forall i: int ensures i in done <==> i in AllRows(rows) {
      if 0 <= i < |rows| {
        assert i in order;
      }
    }
    assert done == AllRows(rows);
    SurveyIsExact(rows);
    ok := true;
  }

  lemma UntouchedRow(rows: seq<Account>, done: set<int>, i: nat)
    requires Parseable(rows) && i < |rows| && !Poisoned(rows[i])
    ensures RepairedAt(rows, done + {i}) == RepairedAt(rows, done)
  {
    hide Poisoned, Extract;
  }

  datatype Upgrade = NothingToRepair | Unparseable | Collision | Repaired(count: nat)

  function PoisonedCount(rows: seq<Account>): nat {
    if rows == [] then 0 else (if Poisoned(rows[0]) then 1 else 0) + PoisonedCount(rows[1..])
  }

  lemma {:induction false} PoisonedCounted(rows: seq<Account>)
    ensures PoisonedCount(rows) == 0 <==> forall i | 0 <= i < |rows| :: !Poisoned(rows[i])
  {
    hide Poisoned;
    if rows != [] {
      PoisonedCounted(rows[1..]);
      if forall i | 0 <= i < |rows[1..]| :: !Poisoned(rows[1..][i]) {
        forall i | 1 <= i < |rows| ensures !Poisoned(rows[i]) {
          assert rows[i] == rows[1..][i - 1];
        }
      }
    }
  }

  /** `upgrade`: survey first, act second. On a table with a unique natural key it repairs every poisoned row or
      touches none, and the key is unique afterwards either way. */
  method UpgradeAccounts(table: array<Account>, order: seq<nat>) returns (r: Upgrade)
    requires VisitsAll(order, table.Length) && UniqueKeys(table[..]) && PrimaryKey(table[..])
    modifies table
    ensures r.NothingToRepair? <==> PoisonedCount(old(table[..])) == 0
    ensures r.Unparseable? <==> !Parseable(old(table[..]))
    ensures r.Collision? <==> Parseable(old(table[..])) && !NoCollision(old(table[..]))
    ensures r.Repaired? ==> r.count == PoisonedCount(old(table[..]))
    ensures !r.Repaired? ==> table[..] == old(table[..])
    ensures r.Repaired? ==> table[..] == RepairedAt(old(table[..]), AllRows(old(table[..])))
    ensures UniqueKeys(table[..])
    ensures r.Repaired? ==> forall i | 0 <= i < table.Length :: !Poisoned(table[i])
    ensures r.Repaired? ==> forall i | 0 <= i < table.Length && !Poisoned(old(table[i])) :: table[i] == old(table[i])
  {
    hide UniqueKeys, PrimaryKey, RepairRow, Poisoned, Extract, Occupies;
    var rows := table[..];
    PoisonedCounted(rows);
    if PoisonedCount(rows) == 0 {
      NothingToCollide(rows);
      return NothingToRepair;
    }
    if !Parseable(rows) {
      return Unparseable;
    }
    if !NoCollision(rows) {
      return Collision;
    }
    var ok := RepairUpdate(table, order);
    UniqueAtEveryMoment(rows, AllRows(rows));
    NothingLeftPoisoned(rows);
    r := Repaired(PoisonedCount(rows));
  }

  lemma NothingToCollide(rows: seq<Account>)
    requires forall i | 0 <= i < |rows| :: !Poisoned(rows[i])
    ensures Parseable(rows) && NoCollision(rows)
  {
    hide Poisoned, Extract;
  }

  // ------------------------------------------------------------------ the name

  lemma {:induction false} ReplaceAbsent(text: string, from: string, to: string)
    requires from != "" && !Contains(text, from)
    ensures Replace(text, from, to) == text
  {
    if |text| >= |from| {
      assert !OccursAt(from, text, 0);
      forall i: nat | i <= |text[1..]| ensures !OccursAt(from, text[1..], i) {
        if i + |from| <= |text[1..]| {
          assert text[1..][i..i + |from|] == text[i + 1..i + 1 + |from|];
        }
        assert !OccursAt(from, text, i + 1);
      }
      ReplaceAbsent(text[1..], from, to);
    }
  }

  lemma {:induction false} ReplaceFirst(front: string, from: string, back: string, to: string)
    requires from != "" && forall i: nat | i < |front| :: !OccursAt(from, front + from + back, i)
    ensures Replace(front + from + back, from, to) == front + to + Replace(back, from, to)
  {
    var text := front + from + back;
    if front == "" {
      assert text == from + back && text[|from|..] == back && from <= text;
      assert "" + to == to;
    } else {
      assert !OccursAt(from, text, 0);
      var rest := front[1..] + from + back;
      assert text[1..] == rest;
      forall i: nat | i < |front[1..]| ensures !OccursAt(from, rest, i) {
        assert !OccursAt(from, text, i + 1);
        if i + |from| <= |rest| {
          assert rest[i..i + |from|] == text[i + 1..i + 1 + |from|];
        }
      }
      ReplaceFirst(front[1..], from, back, to);
      assert [front[0]] + (front[1..] + to + Replace(back, from, to)) == front + to + Replace(back, from, to);
    }
  }

  /** A mangled id cannot overlap a later copy of itself: its only inner quote follows an equals sign. */
  lemma MangledHasNoBorder(brandId: string, n: nat)
    requires BrandShape(brandId) && 0 < n < |Mangle(brandId)|
    ensures Mangle(brandId)[|Mangle(brandId)| - n..] != Mangle(brandId)[..n]
  {
    var m := Mangle(brandId);
    var tail := m[|m| - n..];
    assert tail[n - 1] == m[|m| - 1] == '\'';
    assert forall i | 6 <= i < |m| - 1 :: m[i] == brandId[i - 6];
    assert m[5] == '\'' && m[4] == '=' && m[3] == 't' && m[2] == 'o' && m[1] == 'o' && m[0] == 'r';
    if n == 6 {
      assert tail[4] == m[|m| - 2];
      assert BrandChar(m[|m| - 2]);
    }
  }

  lemma NoEarlierOccurrence(front: string, brandId: string, back: string, i: nat)
    requires BrandShape(brandId) && !Contains(front, Mangle(brandId)) && i < |front|
    ensures !OccursAt(Mangle(brandId), front + Mangle(brandId) + back, i)
  {
    hide BrandShape;
    var m := Mangle(brandId);
    var text := front + m + back;
    if i + |m| <= |front| {
      assert text[i..i + |m|] == front[i..i + |m|];
      assert !OccursAt(m, front, i);
    } else if i + |m| <= |text| {
      var n := i + |m| - |front|;
      MangledHasNoBorder(brandId, n);
      var here := text[i..i + |m|];
      assert here[|m| - n..] == m[..n];
    }
  }

  /** The stored name: one mangled id in it is replaced by the id; a name without it, renamed by an operator,
      stays as it is. */
  lemma NameRepaired(front: string, brandId: string, back: string)
    requires BrandShape(brandId) && !Contains(front, Mangle(brandId)) && !Contains(back, Mangle(brandId))
    ensures Replace(front + Mangle(brandId) + back, Mangle(brandId), brandId) == front + brandId + back
  {
    forall i: nat | i < |front| ensures !OccursAt(Mangle(brandId), front + Mangle(brandId) + back, i) {
      NoEarlierOccurrence(front, brandId, back, i);
    }
    ReplaceFirst(front, Mangle(brandId), back, brandId);
    ReplaceAbsent(back, Mangle(brandId), brandId);
  }
}
