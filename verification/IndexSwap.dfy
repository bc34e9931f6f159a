/** Migration a164b85bab9e: the unique index on media buys is replaced by a wider one while writes go on.
    The statements of the migration interleave freely with inserts, updates and deletes. */
module IndexSwap {
  import opened Text

  datatype MediaBuy = MediaBuy(tenantId: string, principalId: string, accountId: Option<string>, key: Option<string>)

  /** Both indexes are partial: they hold rows with an idempotency key only. */
  predicate SameThree(a: MediaBuy, b: MediaBuy) {
    a.key.Some? && a.key == b.key && a.tenantId == b.tenantId && a.principalId == b.principalId
  }

  /** NULL accounts are equal to each other. */
  predicate SameFour(a: MediaBuy, b: MediaBuy) {
    SameThree(a, b) && a.accountId == b.accountId
  }

  predicate ThreeUnique(rows: seq<MediaBuy>) {
    forall i, j | 0 <= i < j < |rows| :: !SameThree(rows[i], rows[j])
  }

  predicate FourUnique(rows: seq<MediaBuy>) {
    forall i, j | 0 <= i < j < |rows| :: !SameFour(rows[i], rows[j])
  }

  /** Where the migration stands. While the new index is being built it enforces nothing yet. */
  datatype Phase = Before | Building | Both | NewOnly | Renamed

  predicate OldLive(p: Phase) {
    p == Before || p == Building || p == Both
  }

  predicate NewLive(p: Phase) {
    p == Both || p == NewOnly || p == Renamed
  }

  datatype State = State(rows: seq<MediaBuy>, phase: Phase)

  /** What happens next: the migration's own steps, or a write. `Write(i, row)` updates row `i`, or inserts when
      `i` is past the end. */
  datatype Event = StartBuild | FinishBuild | DropOld | RenameNew | Write(i: nat, row: MediaBuy) | Delete(i: nat)

  function Written(rows: seq<MediaBuy>, i: nat, row: MediaBuy): seq<MediaBuy> {
    if i < |rows| then rows[i := row] else rows + [row]
  }

  /** Whether a write violates one of the live indexes. */
  predicate Refused(s: State, i: nat, row: MediaBuy) {
    exists j | 0 <= j < |s.rows| ::
      j != i && ((OldLive(s.phase) && SameThree(row, s.rows[j])) || (NewLive(s.phase) && SameFour(row, s.rows[j])))
  }

  /** The next state. A refused write and a statement out of its turn change nothing; a build over duplicates
      fails and leaves no index behind. */
  function Step(s: State, e: Event): State {
    match e
    case StartBuild => if s.phase == Before then s.(phase := Building) else s
    case FinishBuild =>
      if s.phase != Building then s else if FourUnique(s.rows) then s.(phase := Both) else s.(phase := Before)
    case DropOld => if s.phase == Both then s.(phase := NewOnly) else s
    case RenameNew => if s.phase == NewOnly then s.(phase := Renamed) else s
    case Write(i, row) => if Refused(s, i, row) then s else s.(rows := Written(s.rows, i, row))
    case Delete(i) => if i < |s.rows| then s.(rows := s.rows[..i] + s.rows[i + 1..]) else s
  }

  function Run(s: State, events: seq<Event>): State
    decreases |events|
  {
    if events == [] then s else Run(Step(s, events[0]), events[1..])
  }

  /** The invariant: whatever index is live, keyed rows are unique on all four columns, and on three as long as
      the old index is there. */
  predicate Guarded(s: State) {
    FourUnique(s.rows) && (OldLive(s.phase) ==> ThreeUnique(s.rows))
  }

  lemma ThreeImpliesFour(rows: seq<MediaBuy>)
    requires ThreeUnique(rows)
    ensures FourUnique(rows)
  {
  }

  lemma Symmetric(a: MediaBuy, b: MediaBuy)
    ensures SameThree(a, b) == SameThree(b, a) && SameFour(a, b) == SameFour(b, a)
  {
  }

  lemma WriteKeepsThree(rows: seq<MediaBuy>, i: nat, row: MediaBuy)
    requires ThreeUnique(rows) && forall j | 0 <= j < |rows| && j != i :: !SameThree(row, rows[j])
    ensures ThreeUnique(Written(rows, i, row))
  {
    hide SameThree;
    forall j | 0 <= j < |rows| ensures SameThree(row, rows[j]) == SameThree(rows[j], row) {
      Symmetric(row, rows[j]);
    }
  }

  lemma WriteKeepsFour(rows: seq<MediaBuy>, i: nat, row: MediaBuy)
    requires FourUnique(rows) && forall j | 0 <= j < |rows| && j != i :: !SameFour(row, rows[j])
    ensures FourUnique(Written(rows, i, row))
  {
    hide SameFour;
    forall j | 0 <= j < |rows| ensures SameFour(row, rows[j]) == SameFour(rows[j], row) {
      Symmetric(row, rows[j]);
    }
  }

  lemma DeleteKeeps(rows: seq<MediaBuy>, i: nat)
    requires i < |rows|
    ensures ThreeUnique(rows) ==> ThreeUnique(rows[..i] + rows[i + 1..])
    ensures FourUnique(rows) ==> FourUnique(rows[..i] + rows[i + 1..])
  {
    hide SameThree, SameFour;
    var rest := rows[..i] + rows[i + 1..];
    assert forall j | 0 <= j < |rest| :: rest[j] == rows[if j < i then j else j + 1];
  }

  /** One event keeps the invariant; in particular a build never finds duplicates. */
  lemma StepKeepsGuarded(s: State, e: Event)
    requires Guarded(s)
    ensures Guarded(Step(s, e))
    ensures e == FinishBuild && s.phase == Building ==> Step(s, e).phase == Both
  {
    hide SameFour, SameThree, ThreeUnique, FourUnique;
    match e
    case Write(i, row) =>
      if !Refused(s, i, row) {
        if OldLive(s.phase) {
          WriteKeepsThree(s.rows, i, row);
          ThreeImpliesFour(Written(s.rows, i, row));
        } else {
          WriteKeepsFour(s.rows, i, row);
        }
      }
    case Delete(i) =>
      if i < |s.rows| {
        DeleteKeeps(s.rows, i);
      }
    case _ =>
  }

  /** The swap has no gap: from a table under the old index, over every interleaving of the migration with
      writes, keyed rows are unique on (tenant, principal, account, key) at every moment. */
  lemma {:induction false} NeverAGap(s: State, events: seq<Event>)
    requires ThreeUnique(s.rows) && s.phase == Before
    ensures forall n: nat | n <= |events| :: Guarded(Run(s, events[..n]))
  {
    hide ThreeUnique, Run;
    ThreeImpliesFour(s.rows);
    assert Guarded(s);
    forall n: nat | n <= |events| ensures Guarded(Run(s, events[..n])) {
      RunKeepsGuarded(s, events[..n]);
    }
  }

  lemma {:induction false} RunKeepsGuarded(s: State, events: seq<Event>)
    requires Guarded(s)
    ensures Guarded(Run(s, events))
    decreases |events|
  {
    hide Guarded, Step;
    if events != [] {
      StepKeepsGuarded(s, events[0]);
      RunKeepsGuarded(Step(s, events[0]), events[1..]);
    }
  }

  /** A duplicate on all four columns is refused in every phase. */
  lemma DuplicateAlwaysRefused(s: State, i: nat, row: MediaBuy, j: nat)
    requires j < |s.rows| && j != i && SameFour(row, s.rows[j])
    ensures Refused(s, i, row) && Step(s, Write(i, row)) == s
  {
    assert OldLive(s.phase) || NewLive(s.phase);
  }

  /** Some other row has the key of `row` within its tenant and principal. */
  predicate KeyInUse(rows: seq<MediaBuy>, i: nat, row: MediaBuy) {
    exists j | 0 <= j < |rows| :: j != i && SameThree(row, rows[j])
  }

  /** And the widening takes effect: no write is refused after the swap that went through before it, and the
      writes that it lets through are exactly those whose key is in use under other accounts only. */
  lemma WideningLetsThrough(rows: seq<MediaBuy>, i: nat, row: MediaBuy)
    ensures Refused(State(rows, Renamed), i, row) ==> Refused(State(rows, Before), i, row)
    ensures Refused(State(rows, Before), i, row) && !Refused(State(rows, Renamed), i, row)
       <==> (KeyInUse(rows, i, row)
             && forall j | 0 <= j < |rows| && j != i && SameThree(row, rows[j]) :: rows[j].accountId != row.accountId)
  {
  }

  /** Going back is possible if and only if no key was reused across accounts. */
  lemma DowngradeExactly(rows: seq<MediaBuy>)
    requires FourUnique(rows)
    ensures ThreeUnique(rows)
       <==> forall i, j | 0 <= i < j < |rows| && SameThree(rows[i], rows[j]) :: rows[i].accountId == rows[j].accountId
  {
    if forall i, j | 0 <= i < j < |rows| && SameThree(rows[i], rows[j]) :: rows[i].accountId == rows[j].accountId {
      forall i, j | 0 <= i < j < |rows| ensures !SameThree(rows[i], rows[j]) {
        assert !SameFour(rows[i], rows[j]);
      }
    }
  }

  // ------------------------------------------------------------------ the table and its migration

  class Table {
    var rows: seq<MediaBuy>
    var phase: Phase

    constructor (rows: seq<MediaBuy>)
      requires ThreeUnique(rows)
      ensures Now() == State(rows, Before) && Valid()
    {
      this.rows := rows;
      phase := Before;
      new;
      ThreeImpliesFour(rows);
    }

    function Now(): State
      reads this
    {
      State(rows, phase)
    }

    ghost predicate Valid()
      reads this
    {
      Guarded(Now())
    }

    /** `CREATE UNIQUE INDEX CONCURRENTLY`: the first scan begins. */
    method BeginBuild()
      requires Valid() && phase == Before
      modifies this
      ensures Valid() && Now() == Step(old(Now()), StartBuild)
    {
      phase := Building;
    }

    /** The build ends with a check of the whole table; it cannot fail. */
    method EndBuild() returns (ok: bool)
      requires Valid() && phase == Building
      modifies this
      ensures Valid() && Now() == Step(old(Now()), FinishBuild)
      ensures ok && phase == Both
    {
      ok := FourUnique(rows);
      phase := if ok then Both else Before;
    }

    method DropOldIndex()
      requires Valid() && phase == Both
      modifies this
      ensures Valid() && Now() == Step(old(Now()), DropOld) && phase == NewOnly
    {
      phase := NewOnly;
    }

    method RenameIndex()
      requires Valid() && phase == NewOnly
      modifies this
      ensures Valid() && Now() == Step(old(Now()), RenameNew) && phase == Renamed
    {
      phase := Renamed;
    }

    /** An insert or update at any moment: the row is compared with every other row under each live index. */
    method Put(i: nat, row: MediaBuy) returns (accepted: bool)
      requires Valid()
      modifies this
      ensures Valid() && Now() == Step(old(Now()), Write(i, row))
      ensures accepted <==> !Refused(old(Now()), i, row)
    {
      hide SameThree, SameFour, ThreeUnique, FourUnique;
      StepKeepsGuarded(Now(), Write(i, row));
      for j := 0 to |rows|
        invariant rows == old(rows) && phase == old(phase)
        invariant forall k | 0 <= k < j :: k != i ==>
                    !((OldLive(phase) && SameThree(row, rows[k])) || (NewLive(phase) && SameFour(row, rows[k])))
      {
        if j != i && ((OldLive(phase) && SameThree(row, rows[j])) || (NewLive(phase) && SameFour(row, rows[j]))) {
          return false;
        }
      }
      rows := Written(rows, i, row);
      accepted := true;
    }

    method Remove(i: nat)
      requires Valid() && i < |rows|
      modifies this
      ensures Valid() && Now() == Step(old(Now()), Delete(i))
    {
      StepKeepsGuarded(Now(), Delete(i));
      rows := rows[..i] + rows[i + 1..];
    }
  }
}
