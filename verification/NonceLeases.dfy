/** The durable-nonce lease table: who may hold which row, over every interleaving of clients. */
module NonceLeases {
  import opened Common

  datatype Status = Free | Leased

  /** A pre-seeded row; its position in the table is its id order. */
  datatype Row = Row(status: Status, account: string, authority: string, value: string)

  datatype Allocation = Allocation(id: nat, account: string, authority: string, value: string)

  /** The lowest free row that no concurrent statement has locked. */
  function FirstFree(rows: seq<Row>, locked: set<nat>, start: nat): (r: Option<nat>)
    requires start <= |rows|
    ensures r.Some? ==> start <= r.value < |rows| && rows[r.value].status.Free? && r.value !in locked
    ensures forall i :: start <= i < (if r.Some? then r.value else |rows|) ==> rows[i].status.Leased? || i in locked
    decreases |rows| - start
  {
    if start == |rows| then None
    else if rows[start].status.Free? && start !in locked then Some(start)
    else FirstFree(rows, locked, start + 1)
  }

  class NonceStore {
    var rows: seq<Row>

    constructor (rows: seq<Row>)
      ensures this.rows == rows
    {
      this.rows := rows;
    }

    /** Claims the lowest free row, then parses it; a parse failure does not give the row back. */
    method Allocate(locked: set<nat>, parses: Row -> bool) returns (r: Result<Allocation, string>)
      modifies this
      ensures rows == Claimed(old(rows), locked)
      ensures r.Ok? <==> FirstFree(old(rows), locked, 0).Some? && parses(old(rows)[FirstFree(old(rows), locked, 0).value])
      ensures r.Ok? ==> r.value.id < |rows| && old(rows)[r.value.id].status.Free? && rows[r.value.id].status.Leased?
      ensures r.Ok? ==> && r.value.account == old(rows)[r.value.id].account
                        && r.value.authority == old(rows)[r.value.id].authority
                        && r.value.value == old(rows)[r.value.id].value
                        && FirstFree(old(rows), locked, 0) == Some(r.value.id)
    {
      var free := FirstFree(rows, locked, 0);
      if free.None? {
        return Err("durable-nonce pool exhausted or unseeded");
      }
      var id := free.value;
      rows := rows[id := rows[id].(status := Leased)];
      if !parses(rows[id].(status := Free)) {
        return Err("bad nonce row");
      }
      return Ok(Allocation(id, rows[id].account, rows[id].authority, rows[id].value));
    }

    method Release(id: nat)
      modifies this
      ensures rows == Released(old(rows), id)
    {
      if id < |rows| {
        rows := rows[id := rows[id].(status := Free)];
      }
    }
  }

  function Claimed(rows: seq<Row>, locked: set<nat>): seq<Row> {
    var free := FirstFree(rows, locked, 0);
    if free.None? then rows else rows[free.value := rows[free.value].(status := Leased)]
  }

  function Released(rows: seq<Row>, id: nat): seq<Row> {
    if id < |rows| then rows[id := rows[id].(status := Free)] else rows
  }

  // ---- Clients ------------------------------------------------------------------------------

  /**
   `held` maps each outstanding lease to its row; `leaked` rows are leased without a holder here:
   an earlier process left them so, or their values did not parse.
   */
  datatype Pool = Pool(rows: seq<Row>, held: map<nat, nat>, leaked: set<nat>, nextLease: nat)

  datatype PoolAction =
    | Lease(locked: set<nat>)
    | GiveBack(lease: nat)
    | StrayRelease(id: nat)

  function PoolStep(parses: Row -> bool, p: Pool, a: PoolAction): Pool {
    match a
    case Lease(locked) =>
      var free := FirstFree(p.rows, locked, 0);
      if free.None? then p
      else if parses(p.rows[free.value])
      then Pool(Claimed(p.rows, locked), p.held[p.nextLease := free.value], p.leaked, p.nextLease + 1)
      else p.(rows := Claimed(p.rows, locked), leaked := p.leaked + {free.value})
    case GiveBack(lease) =>
      if lease !in p.held then p else p.(rows := Released(p.rows, p.held[lease]), held := p.held - {lease})
    case StrayRelease(id) => p.(rows := Released(p.rows, id), leaked := p.leaked - {id})
  }

  function LeasedIds(rows: seq<Row>): set<nat> {
    set id: nat | id < |rows| && rows[id].status.Leased?
  }

  /** A new process knows of no holder of the rows it finds leased. */
  function Opened(rows: seq<Row>): Pool {
    Pool(rows, map[], LeasedIds(rows), 0)
  }

  function PoolExec(parses: Row -> bool, p: Pool, actions: seq<PoolAction>): Pool {
    if actions == [] then p
    else PoolStep(parses, PoolExec(parses, p, actions[..|actions| - 1]), actions[|actions| - 1])
  }

  ghost predicate SameTable(a: seq<Row>, b: seq<Row>) {
    |a| == |b| && forall i :: 0 <= i < |a| ==> a[i].(status := Free) == b[i].(status := Free)
  }

  /** Row `id` is out of the free list for a reason that is on record. */
  ghost predicate Explained(p: Pool, id: nat) {
    id in p.leaked || IsHeld(p, id)
  }

  /** No two leases share a row. */
  ghost predicate Exclusive(p: Pool) {
    forall l, m :: l in p.held && m in p.held && p.held[l] == p.held[m] ==> l == m
  }

  ghost predicate IsHeld(p: Pool, id: nat) {
    exists l :: l in p.held && p.held[l] == id
  }

  ghost predicate PoolOk(p: Pool) {
    && (forall l :: l in p.held ==>
          l < p.nextLease && p.held[l] < |p.rows| && p.rows[p.held[l]].status.Leased? && p.held[l] !in p.leaked)
    && Exclusive(p)
    && (forall id :: id in p.leaked ==> id < |p.rows| && p.rows[id].status.Leased?)
    && (forall id: nat :: id < |p.rows| && p.rows[id].status.Leased? ==> Explained(p, id))
  }

  /** What explained a leased row still does when nothing is given back. */
  lemma StillExplained(p: Pool, q: Pool, id: nat)
    requires Explained(p, id) && p.leaked <= q.leaked && (forall l :: l in p.held ==> l in q.held && q.held[l] == p.held[l])
    ensures Explained(q, id)
  {
    if id !in p.leaked {
      var l :| l in p.held && p.held[l] == id;
      assert q.held[l] == id;
    }
  }

  lemma HandOutOk(p: Pool, id: nat)
    requires PoolOk(p) && id < |p.rows| && p.rows[id].status.Free?
    ensures PoolOk(Pool(p.rows[id := p.rows[id].(status := Leased)], p.held[p.nextLease := id], p.leaked, p.nextLease + 1))
  {
    var q := Pool(p.rows[id := p.rows[id].(status := Leased)], p.held[p.nextLease := id], p.leaked, p.nextLease + 1);
    forall r: nat | r < |q.rows| && q.rows[r].status.Leased? ensures Explained(q, r) {
      if r == id { assert q.held[p.nextLease] == id; } else { StillExplained(p, q, r); }
    }
  }

  lemma LeakOk(p: Pool, id: nat)
    requires PoolOk(p) && id < |p.rows| && p.rows[id].status.Free?
    ensures PoolOk(p.(rows := p.rows[id := p.rows[id].(status := Leased)], leaked := p.leaked + {id}))
  {
    var q := p.(rows := p.rows[id := p.rows[id].(status := Leased)], leaked := p.leaked + {id});
    forall r: nat | r < |q.rows| && q.rows[r].status.Leased? ensures Explained(q, r) {
      if r != id { StillExplained(p, q, r); }
    }
  }

  lemma GiveBackOk(p: Pool, lease: nat)
    requires PoolOk(p) && lease in p.held
    ensures PoolOk(p.(rows := Released(p.rows, p.held[lease]), held := p.held - {lease}))
  {
    var q := p.(rows := Released(p.rows, p.held[lease]), held := p.held - {lease});
    forall r: nat | r < |q.rows| && q.rows[r].status.Leased? ensures Explained(q, r) {
      assert Explained(p, r);
      if r !in p.leaked {
        var l :| l in p.held && p.held[l] == r;
        assert q.held[l] == r;
      }
    }
  }

  /** A release by a non-holder is harmless on a row that nobody holds. */
  lemma StrayReleaseOk(p: Pool, id: nat)
    requires PoolOk(p) && !IsHeld(p, id)
    ensures PoolOk(p.(rows := Released(p.rows, id), leaked := p.leaked - {id}))
  {
    var q := p.(rows := Released(p.rows, id), leaked := p.leaked - {id});
    forall r: nat | r < |q.rows| && q.rows[r].status.Leased? ensures Explained(q, r) {
      assert Explained(p, r);
      if r !in p.leaked {
        var l :| l in p.held && p.held[l] == r;
        assert q.held[l] == r;
      }
    }
  }

  ghost predicate Disciplined(p: Pool, a: PoolAction) {
    a.StrayRelease? ==> !IsHeld(p, a.id)
  }

  lemma PoolStepOk(parses: Row -> bool, p: Pool, a: PoolAction)
    requires PoolOk(p) && Disciplined(p, a)
    ensures PoolOk(PoolStep(parses, p, a))
  {
    match a
    case Lease(locked) =>
      var free := FirstFree(p.rows, locked, 0);
      if free.Some? && parses(p.rows[free.value]) { HandOutOk(p, free.value); }
      if free.Some? && !parses(p.rows[free.value]) { LeakOk(p, free.value); }
    case GiveBack(lease) => if lease in p.held { GiveBackOk(p, lease); }
    case StrayRelease(id) => StrayReleaseOk(p, id);
  }

  /** Only statuses change, whatever the clients do. */
  lemma StepKeepsTable(parses: Row -> bool, p: Pool, a: PoolAction)
    ensures SameTable(p.rows, PoolStep(parses, p, a).rows)
  {
  }

  /** No action releases a row that somebody else holds. */
  ghost predicate AllDisciplined(parses: Row -> bool, p: Pool, actions: seq<PoolAction>) {
    forall n: nat :: n < |actions| ==> Disciplined(PoolExec(parses, p, actions[..n]), actions[n])
  }

  lemma {:induction false} PoolExecOk(parses: Row -> bool, p: Pool, actions: seq<PoolAction>)
    requires PoolOk(p) && AllDisciplined(parses, p, actions)
    ensures PoolOk(PoolExec(parses, p, actions)) && SameTable(p.rows, PoolExec(parses, p, actions).rows)
    ensures forall id :: id in PoolExec(parses, p, actions).leaked ==>
      id < |p.rows| && (id in p.leaked || !parses(p.rows[id].(status := Free)))
  {
    if actions != [] {
      var n := |actions| - 1;
      assert forall k: nat :: k < n ==> actions[..n][..k] == actions[..k];
      PoolExecOk(parses, p, actions[..n]);
      var q, a := PoolExec(parses, p, actions[..n]), actions[n];
      PoolStepOk(parses, q, a);
      StepKeepsTable(parses, q, a);
      if a.Lease? {
        var free := FirstFree(q.rows, a.locked, 0);
        if free.Some? { assert q.rows[free.value] == p.rows[free.value].(status := Free); }
      }
    }
  }

  /**
   From a table in any state, if leases are given back only by their holders and once, and no one
   else releases a held row, then over every interleaving no two leases share a row, every held row
   is marked leased, the leased rows are exactly the held and the leaked ones, and the table keeps
   its rows. A leaked row was leased at the start or has values that do not parse.
   */
  lemma LeasesAreExclusive(parses: Row -> bool, rows: seq<Row>, actions: seq<PoolAction>)
    requires AllDisciplined(parses, Opened(rows), actions)
    ensures var p := PoolExec(parses, Opened(rows), actions);
      && PoolOk(p) && SameTable(rows, p.rows)
      && forall id :: id in p.leaked ==> id < |rows| && (rows[id].status.Leased? || !parses(rows[id].(status := Free)))
  {
    PoolExecOk(parses, Opened(rows), actions);
  }

  lemma PoolExecAppend(parses: Row -> bool, p: Pool, actions: seq<PoolAction>, a: PoolAction)
    ensures PoolExec(parses, p, actions + [a]) == PoolStep(parses, PoolExec(parses, p, actions), a)
  {
    assert (actions + [a])[..|actions|] == actions;
  }

  /** Every id below `n` but one, as when concurrent statements have the other rows locked. */
  function OtherIds(id: nat, n: nat): (ids: set<nat>)
    ensures forall k: nat :: k in ids <==> k < n && k != id
  {
    if n == 0 then {} else OtherIds(id, n - 1) + if n - 1 == id then {} else {n - 1}
  }

  /** The release statement checks nothing: released by another, a held row is handed out again. */
  lemma StrayReleaseShares(parses: Row -> bool, p: Pool, id: nat)
    requires PoolOk(p) && IsHeld(p, id) && parses(p.rows[id].(status := Free))
    ensures var others := OtherIds(id, |p.rows|);
      !Exclusive(PoolStep(parses, PoolStep(parses, p, StrayRelease(id)), Lease(others)))
  {
    var lease :| lease in p.held && p.held[lease] == id;
    var others := OtherIds(id, |p.rows|);
    var q := PoolStep(parses, p, StrayRelease(id));
    assert q.rows[id] == p.rows[id].(status := Free);
    assert FirstFree(q.rows, others, 0) == Some(id);
    var r := PoolStep(parses, q, Lease(others));
    assert r.held[p.nextLease] == id && r.held[lease] == id;
  }

  /**
   Exactly when a release by a non-holder breaks exclusion: whatever disciplined clients do
   afterwards no two leases share a row, if and only if nobody held the released row.
   */
  lemma StrayReleaseSafeIff(parses: Row -> bool, p: Pool, id: nat)
    requires PoolOk(p) && id < |p.rows| && parses(p.rows[id].(status := Free))
    ensures var q := PoolStep(parses, p, StrayRelease(id));
      !IsHeld(p, id) <==> forall rest :: AllDisciplined(parses, q, rest) ==> Exclusive(PoolExec(parses, q, rest))
  {
    var q := PoolStep(parses, p, StrayRelease(id));
    if IsHeld(p, id) {
      StrayReleaseShares(parses, p, id);
      var others := OtherIds(id, |p.rows|);
      PoolExecAppend(parses, q, [], Lease(others));
      assert [] + [Lease(others)] == [Lease(others)];
      assert AllDisciplined(parses, q, [Lease(others)]);
    } else {
      StrayReleaseOk(p, id);
      forall rest | AllDisciplined(parses, q, rest) ensures Exclusive(PoolExec(parses, q, rest)) {
        PoolExecOk(parses, q, rest);
      }
    }
  }
}
