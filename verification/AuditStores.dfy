/** The two audit adapters: a locked vector, and a table whose tip is read before the row is inserted. */
module AuditStores {
  import opened Common
  import opened AuditChain

  // ---- In-memory ---------------------------------------------------------------------------

  datatype Logged = Logged(id: nat, hash: Digest, entry: AuditEntry)

  function Entries(log: seq<Logged>): (entries: seq<AuditEntry>)
    ensures |entries| == |log| && forall i :: 0 <= i < |log| ==> entries[i] == log[i].entry
  {
    seq(|log|, i requires 0 <= i < |log| => log[i].entry)
  }

  /** Ids count from one and every stored hash is the tip of the chain up to its entry. */
  ghost predicate Chained(enc: Encoding, log: seq<Logged>) {
    forall i :: 0 <= i < |log| ==> log[i].id == i + 1 && Some(log[i].hash) == Tip(enc, Entries(log)[..i + 1])
  }

  /** The stored hash of the last entry. */
  function LastHash(log: seq<Logged>): Option<Digest> {
    if log == [] then None else Some(log[|log| - 1].hash)
  }

  /** The log after one append: the next id, and the entry hashed over the last hash. */
  function AppendLog(enc: Encoding, log: seq<Logged>, entry: AuditEntry): seq<Logged> {
    log + [Logged(|log| + 1, EntryHash(enc, entry, LastHash(log)), entry)]
  }

  class InMemoryAuditStore {
    const enc: Encoding
    var log: seq<Logged>

    ghost predicate Valid()
      reads this
    {
      Chained(enc, log)
    }

    constructor (enc: Encoding)
      ensures Valid() && this.enc == enc && log == []
    {
      this.enc := enc;
      log := [];
    }

    /** The entry is stored as given (its own `prevHash` stays empty): the link is in the hash. */
    method Append(entry: AuditEntry) returns (id: nat)
      requires Valid()
      modifies this
      ensures Valid() && id == |old(log)| + 1 && log == AppendLog(enc, old(log), entry)
      ensures |log| == |old(log)| + 1 && log[..|old(log)|] == old(log) && log[|old(log)|].entry == entry
      ensures Tip(enc, Entries(log)) == Some(EntryHash(enc, entry, Tip(enc, Entries(old(log)))))
    {
      AppendKeepsChained(enc, log, entry);
      var prev := if log == [] then None else Some(log[|log| - 1].hash);
      var hash := EntryHash(enc, entry, prev);
      id := |log| + 1;
      log := log + [Logged(id, hash, entry)];
    }

    method LatestHash() returns (tip: Option<Digest>)
      requires Valid()
      ensures tip == Tip(enc, Entries(log))
    {
      LastHashIsTip(enc, log);
      tip := if log == [] then None else Some(log[|log| - 1].hash);
    }
  }

  lemma AppendKeepsChained(enc: Encoding, log: seq<Logged>, entry: AuditEntry)
    requires Chained(enc, log)
    ensures var log' := AppendLog(enc, log, entry);
      && Chained(enc, log') && Entries(log') == Entries(log) + [entry]
      && Tip(enc, Entries(log')) == Some(EntryHash(enc, entry, Tip(enc, Entries(log))))
  {
    LastHashIsTip(enc, log);
    var log' := AppendLog(enc, log, entry);
    assert Entries(log') == Entries(log) + [entry];
    assert Entries(log')[..|log|] == Entries(log);
    forall i | 0 <= i < |log'| ensures log'[i].id == i + 1 && Some(log'[i].hash) == Tip(enc, Entries(log')[..i + 1]) {
      if i < |log| {
        assert Entries(log')[..i + 1] == Entries(log)[..i + 1];
      } else {
        assert Entries(log')[..i + 1] == Entries(log');
      }
    }
  }

  lemma LastHashIsTip(enc: Encoding, log: seq<Logged>)
    requires Chained(enc, log)
    ensures Tip(enc, Entries(log)) == LastHash(log)
  {
    assert Entries(log)[..|log|] == Entries(log);
  }

  // ---- Postgres ----------------------------------------------------------------------------

  /** A committed row; `seen` is how many rows were visible when its append read the tip. */
  datatype Row = Row(id: nat, prev: Option<Digest>, hash: Digest, entry: AuditEntry, seen: nat)

  datatype AppendPhase =
    | Started
    | HasTip(prev: Option<Digest>, seen: nat)
    | HasId(prev: Option<Digest>, seen: nat, id: nat)
    | Ended

  datatype Appending = Appending(entry: AuditEntry, phase: AppendPhase)

  /** Rows are listed in commit order; ids come from a sequence and may commit out of order. */
  datatype Table = Table(nextId: nat, rows: seq<Row>, calls: seq<Appending>)

  datatype TableAction =
    | Begin(entry: AuditEntry)
    | ReadTip(call: nat)
    | TakeId(call: nat)
    | Commit(call: nat)
    | Abort(call: nat)

  const EMPTY_TABLE := Table(1, [], [])

  /** The row `ORDER BY id DESC LIMIT 1` returns. */
  function LatestRow(rows: seq<Row>): (r: Row)
    requires rows != []
    ensures r in rows && forall i :: 0 <= i < |rows| ==> rows[i].id <= r.id
  {
    if |rows| == 1 then rows[0]
    else
      var best := LatestRow(rows[..|rows| - 1]);
      if rows[|rows| - 1].id >= best.id then rows[|rows| - 1] else best
  }

  function TableTip(rows: seq<Row>): Option<Digest> {
    if rows == [] then None else Some(LatestRow(rows).hash)
  }

  function TableStep(enc: Encoding, t: Table, a: TableAction): Table {
    match a
    case Begin(entry) => t.(calls := t.calls + [Appending(entry, Started)])
    case ReadTip(c) =>
      if c < |t.calls| && t.calls[c].phase.Started?
      then t.(calls := t.calls[c := t.calls[c].(phase := HasTip(TableTip(t.rows), |t.rows|))]) else t
    case TakeId(c) =>
      if c < |t.calls| && t.calls[c].phase.HasTip?
      then t.(nextId := t.nextId + 1,
              calls := t.calls[c := t.calls[c].(phase := HasId(t.calls[c].phase.prev, t.calls[c].phase.seen, t.nextId))])
      else t
    case Commit(c) =>
      if c < |t.calls| && t.calls[c].phase.HasId?
      then
        var Appending(entry, HasId(prev, seen, id)) := t.calls[c];
        t.(rows := t.rows + [Row(id, prev, EntryHash(enc, entry, prev), entry, seen)],
           calls := t.calls[c := t.calls[c].(phase := Ended)])
      else t
    case Abort(c) =>
      if c < |t.calls| then t.(calls := t.calls[c := t.calls[c].(phase := Ended)]) else t
  }

  function TableExec(enc: Encoding, actions: seq<TableAction>): Table {
    if actions == [] then EMPTY_TABLE
    else TableStep(enc, TableExec(enc, actions[..|actions| - 1]), actions[|actions| - 1])
  }

  /** A predecessor is missing, or the hash of one of these rows. */
  ghost predicate Known(prev: Option<Digest>, rows: seq<Row>) {
    prev.Some? ==> exists j :: 0 <= j < |rows| && rows[j].hash == prev.value
  }

  /** Read consistency: the predecessor is the tip of the rows visible at the read. */
  ghost predicate ReadAt(rows: seq<Row>, prev: Option<Digest>, seen: nat) {
    seen <= |rows| && prev == TableTip(rows[..seen]) && Known(prev, rows[..seen])
  }

  ghost predicate RowOk(enc: Encoding, rows: seq<Row>, i: nat)
    requires i < |rows|
  {
    && rows[i].hash == EntryHash(enc, rows[i].entry, rows[i].prev)
    && rows[i].seen <= i
    && ReadAt(rows[..i], rows[i].prev, rows[i].seen)
    && (forall j :: 0 <= j < rows[i].seen ==> rows[j].id < rows[i].id)
  }

  ghost predicate CallOk(t: Table, c: Appending) {
    match c.phase
    case HasTip(prev, seen) => ReadAt(t.rows, prev, seen)
    case HasId(prev, seen, id) => ReadAt(t.rows, prev, seen) && forall j :: 0 <= j < seen ==> t.rows[j].id < id
    case _ => true
  }

  ghost predicate TableOk(enc: Encoding, t: Table) {
    && (forall i: nat :: i < |t.rows| ==> RowOk(enc, t.rows, i))
    && (forall c :: 0 <= c < |t.calls| ==> CallOk(t, t.calls[c]))
    && (forall i :: 0 <= i < |t.rows| ==> t.rows[i].id < t.nextId)
    && (forall c :: 0 <= c < |t.calls| && t.calls[c].phase.HasId? ==> t.calls[c].phase.id < t.nextId)
  }

  lemma TipIsKnown(rows: seq<Row>)
    ensures Known(TableTip(rows), rows)
  {
    if rows != [] {
      var j :| 0 <= j < |rows| && rows[j] == LatestRow(rows);
    }
  }

  /** Committing appends one row and disturbs no earlier one, and no pending read. */
  lemma CommitKeepsOk(enc: Encoding, t: Table, c: nat)
    requires TableOk(enc, t) && c < |t.calls| && t.calls[c].phase.HasId?
    ensures TableOk(enc, TableStep(enc, t, Commit(c)))
  {
    var u := TableStep(enc, t, Commit(c));
    var n := |t.rows|;
    assert u.rows[..n] == t.rows;
    assert CallOk(t, t.calls[c]);
    forall i: nat | i < |u.rows| ensures RowOk(enc, u.rows, i) {
      if i < n {
        assert RowOk(enc, t.rows, i);
        assert u.rows[..i] == t.rows[..i];
      }
    }
    forall d | 0 <= d < |u.calls| ensures CallOk(u, u.calls[d]) {
      if d != c {
        assert CallOk(t, t.calls[d]);
        var p := t.calls[d].phase;
        if p.HasTip? || p.HasId? { assert u.rows[..p.seen] == t.rows[..p.seen]; }
      }
    }
  }

  lemma TableStepKeepsOk(enc: Encoding, t: Table, a: TableAction)
    requires TableOk(enc, t)
    ensures TableOk(enc, TableStep(enc, t, a))
  {
    match a
    case Commit(c) => if c < |t.calls| && t.calls[c].phase.HasId? { CommitKeepsOk(enc, t, c); }
    case ReadTip(c) =>
      TipIsKnown(t.rows);
      assert t.rows[..|t.rows|] == t.rows;
    case _ =>
  }

  lemma {:induction false} TableExecOk(enc: Encoding, actions: seq<TableAction>)
    ensures TableOk(enc, TableExec(enc, actions))
  {
    if actions != [] {
      TableExecOk(enc, actions[..|actions| - 1]);
      TableStepKeepsOk(enc, TableExec(enc, actions[..|actions| - 1]), actions[|actions| - 1]);
    }
  }

  /**
   Under any interleaving of reads, id draws, commits and aborts: every row's hash is the entry
   hash over its own stored predecessor, which is null or the hash of an earlier row.
   */
  lemma RowsAlwaysLink(enc: Encoding, actions: seq<TableAction>, i: nat)
    requires i < |TableExec(enc, actions).rows|
    ensures var rows := TableExec(enc, actions).rows;
      && rows[i].hash == EntryHash(enc, rows[i].entry, rows[i].prev)
      && (rows[i].prev.Some? ==> exists j :: 0 <= j < i && rows[j].hash == rows[i].prev.value)
  {
    TableExecOk(enc, actions);
    var rows := TableExec(enc, actions).rows;
    assert RowOk(enc, rows, i);
    if rows[i].prev.Some? {
      var prefix := rows[..i][..rows[i].seen];
      var j :| 0 <= j < |prefix| && prefix[j].hash == rows[i].prev.value;
      assert rows[j].hash == rows[i].prev.value;
    }
  }

  /** No append overlapped another: each saw every row committed before its own. */
  ghost predicate NoOverlap(rows: seq<Row>) {
    forall i :: 0 <= i < |rows| ==> rows[i].seen == i
  }

  /** What the rows store, without how they came about. */
  function Stored(rows: seq<Row>): (log: seq<Logged>)
    ensures |log| == |rows| && forall i :: 0 <= i < |rows| ==> log[i] == Logged(rows[i].id, rows[i].hash, rows[i].entry)
  {
    seq(|rows|, i requires 0 <= i < |rows| => Logged(rows[i].id, rows[i].hash, rows[i].entry))
  }

  /** Row `i` links to the tip of the chain of all rows before it. */
  ghost predicate LinksAt(enc: Encoding, rows: seq<Row>, i: nat)
    requires i < |rows|
  {
    rows[i].prev == Tip(enc, Entries(Stored(rows))[..i])
  }

  /** The table is one chain in commit order. */
  ghost predicate SingleChain(enc: Encoding, rows: seq<Row>) {
    forall i: nat :: i < |rows| ==> LinksAt(enc, rows, i)
  }

  /** No two rows have one predecessor. */
  ghost predicate Unforked(rows: seq<Row>) {
    forall i, j :: 0 <= i < j < |rows| ==> rows[i].prev != rows[j].prev
  }

  lemma LastRowIsLatest(rows: seq<Row>)
    requires rows != [] && forall j :: 0 <= j < |rows| - 1 ==> rows[j].id < rows[|rows| - 1].id
    ensures LatestRow(rows) == rows[|rows| - 1]
  {
    var k :| 0 <= k < |rows| && rows[k] == LatestRow(rows);
  }

  /** Among rows without overlap the latest by id is the last committed. */
  lemma TipOfUnoverlapped(enc: Encoding, t: Table, n: nat)
    requires TableOk(enc, t) && n <= |t.rows| && forall i :: 0 <= i < n ==> t.rows[i].seen == i
    ensures TableTip(t.rows[..n]) == if n == 0 then None else Some(t.rows[n - 1].hash)
  {
    if n > 0 {
      assert RowOk(enc, t.rows, n - 1);
      LastRowIsLatest(t.rows[..n]);
    }
  }

  /** Row `i` read the tip of the rows it saw; if those did not overlap, that is their last hash. */
  lemma PredecessorRead(enc: Encoding, t: Table, i: nat)
    requires TableOk(enc, t) && i < |t.rows| && forall k :: 0 <= k < i && k < t.rows[i].seen ==> t.rows[k].seen == k
    ensures var seen := t.rows[i].seen;
      seen <= i && t.rows[i].prev == if seen == 0 then None else Some(t.rows[seen - 1].hash)
  {
    assert RowOk(enc, t.rows, i);
    assert t.rows[..i][..t.rows[i].seen] == t.rows[..t.rows[i].seen];
    TipOfUnoverlapped(enc, t, t.rows[i].seen);
  }

  lemma {:induction false} NoOverlapLinks(enc: Encoding, t: Table, i: nat)
    requires TableOk(enc, t) && NoOverlap(t.rows) && i < |t.rows|
    ensures LinksAt(enc, t.rows, i)
    ensures Some(t.rows[i].hash) == Tip(enc, Entries(Stored(t.rows))[..i + 1])
  {
    PredecessorRead(enc, t, i);
    assert RowOk(enc, t.rows, i);
    TipOfPrefix(enc, Entries(Stored(t.rows)), i);
    if i > 0 { NoOverlapLinks(enc, t, i - 1); }
  }

  /** The first row that missed a commit has the predecessor of the first row it missed. */
  lemma {:induction false} OverlapForks(enc: Encoding, t: Table, i: nat)
    requires TableOk(enc, t) && i < |t.rows| && t.rows[i].seen != i
    ensures !Unforked(t.rows)
  {
    if k: nat :| k < i && t.rows[k].seen != k {
      OverlapForks(enc, t, k);
    } else {
      assert RowOk(enc, t.rows, i);
      var seen := t.rows[i].seen;
      PredecessorRead(enc, t, i);
      PredecessorRead(enc, t, seen);
      assert t.rows[seen].prev == t.rows[i].prev;
    }
  }

  /** The bytes hashed for entry `i` of a chain. */
  ghost function HashedAt(enc: Encoding, entries: seq<AuditEntry>, i: nat): Bytes
    requires i < |entries|
  {
    Preimage(enc, entries[i], Tip(enc, entries[..i]))
  }

  /** Distinct hashed bytes at two positions of one chain have distinct digests. */
  ghost predicate NoCollision(enc: Encoding, entries: seq<AuditEntry>, i: nat, j: nat)
    requires i < |entries| && j < |entries|
  {
    enc.sha256(HashedAt(enc, entries, i)) == enc.sha256(HashedAt(enc, entries, j)) ==>
      HashedAt(enc, entries, i) == HashedAt(enc, entries, j)
  }

  /** Recomputing the chain meets no collision and no digest of 32 zero bytes. */
  ghost predicate Sound(enc: Encoding, entries: seq<AuditEntry>) {
    && (forall i: nat :: i < |entries| ==> enc.sha256(HashedAt(enc, entries, i)) != ZEROS)
    && (forall i: nat, j: nat :: i < |entries| && j < |entries| ==> NoCollision(enc, entries, i, j))
  }

  lemma SameTipSameLink(enc: Encoding, entries: seq<AuditEntry>, i: nat, j: nat)
    requires i < |entries| && j < |entries| && NoCollision(enc, entries, i, j)
    requires Tip(enc, entries[..i + 1]) == Tip(enc, entries[..j + 1])
    ensures PrevBytes(Tip(enc, entries[..i])) == PrevBytes(Tip(enc, entries[..j]))
  {
    TipOfPrefix(enc, entries, i);
    TipOfPrefix(enc, entries, j);
    PreimageCommits(enc, entries[i], Tip(enc, entries[..i]), entries[j], Tip(enc, entries[..j]));
  }

  lemma TipIsNotZero(enc: Encoding, entries: seq<AuditEntry>, j: nat)
    requires 0 < j <= |entries| && Sound(enc, entries)
    ensures Tip(enc, entries[..j]).Some? && Tip(enc, entries[..j]).value != ZEROS
  {
    var k := j - 1;
    TipOfPrefix(enc, entries, k);
    assert enc.sha256(HashedAt(enc, entries, k)) != ZEROS;
  }

  /** A chain never comes back to an earlier tip. */
  lemma {:induction false} TipsDiffer(enc: Encoding, entries: seq<AuditEntry>, i: nat, j: nat)
    requires i < j <= |entries| && Sound(enc, entries)
    ensures Tip(enc, entries[..i]) != Tip(enc, entries[..j])
  {
    if i > 0 && Tip(enc, entries[..i]) == Tip(enc, entries[..j]) {
      var p, q := i - 1, j - 1;
      assert NoCollision(enc, entries, p, q);
      SameTipSameLink(enc, entries, p, q);
      TipIsNotZero(enc, entries, q);
      TipsDiffer(enc, entries, p, q);
      if p > 0 { TipIsNotZero(enc, entries, p); }
    }
  }

  lemma SingleChainUnforked(enc: Encoding, rows: seq<Row>)
    requires SingleChain(enc, rows) && Sound(enc, Entries(Stored(rows)))
    ensures Unforked(rows)
  {
    forall i, j | 0 <= i < j < |rows| ensures rows[i].prev != rows[j].prev {
      assert LinksAt(enc, rows, i) && LinksAt(enc, rows, j);
      TipsDiffer(enc, Entries(Stored(rows)), i, j);
    }
  }

  /**
   Exactly when the table is one chain. Over every interleaving: appends that do not overlap give a
   single chain; rows with distinct predecessors never overlapped; and, as long as recomputing the
   chain meets neither a collision nor a zero digest, single chain, no overlap and no fork are one
   and the same.
   */
  lemma SingleChainIff(enc: Encoding, actions: seq<TableAction>)
    ensures var rows := TableExec(enc, actions).rows;
      && (NoOverlap(rows) ==> SingleChain(enc, rows))
      && (Unforked(rows) ==> NoOverlap(rows))
      && (Sound(enc, Entries(Stored(rows))) ==>
            (NoOverlap(rows) <==> SingleChain(enc, rows)) && (NoOverlap(rows) <==> Unforked(rows)))
  {
    TableExecOk(enc, actions);
    var t := TableExec(enc, actions);
    if NoOverlap(t.rows) {
      forall i: nat | i < |t.rows| ensures LinksAt(enc, t.rows, i) { NoOverlapLinks(enc, t, i); }
    } else {
      var i: nat :| i < |t.rows| && t.rows[i].seen != i;
      OverlapForks(enc, t, i);
    }
    if SingleChain(enc, t.rows) && Sound(enc, Entries(Stored(t.rows))) { SingleChainUnforked(enc, t.rows); }
  }

  lemma PrefixTip(enc: Encoding, log: seq<Logged>, i: nat)
    requires Chained(enc, log) && i <= |log|
    ensures LastHash(log[..i]) == Tip(enc, Entries(log)[..i])
  {
    if i > 0 {
      var k := i - 1;
      assert Some(log[k].hash) == Tip(enc, Entries(log)[..k + 1]);
    }
  }

  /**
   When no two appends overlap, the table is the log an in-memory store would hold after appending
   the same entries in commit order: hash for hash and link for link.
   */
  lemma NoOverlapRefinesInMemory(enc: Encoding, actions: seq<TableAction>, log: seq<Logged>, i: nat)
    requires NoOverlap(TableExec(enc, actions).rows) && i < |TableExec(enc, actions).rows|
    requires Chained(enc, log) && Entries(log) == Entries(Stored(TableExec(enc, actions).rows))
    ensures TableExec(enc, actions).rows[i].hash == log[i].hash
    ensures TableExec(enc, actions).rows[i].prev == LastHash(log[..i])
  {
    TableExecOk(enc, actions);
    NoOverlapLinks(enc, TableExec(enc, actions), i);
    PrefixTip(enc, log, i);
    PrefixTip(enc, log, i + 1);
  }

  lemma TableExecAppend(enc: Encoding, actions: seq<TableAction>, a: TableAction)
    ensures TableExec(enc, actions + [a]) == TableStep(enc, TableExec(enc, actions), a)
  {
    assert (actions + [a])[..|actions|] == actions;
  }

  /** Overlap is reachable: two appends that read the empty table both start a chain. */
  lemma TwoRootsReachable(enc: Encoding, e1: AuditEntry, e2: AuditEntry)
    ensures exists actions ::
      var t := TableExec(enc, actions);
      && |t.rows| == 2 && t.rows[0].entry == e1 && t.rows[1].entry == e2
      && t.rows[0].prev == t.rows[1].prev == None
  {
    var prefix := [Begin(e1)] + [Begin(e2)] + [ReadTip(0)] + [ReadTip(1)];
    assert TableExec(enc, prefix) == Table(1, [], [Appending(e1, HasTip(None, 0)), Appending(e2, HasTip(None, 0))]) by {
      TableExecAppend(enc, [], Begin(e1));
      assert [] + [Begin(e1)] == [Begin(e1)];
      TableExecAppend(enc, [Begin(e1)], Begin(e2));
      TableExecAppend(enc, [Begin(e1)] + [Begin(e2)], ReadTip(0));
      TableExecAppend(enc, [Begin(e1)] + [Begin(e2)] + [ReadTip(0)], ReadTip(1));
    }
    var draws := prefix + [TakeId(0)] + [TakeId(1)];
    assert TableExec(enc, draws) == Table(3, [], [Appending(e1, HasId(None, 0, 1)), Appending(e2, HasId(None, 0, 2))]) by {
      TableExecAppend(enc, prefix, TakeId(0));
      TableExecAppend(enc, prefix + [TakeId(0)], TakeId(1));
    }
    TableExecAppend(enc, draws, Commit(0));
    TableExecAppend(enc, draws + [Commit(0)], Commit(1));
    var t := TableExec(enc, draws + [Commit(0)] + [Commit(1)]);
    assert |t.rows| == 2;
  }
}
