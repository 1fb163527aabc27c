/** The hash-chained audit trail: what an entry's hash commits to, and what a chain tip commits to. */
module AuditChain {
  import opened Common

  type Digest = d: Bytes | |d| == 32 witness ZEROS

  type U64 = n: nat | n < 0x1_0000_0000_0000_0000

  datatype AuditOutcome = Submitted(signature: Signature, slot: nat) | Rejected(stage: string, reason: string)

  datatype AuditEntry = AuditEntry(
    prevHash: Option<Digest>, correlationId: string, identity: string, action: string,
    outcome: AuditOutcome, createdAtMs: U64)

  /** Library functions the hash is built from. */
  datatype Encoding = Encoding(utf8: string -> Bytes, outcomeJson: AuditOutcome -> Bytes, sha256: Bytes -> Digest)

  /** The adapter, not the constructor, links an entry: `prevHash` starts out empty. */
  function NewEntry(correlationId: string, identity: string, action: string, outcome: AuditOutcome, createdAtMs: U64): AuditEntry {
    AuditEntry(None, correlationId, identity, action, outcome, createdAtMs)
  }

  function LittleEndian(n: nat, width: nat): (b: Bytes)
    ensures |b| == width
  {
    if width == 0 then [] else [n % 256] + LittleEndian(n / 256, width - 1)
  }

  function PrevBytes(prev: Option<Digest>): (b: Digest) {
    if prev.Some? then prev.value else ZEROS
  }

  /** The four text fields, run together without separators or lengths. */
  function Text(enc: Encoding, e: AuditEntry): Bytes {
    enc.utf8(e.correlationId) + enc.utf8(e.identity) + enc.utf8(e.action) + enc.outcomeJson(e.outcome)
  }

  function Preimage(enc: Encoding, e: AuditEntry, prev: Option<Digest>): Bytes {
    PrevBytes(prev) + Text(enc, e) + LittleEndian(e.createdAtMs, 8)
  }

  function EntryHash(enc: Encoding, e: AuditEntry, prev: Option<Digest>): Digest {
    enc.sha256(Preimage(enc, e, prev))
  }

  /** The tip after appending all entries in order, each linked to the tip before it. */
  function Tip(enc: Encoding, entries: seq<AuditEntry>): (tip: Option<Digest>)
    ensures tip.Some? <==> entries != []
  {
    if entries == [] then None
    else Some(EntryHash(enc, entries[|entries| - 1], Tip(enc, entries[..|entries| - 1])))
  }

  lemma TipOfPrefix(enc: Encoding, entries: seq<AuditEntry>, n: nat)
    requires n < |entries|
    ensures Tip(enc, entries[..n + 1]) == Some(EntryHash(enc, entries[n], Tip(enc, entries[..n])))
  {
    assert entries[..n + 1][..n] == entries[..n];
  }

  function Pow256(width: nat): nat {
    if width == 0 then 1 else 256 * Pow256(width - 1)
  }

  lemma {:induction false} LittleEndianInjective(a: nat, b: nat, width: nat)
    requires a < Pow256(width) && b < Pow256(width) && LittleEndian(a, width) == LittleEndian(b, width)
    ensures a == b
  {
    if width > 0 {
      assert LittleEndian(a, width)[0] == LittleEndian(b, width)[0];
      assert LittleEndian(a, width)[1..] == LittleEndian(b, width)[1..];
      LittleEndianInjective(a / 256, b / 256, width - 1);
    }
  }

  lemma U64Fits(n: U64)
    ensures n < Pow256(8)
  {
    assert Pow256(2) == 0x1_0000;
    assert Pow256(4) == 0x1_0000_0000;
    assert Pow256(6) == 0x1_0000_0000_0000;
    assert Pow256(8) == 0x1_0000_0000_0000_0000;
  }

  lemma U64Injective(a: U64, b: U64)
    requires LittleEndian(a, 8) == LittleEndian(b, 8)
    ensures a == b
  {
    U64Fits(a);
    U64Fits(b);
    LittleEndianInjective(a, b, 8);
  }

  /**
   Exactly what is hashed: the predecessor (a missing one counts as 32 zero bytes), the
   concatenated text and the timestamp, and nothing about where one text field ends.
   */
  lemma PreimageCommits(enc: Encoding, e1: AuditEntry, prev1: Option<Digest>, e2: AuditEntry, prev2: Option<Digest>)
    ensures Preimage(enc, e1, prev1) == Preimage(enc, e2, prev2)
       <==> PrevBytes(prev1) == PrevBytes(prev2) && Text(enc, e1) == Text(enc, e2) && e1.createdAtMs == e2.createdAtMs
  {
    var p1, p2 := Preimage(enc, e1, prev1), Preimage(enc, e2, prev2);
    var n1, n2 := |Text(enc, e1)|, |Text(enc, e2)|;
    assert p1[..32] == PrevBytes(prev1) && p2[..32] == PrevBytes(prev2);
    assert p1[32..32 + n1] == Text(enc, e1) && p2[32..32 + n2] == Text(enc, e2);
    assert p1[32 + n1..] == LittleEndian(e1.createdAtMs, 8) && p2[32 + n2..] == LittleEndian(e2.createdAtMs, 8);
    if p1 == p2 {
      U64Injective(e1.createdAtMs, e2.createdAtMs);
    }
  }

  /** The number these bytes spell, lowest byte first. */
  function FromLittleEndian(b: Bytes): nat {
    if b == [] then 0 else b[0] + 256 * FromLittleEndian(b[1..])
  }

  lemma {:induction false} LittleEndianRoundTrip(n: nat, width: nat)
    requires n < Pow256(width)
    ensures FromLittleEndian(LittleEndian(n, width)) == n
  {
    if width > 0 {
      LittleEndianRoundTrip(n / 256, width - 1);
      assert LittleEndian(n, width)[1..] == LittleEndian(n / 256, width - 1);
    }
  }

  /**
   The hashed bytes: 32 for the predecessor (zeros when there is none), then correlation id,
   identity, action and outcome, then the timestamp in eight bytes, lowest first.
   */
  lemma PreimageBytes(enc: Encoding, e: AuditEntry, prev: Option<Digest>)
    ensures var p := Preimage(enc, e, prev);
            var text := enc.utf8(e.correlationId) + enc.utf8(e.identity) + enc.utf8(e.action) + enc.outcomeJson(e.outcome);
      && |p| == 32 + |text| + 8
      && (prev.Some? ==> p[..32] == prev.value) && (prev.None? ==> forall i :: 0 <= i < 32 ==> p[i] == 0)
      && p[32..32 + |text|] == text
      && FromLittleEndian(p[32 + |text|..]) == e.createdAtMs
  {
    U64Fits(e.createdAtMs);
    LittleEndianRoundTrip(e.createdAtMs, 8);
    var p, text := Preimage(enc, e, prev), Text(enc, e);
    assert prev.Some? ==> p[..32] == prev.value;
    assert p[32 + |text|..] == LittleEndian(e.createdAtMs, 8);
  }

  /** Entry `i` of the two chains has distinct hashed bytes but one digest. */
  ghost predicate CollidesAt(enc: Encoding, a: seq<AuditEntry>, b: seq<AuditEntry>, i: nat)
    requires i < |a| && i < |b|
  {
    && Preimage(enc, a[i], Tip(enc, a[..i])) != Preimage(enc, b[i], Tip(enc, b[..i]))
    && EntryHash(enc, a[i], Tip(enc, a[..i])) == EntryHash(enc, b[i], Tip(enc, b[..i]))
  }

  /** Recomputing the two chains side by side meets two distinct byte strings with one digest. */
  ghost predicate Collides(enc: Encoding, a: seq<AuditEntry>, b: seq<AuditEntry>) {
    exists i: nat :: i < |a| && i < |b| && CollidesAt(enc, a, b, i)
  }

  ghost predicate AgreeAt(enc: Encoding, a: seq<AuditEntry>, b: seq<AuditEntry>, i: nat)
    requires i < |a| && i < |b|
  {
    && Tip(enc, a[..i]) == Tip(enc, b[..i])
    && Text(enc, a[i]) == Text(enc, b[i])
    && a[i].createdAtMs == b[i].createdAtMs
  }

  /** A predecessor equal as bytes is an equal predecessor: only the first entry has none. */
  lemma SameIndexSameLink(enc: Encoding, a: seq<AuditEntry>, b: seq<AuditEntry>, i: nat)
    requires i < |a| && i < |b| && !CollidesAt(enc, a, b, i)
    requires EntryHash(enc, a[i], Tip(enc, a[..i])) == EntryHash(enc, b[i], Tip(enc, b[..i]))
    ensures AgreeAt(enc, a, b, i)
  {
    PreimageCommits(enc, a[i], Tip(enc, a[..i]), b[i], Tip(enc, b[..i]));
  }

  /**
   Tamper evidence: two chains of equal length and equal tip agree, at every index, in predecessor,
   concatenated text and timestamp, unless recomputing them exhibits a SHA-256 collision.
   */
  lemma EqualTipsAgree(enc: Encoding, a: seq<AuditEntry>, b: seq<AuditEntry>)
    requires |a| == |b| && Tip(enc, a) == Tip(enc, b) && !Collides(enc, a, b)
    ensures forall i: nat :: i < |a| ==> AgreeAt(enc, a, b, i)
  {
    assert a[..|a|] == a && b[..|b|] == b;
    forall i: nat | i < |a| ensures AgreeAt(enc, a, b, i) {
      TipOfPrefix(enc, a, |a| - 1);
      TipOfPrefix(enc, b, |a| - 1);
      EqualTipsAgreeBelow(enc, a, b, |a| - 1, i);
    }
  }

  lemma {:induction false} EqualTipsAgreeBelow(enc: Encoding, a: seq<AuditEntry>, b: seq<AuditEntry>, n: nat, i: nat)
    requires |a| == |b| && i <= n < |a|
    requires EntryHash(enc, a[n], Tip(enc, a[..n])) == EntryHash(enc, b[n], Tip(enc, b[..n])) && !Collides(enc, a, b)
    ensures AgreeAt(enc, a, b, i)
    decreases n
  {
    assert !CollidesAt(enc, a, b, n);
    SameIndexSameLink(enc, a, b, n);
    if i < n {
      TipOfPrefix(enc, a, n - 1);
      TipOfPrefix(enc, b, n - 1);
      EqualTipsAgreeBelow(enc, a, b, n - 1, i);
    }
  }

  /**
   Rewriting entry `k`: barring a collision, the hash of every entry from `k` on changes if the
   entry's concatenated text or timestamp changed, and no hash changes otherwise.
   */
  lemma {:induction false} RewriteShowsIff(enc: Encoding, a: seq<AuditEntry>, k: nat, e: AuditEntry, upTo: nat)
    requires k < upTo <= |a| && !Collides(enc, a, a[k := e])
    ensures Tip(enc, a[..upTo]) != Tip(enc, a[k := e][..upTo])
       <==> Text(enc, a[k]) != Text(enc, e) || a[k].createdAtMs != e.createdAtMs
  {
    var b, n := a[k := e], upTo - 1;
    TipOfPrefix(enc, a, n);
    TipOfPrefix(enc, b, n);
    assert !CollidesAt(enc, a, b, n);
    PreimageCommits(enc, a[n], Tip(enc, a[..n]), b[n], Tip(enc, b[..n]));
    if n == k {
      assert a[..n] == b[..n];
    } else {
      RewriteShowsIff(enc, a, k, e, n);
      assert a[n] == b[n];
    }
  }

  ghost predicate Injective<T(!new)>(f: T -> Bytes) {
    forall x, y :: f(x) == f(y) ==> x == y
  }

  /** The hashed fields in which two entries differ. */
  function ChangedFields(e1: AuditEntry, e2: AuditEntry): set<nat> {
    (if e1.correlationId != e2.correlationId then {0} else {})
    + (if e1.identity != e2.identity then {1} else {})
    + (if e1.action != e2.action then {2} else {})
    + (if e1.outcome != e2.outcome then {3} else {})
    + (if e1.createdAtMs != e2.createdAtMs then {4} else {})
  }

  /** Changing exactly one hashed field of one entry changes its hash and every hash after it. */
  lemma OneFieldRewriteShows(enc: Encoding, a: seq<AuditEntry>, k: nat, e: AuditEntry, field: nat, upTo: nat)
    requires k < upTo <= |a| && ChangedFields(a[k], e) == {field}
    requires Injective(enc.utf8) && Injective(enc.outcomeJson) && !Collides(enc, a, a[k := e])
    ensures Tip(enc, a[..upTo]) != Tip(enc, a[k := e][..upTo])
  {
    OneFieldChangesContent(enc, a[k], e, field);
    RewriteShowsIff(enc, a, k, e, upTo);
  }

  lemma OneFieldChangesContent(enc: Encoding, e1: AuditEntry, e2: AuditEntry, field: nat)
    requires ChangedFields(e1, e2) == {field} && Injective(enc.utf8) && Injective(enc.outcomeJson)
    ensures Text(enc, e1) != Text(enc, e2) || e1.createdAtMs != e2.createdAtMs
  {
    var u, j := enc.utf8, enc.outcomeJson;
    assert field in ChangedFields(e1, e2);
    assert forall f :: f in ChangedFields(e1, e2) ==> f == field;
    assert e1.correlationId != e2.correlationId ==> 0 in ChangedFields(e1, e2);
    assert e1.identity != e2.identity ==> 1 in ChangedFields(e1, e2);
    assert e1.action != e2.action ==> 2 in ChangedFields(e1, e2);
    assert e1.outcome != e2.outcome ==> 3 in ChangedFields(e1, e2);
    match field
    case 0 => MiddleCancels([], u(e1.correlationId), u(e2.correlationId), u(e1.identity) + u(e1.action) + j(e1.outcome));
              TextSplit(enc, e1); TextSplit(enc, e2);
    case 1 => MiddleCancels(u(e1.correlationId), u(e1.identity), u(e2.identity), u(e1.action) + j(e1.outcome));
              TextSplit(enc, e1); TextSplit(enc, e2);
    case 2 => MiddleCancels(u(e1.correlationId) + u(e1.identity), u(e1.action), u(e2.action), j(e1.outcome));
    case 3 => MiddleCancels(u(e1.correlationId) + u(e1.identity) + u(e1.action), j(e1.outcome), j(e2.outcome), []);
              TextSplit(enc, e1); TextSplit(enc, e2);
    case _ =>
  }

  lemma TextSplit(enc: Encoding, e: AuditEntry)
    ensures Text(enc, e) == [] + enc.utf8(e.correlationId) + (enc.utf8(e.identity) + enc.utf8(e.action) + enc.outcomeJson(e.outcome))
    ensures Text(enc, e) == enc.utf8(e.correlationId) + enc.utf8(e.identity) + (enc.utf8(e.action) + enc.outcomeJson(e.outcome))
    ensures Text(enc, e) == enc.utf8(e.correlationId) + enc.utf8(e.identity) + enc.utf8(e.action) + enc.outcomeJson(e.outcome) + []
  {
  }

  lemma MiddleCancels(left: Bytes, x: Bytes, y: Bytes, right: Bytes)
    ensures left + x + right == left + y + right ==> x == y
  {
    assert (left + x + right)[|left|..|left| + |x|] == x;
    assert (left + y + right)[|left|..|left| + |y|] == y;
  }

  /**
   The promise that any edit breaks the chain fails: moving text across the boundary of the first
   two fields leaves every hash of the chain as it was.
   */
  lemma ShiftedBoundaryGoesUnseen(enc: Encoding, a: seq<AuditEntry>, k: nat, x: string, y: string, z: string)
    requires k < |a| && (forall s, t :: enc.utf8(s + t) == enc.utf8(s) + enc.utf8(t))
    requires a[k].correlationId == x + y && a[k].identity == z
    ensures var forged := a[k].(correlationId := x, identity := y + z);
      (y != "" ==> forged != a[k]) && Tip(enc, a[k := forged]) == Tip(enc, a)
  {
    var forged := a[k].(correlationId := x, identity := y + z);
    assert Text(enc, forged) == Text(enc, a[k]) by {
      assert enc.utf8(x + y) == enc.utf8(x) + enc.utf8(y) && enc.utf8(y + z) == enc.utf8(y) + enc.utf8(z);
      assert enc.utf8(x) + enc.utf8(y) + enc.utf8(z) == enc.utf8(x) + (enc.utf8(y) + enc.utf8(z));
    }
    if y != "" { assert |x + y| != |x|; }
    SameTextSameTip(enc, a, k, forged, |a|);
    assert a[..|a|] == a && a[k := forged][..|a|] == a[k := forged];
  }

  lemma {:induction false} SameTextSameTip(enc: Encoding, a: seq<AuditEntry>, k: nat, e: AuditEntry, upTo: nat)
    requires k < |a| && upTo <= |a| && Text(enc, a[k]) == Text(enc, e) && a[k].createdAtMs == e.createdAtMs
    ensures Tip(enc, a[..upTo]) == Tip(enc, a[k := e][..upTo])
  {
    if upTo > 0 {
      var b, n := a[k := e], upTo - 1;
      TipOfPrefix(enc, a, n);
      TipOfPrefix(enc, b, n);
      SameTextSameTip(enc, a, k, e, n);
      PreimageCommits(enc, a[n], Tip(enc, a[..n]), b[n], Tip(enc, b[..n]));
    }
  }
}
