/**
 Agent memory: a short-term message buffer, a long-term vector store, retrieval that counts
 accesses, and consolidation that moves old messages into a digest entry.
 */
module AgentMemory {
  import opened Common
  import opened Similarity
  import opened Retrieval

  datatype MessageRole = System | User | Assistant | Tool

  datatype Message = Message(role: MessageRole, content: string, timestampMs: nat)

  datatype MemoryEntry = MemoryEntry(
    id: string, content: string, embedding: seq<real>,
    createdAtMs: nat, lastAccessedAtMs: nat, accessCount: nat, tags: seq<string>)

  // ---- Recall -------------------------------------------------------------------------------

  function Scores(sqrt: real -> real, query: seq<real>, entries: seq<MemoryEntry>): (s: seq<real>)
    requires IsSqrt(sqrt)
    ensures |s| == |entries| && forall i :: 0 <= i < |s| ==> s[i] == Cosine(sqrt, query, entries[i].embedding)
  {
    if entries == [] then []
    else
      var n := |entries| - 1;
      Scores(sqrt, query, entries[..n]) + [Cosine(sqrt, query, entries[n].embedding)]
  }

  /** `touch_entry`: the first entry with the id gains one access. */
  function Touch(entries: seq<MemoryEntry>, id: string, nowMs: nat): (r: seq<MemoryEntry>)
    ensures |r| == |entries| && forall i :: 0 <= i < |entries| ==> r[i].id == entries[i].id
  {
    if entries == [] then []
    else if entries[0].id == id
    then [entries[0].(lastAccessedAtMs := nowMs, accessCount := entries[0].accessCount + 1)] + entries[1..]
    else [entries[0]] + Touch(entries[1..], id, nowMs)
  }

  function TouchAll(entries: seq<MemoryEntry>, ids: seq<string>, nowMs: nat): (r: seq<MemoryEntry>)
    ensures |r| == |entries| && forall i :: 0 <= i < |entries| ==> r[i].id == entries[i].id
  {
    if ids == [] then entries
    else Touch(TouchAll(entries, ids[..|ids| - 1], nowMs), ids[|ids| - 1], nowMs)
  }

  function TotalAccesses(entries: seq<MemoryEntry>): nat {
    if entries == [] then 0 else entries[0].accessCount + TotalAccesses(entries[1..])
  }

  function Occurrences(ids: seq<string>, id: string): nat {
    if ids == [] then 0 else Occurrences(ids[..|ids| - 1], id) + (if ids[|ids| - 1] == id then 1 else 0)
  }

  lemma {:induction false} TouchAddsOne(entries: seq<MemoryEntry>, id: string, nowMs: nat, i: nat)
    requires i < |entries| && entries[i].id == id
    ensures TotalAccesses(Touch(entries, id, nowMs)) == TotalAccesses(entries) + 1
  {
    var t := Touch(entries, id, nowMs);
    if entries[0].id == id {
      assert t[1..] == entries[1..];
    } else {
      TouchAddsOne(entries[1..], id, nowMs, i - 1);
      assert t[1..] == Touch(entries[1..], id, nowMs);
    }
  }

  ghost predicate UniqueIds(entries: seq<MemoryEntry>) {
    forall i, j :: 0 <= i < j < |entries| ==> entries[i].id != entries[j].id
  }

  /** Entry `e` after one access at `nowMs`: everything but the access statistics stays. */
  ghost predicate Accessed(e: MemoryEntry, f: MemoryEntry, nowMs: nat) {
    && f.id == e.id && f.content == e.content && f.embedding == e.embedding && f.tags == e.tags
    && f.createdAtMs == e.createdAtMs && f.lastAccessedAtMs == nowMs && f.accessCount == e.accessCount + 1
  }

  ghost predicate IsFirstWith(entries: seq<MemoryEntry>, id: string, i: nat)
    requires i < |entries|
  {
    entries[i].id == id && forall j :: 0 <= j < i ==> entries[j].id != id
  }

  lemma FirstWithInTail(entries: seq<MemoryEntry>, id: string, i: nat)
    requires 0 < i < |entries| && entries[0].id != id
    ensures IsFirstWith(entries, id, i) <==> IsFirstWith(entries[1..], id, i - 1)
  {
    var rest := entries[1..];
    if IsFirstWith(rest, id, i - 1) {
      forall j | 0 <= j < i ensures entries[j].id != id {
        if j > 0 { assert entries[j] == rest[j - 1]; }
      }
    }
  }

  /** The first entry with the id is accessed and every other entry stays as it is. */
  lemma {:induction false} TouchIs(entries: seq<MemoryEntry>, id: string, nowMs: nat, i: nat)
    requires i < |entries|
    ensures IsFirstWith(entries, id, i) ==> Accessed(entries[i], Touch(entries, id, nowMs)[i], nowMs)
    ensures !IsFirstWith(entries, id, i) ==> Touch(entries, id, nowMs)[i] == entries[i]
  {
    if i > 0 && entries[0].id != id {
      TouchIs(entries[1..], id, nowMs, i - 1);
      FirstWithInTail(entries, id, i);
    }
  }

  ghost predicate HasId(entries: seq<MemoryEntry>, id: string) {
    exists i: nat :: i < |entries| && entries[i].id == id
  }

  /** With ids of stored entries, the total grows by exactly the number of touches. */
  lemma {:induction false} TouchAllAdds(entries: seq<MemoryEntry>, ids: seq<string>, nowMs: nat)
    requires forall x :: 0 <= x < |ids| ==> HasId(entries, ids[x])
    ensures TotalAccesses(TouchAll(entries, ids, nowMs)) == TotalAccesses(entries) + |ids|
  {
    if ids != [] {
      var n := |ids| - 1;
      TouchAllAdds(entries, ids[..n], nowMs);
      assert HasId(entries, ids[n]);
      var i: nat :| i < |entries| && entries[i].id == ids[n];
      TouchAddsOne(TouchAll(entries, ids[..n], nowMs), ids[n], nowMs, i);
    }
  }

  /** Whatever the ids, nothing but access statistics ever changes. */
  ghost predicate SameButAccess(e: MemoryEntry, f: MemoryEntry) {
    && f.id == e.id && f.content == e.content && f.embedding == e.embedding && f.tags == e.tags
    && f.createdAtMs == e.createdAtMs
  }

  /**
   Contents stay; and with unique ids each entry gains exactly its own touches, the last of which
   sets its access time.
   */
  lemma {:induction false} TouchAllPerEntry(entries: seq<MemoryEntry>, ids: seq<string>, nowMs: nat, i: nat)
    requires i < |entries|
    ensures var f := TouchAll(entries, ids, nowMs)[i];
      && SameButAccess(entries[i], f)
      && (UniqueIds(entries) ==>
            && f.accessCount == entries[i].accessCount + Occurrences(ids, entries[i].id)
            && f.lastAccessedAtMs == if Occurrences(ids, entries[i].id) > 0 then nowMs else entries[i].lastAccessedAtMs)
  {
    if ids != [] {
      var n := |ids| - 1;
      TouchAllPerEntry(entries, ids[..n], nowMs, i);
      TouchIs(TouchAll(entries, ids[..n], nowMs), ids[n], nowMs, i);
    }
  }

  function IdsAt(entries: seq<MemoryEntry>, p: seq<nat>): (ids: seq<string>)
    requires forall x :: 0 <= x < |p| ==> p[x] < |entries|
    ensures |ids| == |p| && forall x :: 0 <= x < |p| ==> ids[x] == entries[p[x]].id
  {
    seq(|p|, x requires 0 <= x < |p| => entries[p[x]].id)
  }

  function Picked(entries: seq<MemoryEntry>, scores: seq<real>, p: seq<nat>): (r: seq<(MemoryEntry, real)>)
    requires |scores| == |entries| && forall x :: 0 <= x < |p| ==> p[x] < |entries|
    ensures |r| == |p| && forall x :: 0 <= x < |p| ==> r[x] == (entries[p[x]], scores[p[x]])
  {
    seq(|p|, x requires 0 <= x < |p| => (entries[p[x]], scores[p[x]]))
  }

  lemma {:induction false} OccursOnce(entries: seq<MemoryEntry>, scores: seq<real>, p: seq<nat>, i: nat)
    requires UniqueIds(entries) && |scores| == |entries| && Ranked(scores, p) && i < |entries|
    ensures Occurrences(IdsAt(entries, p), entries[i].id) == if i in p then 1 else 0
  {
    if p != [] {
      var n := |p| - 1;
      OccursOnce(entries, scores, p[..n], i);
      assert IdsAt(entries, p)[..n] == IdsAt(entries, p[..n]);
      assert p == p[..n] + [p[n]];
      assert entries[p[n]].id == entries[i].id ==> p[n] == i;
      if i in p[..n] {
        var x :| 0 <= x < n && p[x] == i;
        assert Before(scores, p[x], p[n]);
      }
    }
  }

  /**
   Recall raises the total access count by exactly the number of results and changes nothing but
   access statistics; when ids are unique, each returned entry has one more access, at this time,
   and every other entry is as it was.
   */
  lemma RecallAccounting(sqrt: real -> real, query: seq<real>, entries: seq<MemoryEntry>, limit: nat, minScore: real,
                         nowMs: nat, i: nat)
    requires IsSqrt(sqrt) && i < |entries|
    ensures var p := TopK(Scores(sqrt, query, entries), minScore, limit);
            var after := TouchAll(entries, IdsAt(entries, p), nowMs);
      && TotalAccesses(after) == TotalAccesses(entries) + |p|
      && SameButAccess(entries[i], after[i])
      && (UniqueIds(entries) ==> if i in p then Accessed(entries[i], after[i], nowMs) else after[i] == entries[i])
  {
    var scores := Scores(sqrt, query, entries);
    var p := TopK(scores, minScore, limit);
    TopKCorrect(scores, minScore, limit);
    forall x | 0 <= x < |p| ensures HasId(entries, IdsAt(entries, p)[x]) {
      assert entries[p[x]].id == IdsAt(entries, p)[x];
    }
    TouchAllAdds(entries, IdsAt(entries, p), nowMs);
    TouchAllPerEntry(entries, IdsAt(entries, p), nowMs, i);
    if UniqueIds(entries) { OccursOnce(entries, scores, p, i); }
  }

  // ---- Consolidation ------------------------------------------------------------------------

  /** A batch taken off the buffer; it is lost if its digest could not be embedded. */
  datatype Batch = Batch(messages: seq<Message>, stored: bool)

  /** The two stores, with the full message history and the batches taken so far. */
  datatype Memory = Memory(
    maxMessages: nat, messages: seq<Message>, entries: seq<MemoryEntry>,
    history: seq<Message>, batches: seq<Batch>)

  datatype Op =
    | AddMessage(message: Message)
    | Consolidate(keepRecent: nat, embedding: Result<seq<real>, string>, id: string, nowMs: nat)

  function RoleName(role: MessageRole): string {
    match role
    case System => "System"
    case User => "User"
    case Assistant => "Assistant"
    case Tool => "Tool"
  }

  function Digest(messages: seq<Message>): string {
    if messages == [] then "Summary of past conversation steps:\n"
    else
      var last := messages[|messages| - 1];
      Digest(messages[..|messages| - 1]) + ("- " + RoleName(last.role) + ": " + last.content + "\n")
  }

  /** One line of a digest. */
  function Line(m: Message): string {
    (if m.role == User then "- User: " else if m.role == Assistant then "- Assistant: "
     else if m.role == Tool then "- Tool: " else "- System: ") + m.content + "\n"
  }

  function Lines(messages: seq<Message>): string {
    if messages == [] then "" else Line(messages[0]) + Lines(messages[1..])
  }

  lemma {:induction false} LinesAppend(messages: seq<Message>, m: Message)
    ensures Lines(messages + [m]) == Lines(messages) + Line(m)
  {
    if messages == [] {
      assert ([] + [m])[1..] == [];
    } else {
      assert (messages + [m])[1..] == messages[1..] + [m];
      LinesAppend(messages[1..], m);
    }
  }

  lemma LineText(m: Message)
    ensures "- " + RoleName(m.role) + ": " + m.content + "\n" == Line(m)
  {
    assert "- " + RoleName(m.role) + ": "
        == if m.role == User then "- User: " else if m.role == Assistant then "- Assistant: "
           else if m.role == Tool then "- Tool: " else "- System: ";
  }

  /** A digest is the heading and one line per message, in order, naming its role and content. */
  lemma {:induction false} DigestIs(messages: seq<Message>)
    ensures Digest(messages) == "Summary of past conversation steps:\n" + Lines(messages)
  {
    if messages != [] {
      var n := |messages| - 1;
      DigestIs(messages[..n]);
      LinesAppend(messages[..n], messages[n]);
      assert messages[..n] + [messages[n]] == messages;
      LineText(messages[n]);
    }
  }

  function SummaryEntry(batch: seq<Message>, embedding: seq<real>, id: string, nowMs: nat): MemoryEntry {
    MemoryEntry(id, Digest(batch), embedding, nowMs, nowMs, 1, ["consolidation_summary"])
  }

  predicate TakesBatch(m: Memory, keepRecent: nat) {
    |m.messages| >= m.maxMessages && |m.messages| > keepRecent
  }

  function Apply(m: Memory, op: Op): Memory {
    match op
    case AddMessage(message) => m.(messages := m.messages + [message], history := m.history + [message])
    case Consolidate(keep, embedding, id, nowMs) =>
      if !TakesBatch(m, keep) then m
      else
        var cut := |m.messages| - keep;
        var batch := m.messages[..cut];
        m.(messages := m.messages[cut..],
           batches := m.batches + [Batch(batch, embedding.Ok?)],
           entries := if embedding.Ok? then m.entries + [SummaryEntry(batch, embedding.value, id, nowMs)] else m.entries)
  }

  function NewMemory(maxMessages: nat): Memory {
    Memory(maxMessages, [], [], [], [])
  }

  function ApplyAll(maxMessages: nat, ops: seq<Op>): Memory {
    if ops == [] then NewMemory(maxMessages) else Apply(ApplyAll(maxMessages, ops[..|ops| - 1]), ops[|ops| - 1])
  }

  function Joined(batches: seq<Batch>): seq<Message> {
    if batches == [] then [] else Joined(batches[..|batches| - 1]) + batches[|batches| - 1].messages
  }

  function JoinedStored(batches: seq<Batch>): seq<Message> {
    if batches == [] then []
    else JoinedStored(batches[..|batches| - 1]) + if batches[|batches| - 1].stored then batches[|batches| - 1].messages else []
  }

  /** The digest entries of the stored batches, in order. */
  ghost predicate DigestsMatch(entries: seq<MemoryEntry>, batches: seq<Batch>)
    decreases |batches|
  {
    if batches == [] then entries == []
    else
      var n := |batches| - 1;
      if !batches[n].stored then DigestsMatch(entries, batches[..n])
      else
        && entries != []
        && entries[|entries| - 1].content == "Summary of past conversation steps:\n" + Lines(batches[n].messages)
        && DigestsMatch(entries[..|entries| - 1], batches[..n])
  }

  ghost predicate Accounted(m: Memory) {
    && Joined(m.batches) + m.messages == m.history
    && (forall b :: b in m.batches ==> b.messages != [])
    && DigestsMatch(m.entries, m.batches)
  }

  lemma BatchAppended(m: Memory, b: Batch, rest: seq<Message>, entries: seq<MemoryEntry>)
    requires Accounted(m) && m.messages == b.messages + rest && b.messages != []
    requires if b.stored then |entries| == |m.entries| + 1 && entries[..|m.entries|] == m.entries
                              && entries[|m.entries|].content == Digest(b.messages)
             else entries == m.entries
    ensures Accounted(m.(messages := rest, batches := m.batches + [b], entries := entries))
  {
    DigestIs(b.messages);
    var batches := m.batches + [b];
    assert batches[..|m.batches|] == m.batches;
    assert Joined(batches) + rest == Joined(m.batches) + (b.messages + rest);
  }

  lemma ApplyAccounts(m: Memory, op: Op)
    requires Accounted(m)
    ensures Accounted(Apply(m, op))
  {
    match op
    case AddMessage(message) =>
      assert Joined(m.batches) + (m.messages + [message]) == (Joined(m.batches) + m.messages) + [message];
    case Consolidate(keep, embedding, id, nowMs) =>
      if TakesBatch(m, keep) {
        var cut := |m.messages| - keep;
        assert m.messages == m.messages[..cut] + m.messages[cut..];
        BatchAppended(m, Batch(m.messages[..cut], embedding.Ok?), m.messages[cut..], Apply(m, op).entries);
      }
  }

  lemma {:induction false} ApplyAllAccounts(maxMessages: nat, ops: seq<Op>)
    ensures Accounted(ApplyAll(maxMessages, ops))
  {
    if ops != [] {
      ApplyAllAccounts(maxMessages, ops[..|ops| - 1]);
      ApplyAccounts(ApplyAll(maxMessages, ops[..|ops| - 1]), ops[|ops| - 1]);
    }
  }

  lemma {:induction false} StoredIsShorter(batches: seq<Batch>)
    requires forall b :: b in batches ==> b.messages != []
    ensures |JoinedStored(batches)| <= |Joined(batches)|
    ensures |JoinedStored(batches)| == |Joined(batches)| <==> forall b :: b in batches ==> b.stored
    ensures (forall b :: b in batches ==> b.stored) ==> JoinedStored(batches) == Joined(batches)
  {
    if batches != [] {
      var n := |batches| - 1;
      StoredIsShorter(batches[..n]);
      assert batches == batches[..n] + [batches[n]];
      assert batches[n] in batches;
    }
  }

  /**
   Over any sequence of additions and consolidations, the batches taken, in order, followed by the
   buffer are the full history; and the digested batches alone account for it if and only if no
   consolidation took a batch whose embedding then failed.
   */
  lemma HistoryConserved(maxMessages: nat, ops: seq<Op>)
    ensures var m := ApplyAll(maxMessages, ops);
      && Joined(m.batches) + m.messages == m.history
      && DigestsMatch(m.entries, m.batches)
      && (JoinedStored(m.batches) + m.messages == m.history <==> forall b :: b in m.batches ==> b.stored)
  {
    ApplyAllAccounts(maxMessages, ops);
    var m := ApplyAll(maxMessages, ops);
    StoredIsShorter(m.batches);
  }

  class AgentMemorySystem {
    const maxMessages: nat
    var messages: seq<Message>
    var entries: seq<MemoryEntry>
    ghost var history: seq<Message>
    ghost var batches: seq<Batch>

    ghost function Contents(): Memory
      reads this
    {
      Memory(maxMessages, messages, entries, history, batches)
    }

    constructor (maxMessages: nat)
      ensures Contents() == NewMemory(maxMessages)
    {
      this.maxMessages := maxMessages;
      messages, entries, history, batches := [], [], [], [];
    }

    method Add(message: Message)
      modifies this
      ensures Contents() == Apply(old(Contents()), AddMessage(message))
      ensures messages == old(messages) + [message] && entries == old(entries)
    {
      messages := messages + [message];
      history := history + [message];
    }

    /** Keeps the most recent `keep` messages and returns the older ones. */
    method TruncateOlder(keep: nat) returns (older: seq<Message>)
      modifies this`messages
      ensures older + messages == old(messages)
      ensures |messages| == if |old(messages)| <= keep then |old(messages)| else keep
    {
      if |messages| <= keep {
        return [];
      }
      var split := |messages| - keep;
      older := messages[..split];
      messages := messages[split..];
    }

    /** A returned id means: exactly `keepRecent` messages left, one digest entry added. */
    method ConsolidateOlder(keepRecent: nat, embedding: Result<seq<real>, string>, id: string, nowMs: nat)
      returns (r: Result<Option<string>, string>)
      modifies this
      ensures Contents() == Apply(old(Contents()), Consolidate(keepRecent, embedding, id, nowMs))
      ensures r == Ok(Some(id)) <==> |old(messages)| >= maxMessages && |old(messages)| > keepRecent && embedding.Ok?
      ensures r == Ok(Some(id)) ==>
        && |messages| == keepRecent && messages == old(messages)[|old(messages)| - keepRecent..]
        && entries == old(entries) + [MemoryEntry(id,
             "Summary of past conversation steps:\n" + Lines(old(messages)[..|old(messages)| - keepRecent]),
             embedding.value, nowMs, nowMs, 1, ["consolidation_summary"])]
      ensures r.Err? <==> |old(messages)| >= maxMessages && |old(messages)| > keepRecent && embedding.Err?
      ensures r.Err? ==> r == Err(embedding.error) && entries == old(entries) && |messages| == keepRecent
      ensures r == Ok(None) ==> messages == old(messages) && entries == old(entries)
    {
      if |messages| < maxMessages {
        return Ok(None);
      }
      var truncated := TruncateOlder(keepRecent);
      if truncated == [] {
        assert [] + messages == messages;
        return Ok(None);
      }
      assert truncated == old(messages)[..|truncated|] && messages == old(messages)[|truncated|..];
      batches := batches + [Batch(truncated, embedding.Ok?)];
      var digest := "Summary of past conversation steps:\n";
      for i := 0 to |truncated|
        invariant digest == Digest(truncated[..i])
      {
        assert truncated[..i + 1][..i] == truncated[..i];
        digest := digest + ("- " + RoleName(truncated[i].role) + ": " + truncated[i].content + "\n");
      }
      assert truncated[..|truncated|] == truncated;
      DigestIs(truncated);
      if embedding.Err? {
        return Err(embedding.error);
      }
      entries := entries + [MemoryEntry(id, digest, embedding.value, nowMs, nowMs, 1, ["consolidation_summary"])];
      return Ok(Some(id));
    }

    static method ScoreEntry(sqrt: real -> real, query: seq<real>, entry: MemoryEntry) returns (score: real)
      requires IsSqrt(sqrt)
      ensures score == Cosine(sqrt, query, entry.embedding)
    {
      score := CosineSimilarity(sqrt, query, entry.embedding);
    }

    /** The scan: every entry's score, and the positions that reach the minimum. */
    method ScanEntries(sqrt: real -> real, query: seq<real>, minScore: real) returns (scores: seq<real>, qualifying: seq<nat>)
      requires IsSqrt(sqrt)
      ensures scores == Scores(sqrt, query, entries)
      ensures qualifying == Qualifying(scores, minScore, |entries|)
    {
      scores, qualifying := [], [];
      for i := 0 to |entries|
        invariant scores == Scores(sqrt, query, entries[..i])
        invariant qualifying == Qualifying(scores, minScore, i)
      {
        assert entries[..i + 1][..i] == entries[..i];
        var score := ScoreEntry(sqrt, query, entries[i]);
        QualifyingPrefix(scores, score, minScore, i);
        scores := scores + [score];
        if score >= minScore {
          qualifying := qualifying + [i];
        }
      }
      assert entries[..|entries|] == entries;
    }

    /** Entries scoring at least the minimum with their scores, best first, at most `limit` of them. */
    method Query(sqrt: real -> real, query: seq<real>, limit: nat, minScore: real)
      returns (found: seq<nat>, results: seq<(MemoryEntry, real)>)
      requires IsSqrt(sqrt)
      ensures found == TopK(Scores(sqrt, query, entries), minScore, limit)
      ensures IsTopK(Scores(sqrt, query, entries), minScore, limit, found)
      ensures results == Picked(entries, Scores(sqrt, query, entries), found)
    {
      var scores, qualifying := ScanEntries(sqrt, query, minScore);
      found := SortAndCut(scores, minScore, qualifying, limit);
      TopKCorrect(scores, minScore, limit);
      results := Picked(entries, scores, found);
    }

    /** Sort by descending score, then truncate. */
    static method SortAndCut(scores: seq<real>, minScore: real, qualifying: seq<nat>, limit: nat) returns (found: seq<nat>)
      requires qualifying == Qualifying(scores, minScore, |scores|)
      ensures found == TopK(scores, minScore, limit)
    {
      found := SortDescending(scores, qualifying);
      if limit < |found| {
        found := found[..limit];
      }
    }

    /** Retrieves, then touches every returned entry. */
    method Recall(sqrt: real -> real, query: seq<real>, limit: nat, minScore: real, nowMs: nat)
      returns (found: seq<nat>, results: seq<(MemoryEntry, real)>)
      requires IsSqrt(sqrt)
      modifies this`entries
      ensures found == TopK(Scores(sqrt, query, old(entries)), minScore, limit)
      ensures results == Picked(old(entries), Scores(sqrt, query, old(entries)), found)
      ensures entries == TouchAll(old(entries), IdsAt(old(entries), found), nowMs)
    {
      found, results := Query(sqrt, query, limit, minScore);
      TouchEach(IdsAt(entries, found), nowMs);
    }

    method TouchEach(ids: seq<string>, nowMs: nat)
      modifies this`entries
      ensures entries == TouchAll(old(entries), ids, nowMs)
    {
      for x := 0 to |ids|
        invariant entries == TouchAll(old(entries), ids[..x], nowMs)
      {
        assert ids[..x + 1][..x] == ids[..x];
        entries := Touch(entries, ids[x], nowMs);
      }
      assert ids[..|ids|] == ids;
    }
  }

  lemma {:induction false} QualifyingPrefix(scores: seq<real>, score: real, minScore: real, n: nat)
    requires n <= |scores|
    ensures Qualifying(scores + [score], minScore, n) == Qualifying(scores, minScore, n)
  {
    if n > 0 { QualifyingPrefix(scores, score, minScore, n - 1); }
  }
}
