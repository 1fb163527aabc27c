# Chain bridge: verified model

A Dafny model of the GridTokenX chain bridge, the service that signs and submits Solana
transactions on behalf of other services, and proofs about it. Four parts are modelled.

**The NATS consumer.** Many handler runs share two maps: `dedup_store`, keyed by idempotency key, and
`idempotency_cache`, keyed by correlation id. `Consumer` is the protocol as a deterministic step
function over actions (deliver, cancel, attempt returned, sweep, clock tick, reconnect); a run of the
system is any sequence of actions, so a statement about all action sequences is a statement about all
interleavings. All runs of one consumer live in one task and yield only at awaits, so no other handler
acts between an admission's clock reading and its claim. The sweep is a task of its own on a
multi-threaded runtime: a delivery carries its own reading, the clock and a sweep may be ahead of it when
it claims, and the sweep may visit any subset of the keys with any past reading. `Reconnect` starts a
new consumer with empty maps: statements about runs are per consumer lifetime and hold whatever came
before. `NatsConsumer` is the object with its two maps, each method one stretch between awaits, proved
to carry the maps along the machine's steps. `ConsumerExclusion`, `ConsumerAdmission` and
`ConsumerHistory` hold the theorems.

**The signing pipeline and mints.** `Pipeline` is `sign_and_submit` cut at its awaits, with arbitrary
answers from blockhash cache, provider, Vault and audit store; `PipelineSafety` proves what every answer
sequence and every interleaving of calls keeps; `SigningService` is the imperative code over the
in-memory audit store, proved to follow the machine; `SigningOutcomes` decides from request and answers
which calls are audited and which panic. `MintWorld` puts the consumer, the transactions in flight and
the on-chain program (one mint record per meter and window, a repeat is a no-op) into one machine with
late landings, failed sends that landed anyway, and reconnects; `MintReplies` says what a mint success
reply is worth.

**The audit trail.** `AuditChain` says what an entry hash and a chain tip commit to, without assuming the
hash injective: either the contents agree or recomputation exhibits a collision. `AuditStores` has the
in-memory store and the Postgres table, where tip read, id draw and commit are separate steps.

**Agent memory and nonce leases.** Cosine similarity and embeddings over exact reals (`Similarity`),
stable top-k (`Retrieval`), access counting and consolidation (`AgentMemory`), and the lease table
(`NonceLeases`).

Parsing, cryptography, the policy engine, the identity-to-role mapping, JSON and SHA-256 are arbitrary
deterministic functions (fields of `Deployment`, `Crypto` and `Encoding`). The clock is an input that
does not go backwards; millisecond timestamps are unbounded naturals. `MintWorld` takes from the cluster
that a signature belongs to one mint's transaction and that a reported status is that of a landed
transaction.

Where documentation and code differ, the model follows the code:

- README.md:118 speaks of 60 s deduplication windows and README.md:120 of at most 3 attempts for
  transient errors; the code keeps records for 120 s, never expires the live correlation map, and makes
  one attempt plus three retries on any error. That static errors cannot be among them is
  `RetriesNeverSeeStaticErrors`.
- crates/chain-bridge-core/src/audit.rs:4-5 promises that any edit breaks every later link. Moving text
  across a field boundary does not (`ShiftedBoundaryGoesUnseen`); `RewriteShowsIff` says exactly which
  edits do.
- crates/chain-bridge-api/src/api/service.rs:67-69 says every signing decision is audited. Undecodable
  bytes, a missing blockhash, a Vault failure and a panic while signing are not; the panic can come after
  Vault has signed (`SignedYetUnaudited`). `AuditedIff` has the exact condition.
- crates/chain-bridge-api/src/nats_consumer/consumer.rs:616-617 blocks a cancelled id, but the map has one
  namespace for ids and cancel marks: after a success under the id "cancel:x", a cancel of x is dropped
  and x runs (`AliasedCancelIsDropped`, `CancelBlocksIff`).
- A sweep between a delivery's clock reading and its claim can drop a record the reading still finds
  live, so the sweep is not always invisible (`SweepShowsIff`), and the claims' lag counts against the
  65 s by which an envelope may be stamped ahead (`LeadBoundIsExact`).
- crates/chain-bridge-api/src/agent_memory.rs:478-480 moves old messages to long-term memory; when the
  embedding fails they are gone from both (`HistoryConserved`).
- A mint success reports whatever window, recipient and amount the envelope names. These are the issued
  ones if and only if publishers give one window, and one key, to one mint (`HonestIffConsistent`, with
  `SharedKeyReplaysUnissued` and `SharedWindowPaysFirst` at the failing inputs).

## Model

| member | source | states |
|---|---|---|
| `ConsumerExclusion.RedeliveryRunsOnce` | crates/chain-bridge-api/src/nats_consumer/consumer.rs:396-414 | however often one envelope with an idempotency key is redelivered and however long its runs last, in every interleaving with the sweep at most one run of its kind and raw key is past the claim or has succeeded, if its lead over its first claim and the claims' lag behind their readings add up to less than 65 s |
| `ConsumerExclusion.LeadBoundIsExact` | crates/chain-bridge-api/src/nats_consumer/consumer.rs:706-744 | for an envelope still admissible at the latest critical reading, lead plus lag below 65 s is necessary and sufficient for single execution under redelivery |
| `ConsumerExclusion.RunsAreKeyed` | crates/chain-bridge-api/src/nats_consumer/consumer.rs:470-479 | in every reachable state a run is protected if and only if its raw key is not empty, and two runs share a store key if and only if they are of one kind and raw key |
| `ConsumerExclusion.SharedKeySafety` | crates/chain-bridge-api/src/nats_consumer/consumer.rs:492-533 | for different envelopes of one kind and raw key, if every run ends within 120 s of its admission: one run past the claim, which overwrites or removes only its own record, a success on record until it expires, and a later success claimed at least 120 s after an earlier one's admission |
| `ConsumerExclusion.OverrunAdmitsSecond` | crates/chain-bridge-api/src/nats_consumer/consumer.rs:289-328 | a run that outlives its claim lets a second run past the claim, whatever the age of the second's reading: the timeliness condition is needed |
| `ConsumerExclusion.ExclusiveStep` | crates/chain-bridge-api/src/nats_consumer/consumer.rs:281-330 | every step of every task keeps a holder's own record in the store until its expiry, and later holders claim only a record lifetime after it |
| `ConsumerHistory.SweepShowsIff` | crates/chain-bridge-api/src/nats_consumer/consumer.rs:89-98 | deleting all sweeps changes no run, reply, clock or cache at any point, and the stores only in expired records, if and only if no admissible delivery follows a sweep that dropped a record still live at the delivery's own reading |
| `ConsumerHistory.SweepIsInvisible` | crates/chain-bridge-api/src/nats_consumer/consumer.rs:91-98 | hence the sweep is invisible in every interleaving whose readings are not older than an earlier sweep's |
| `ConsumerHistory.ReplaysRepeatASuccess` | crates/chain-bridge-api/src/nats_consumer/consumer.rs:293-304 | each deduplicated success carries signature and slot of a successful run with the same raw key and effect kind, and its own correlation id |
| `ConsumerHistory.HistoryExec` | crates/chain-bridge-api/src/nats_consumer/consumer.rs:470-533 | in every reachable state each record was written by a run under exactly that key, a done one by a success, and every reply is truthful |
| `ConsumerExclusion.KeysNamespaced` | crates/chain-bridge-api/src/nats_consumer/consumer.rs:724-729 | exactly an empty raw key is unprotected, and two protected envelopes share a key if and only if kind and raw key agree |
| `ConsumerHistory.CacheIsExact` | crates/chain-bridge-api/src/nats_consumer/consumer.rs:615-617 | in every reachable state the live correlation map is exactly the succeeded ids, the cancelled ids and their cancel marks |
| `ConsumerHistory.BlockedIdNeverRuns` | crates/chain-bridge-api/src/nats_consumer/consumer.rs:389-394 | once a correlation id is recorded no step drops it and no later run with it is ever admitted |
| `ConsumerHistory.CancelBlocksIff` | crates/chain-bridge-api/src/nats_consumer/consumer.rs:551-617 | in every reachable state a cancel leaves its id blocked if and only if it was blocked already, or the cancel is authorised and no success and no cancel had the id spelt like the cancel's mark |
| `ConsumerHistory.AliasedCancelIsDropped` | crates/chain-bridge-api/src/nats_consumer/consumer.rs:588-593 | after a success under the id of the mark, an admissible cancel is dropped and its id runs |
| `ConsumerAdmission.MintRunsAreGenuine` | crates/chain-bridge-api/src/nats_consumer/consumer.rs:646-672 | for every signing configuration a mint run exists only for a genuine envelope, and none without a CA |
| `ConsumerAdmission.AdmittedIff` | crates/chain-bridge-api/src/nats_consumer/consumer.rs:343-479 | a delivery becomes a run if and only if, under the configuration as given, it is authentic where demanded, of a permitted role, at most 55 s old, decodable, policy-clean, under an accepted key id, of an unseen correlation id and without a live record; otherwise runs and dedup store stay |
| `ConsumerAdmission.RecordedIsReplayed` | crates/chain-bridge-api/src/nats_consumer/consumer.rs:293-318 | an authorised envelope with a live record gets the record's answer under its own correlation id and nothing else changes |
| `ConsumerAdmission.RefusalNamesFirstFailure` | crates/chain-bridge-api/src/nats_consumer/consumer.rs:343-463 | the reply names the first check that failed, in the handlers' order; a seen correlation id is dropped without a reply |
| `ConsumerAdmission.AdmittedRunsAreAuthorised` | crates/chain-bridge-api/src/nats_consumer/consumer.rs:343-463 | in every interleaving each run past the claim was so authorised at its own reading |
| `ConsumerAdmission.UnsignedSubmitRunsIff` | crates/chain-bridge-api/src/nats_consumer/auth.rs:49-63 | an otherwise acceptable unsigned submit runs if and only if signing is not asked for or no CA is loaded |
| `ConsumerAdmission.CancelsAreAuthorised` | crates/chain-bridge-api/src/nats_consumer/consumer.rs:551-613 | in every interleaving each cancelled id was named by a cancel that was fresh, of a known role and, where enforced, authentic |
| `ConsumerAdmission.ReconnectForgets` | crates/chain-bridge-api/src/main.rs:129-135 | after a reconnect any authorised envelope runs, whatever was recorded before |
| `EnvelopeAuthentication.VerifiedIffGenuine` | crates/chain-bridge-api/src/nats_consumer/auth.rs:105-164 | verified if and only if: known scheme, certificate in validity, CA-signed, first SPIFFE name equal to the claimed identity, signature over the canonical bytes |
| `EnvelopeAuthentication.PassesIff` | crates/chain-bridge-api/src/nats_consumer/auth.rs:168-177 | from configuration to decision: an envelope passes if and only if it is authentic, or neither its kind nor the configuration with a CA demands that |
| `EnvelopeAuthentication.ExtractFindsFirst` | crates/chain-bridge-api/src/middleware.rs:88-105 | the extracted id is the first SPIFFE URI of the certificate, in both directions |
| `NatsConsumer.NatsConsumer.ClaimOrReplay` | crates/chain-bridge-api/src/nats_consumer/consumer.rs:281-330 | stops exactly on a live record and leaves the store alone, else claims the key for 120 s |
| `NatsConsumer.NatsConsumer.AdmitSubmit` | crates/chain-bridge-api/src/nats_consumer/consumer.rs:332-479 | claims if and only if the envelope is authorised, unseen and without a live record, under the submit key; maps, reply and verdict are those of the machine's delivery |
| `NatsConsumer.NatsConsumer.AdmitMint` | crates/chain-bridge-api/src/nats_consumer/consumer.rs:635-744 | the same for mints, with forced signing and the mint key |
| `NatsConsumer.NatsConsumer.Complete` | crates/chain-bridge-api/src/nats_consumer/consumer.rs:492-533 | on success records the effect for 120 s and the correlation id, on failure releases the claim; maps and reply are stated outright and are those of the machine's last attempt |
| `NatsConsumer.NatsConsumer.HandleCancel` | crates/chain-bridge-api/src/nats_consumer/consumer.rs:540-628 | accepted if and only if authorised and the mark is new; then mark and id are in the map, otherwise nothing changes |
| `NatsConsumer.NatsConsumer.SweepDedup` | crates/chain-bridge-api/src/nats_consumer/consumer.rs:91-98 | keeps exactly the live records, unchanged |
| `NatsConsumer.SubmitWithRetries` | crates/chain-bridge-api/src/nats_consumer/consumer.rs:481-490 | at most 4 calls, ending at the first success or with the fourth error, as the loop specification |
| `NatsConsumer.RetryLoopEndsTheRun` | crates/chain-bridge-api/src/nats_consumer/consumer.rs:483-533 | the machine's run ends with the loop's result; both maps and the one reply are those of the last attempt alone |
| `NatsConsumer.InterleavedRetryLoop` | crates/chain-bridge-api/src/nats_consumer/consumer.rs:483-490 | whatever other tasks do in between, a submit run is where the retry loop is after the same results |
| `PipelineSafety.SendsAreAuthorised` | crates/chain-bridge-api/src/api/service.rs:327-463 | under all answers, a sent transaction was allowed by policy for the caller with the same instructions and keys, and differs from the received one only in a default blockhash, replaced by the one given, slot 0, which holds the signature Vault gave this call, and padding |
| `PipelineSafety.VaultCallsAreBound` | crates/chain-bridge-api/src/api/service.rs:345-425 | Vault is called only under the platform key, after policy and a non-failing simulation of the same message, on the bytes of the message then sent |
| `PipelineSafety.InterleavedCallsAreDrives` | crates/chain-bridge-api/src/api/service.rs:326-327 | every call among any interleaved calls behaves as some answer sequence's single call |
| `SigningOutcomes.PanicsIff` | crates/chain-bridge-api/src/api/service.rs:401-423 | a call panics if and only if it is on the Vault path with a blockhash and no definitive simulation failure, and a signer's key is missing, or Vault signed and there is no slot |
| `SigningOutcomes.CanPanicIff` | crates/chain-bridge-api/src/api/service.rs:401-423 | some answers in some interleaving make a request panic if and only if it passes to the Vault path and its own header lacks a signer's key or a slot |
| `SigningOutcomes.AuditedIff` | crates/chain-bridge-api/src/api/service.rs:331-463 | from request and answers: a call appends exactly one entry if and only if it decodes and is off the Vault path, or has a blockhash and is stopped by simulation or signed into an existing slot |
| `SigningOutcomes.SignedYetUnaudited` | crates/chain-bridge-api/src/api/service.rs:401-423 | a transaction without slots: Vault is called and signs, then nothing is sent or audited |
| `SigningOutcomes.EndedCallHasWorld` | crates/chain-bridge-api/src/api/service.rs:326-327 | every call that any interleaving brings to its end has such answers, so both conditions cover it |
| `PipelineSafety.RetriesNeverSeeStaticErrors` | crates/chain-bridge-api/src/nats_consumer/consumer.rs:416-490 | no attempt on behalf of any admitted submit run can fail with the format, policy or key stage |
| `PipelineSafety.AuditConservation` | crates/chain-bridge-api/src/api/service.rs:99-117 | over all interleavings: submitted entries, pending appends and refused appends add up to the sends that returned Ok, and the log they are counted in is the hash chain |
| `PipelineSafety.EntriesTellTheirCalls` | crates/chain-bridge-api/src/api/service.rs:105-117 | in every interleaving each stored entry is a consumer rejection's, or carries correlation id, identity and the exact stage and reason of a call that returned |
| `PipelineSafety.AtMostOneAuditEntry` | crates/chain-bridge-api/src/api/service.rs:331-463 | in every interleaving a call appends at most one entry: one once it returned with a policy, key, simulation or send result, none otherwise |
| `SigningService.ChainBridgeService.SignAndSubmit` | crates/chain-bridge-api/src/api/service.rs:327-463 | the in-place code ends, calls and appends exactly as the pipeline machine under the same answers, sends Vault's signature in slot 0 and the given blockhash, and logs the request's own ids with its outcome in the hash chain |
| `SigningService.FinishIsDrive` | crates/chain-bridge-api/src/api/service.rs:327-463 | an uninterrupted call is one of the machine's answer sequences, so all pipeline theorems apply to it |
| `SigningService.ResolveConfirmationBounded` | crates/chain-bridge-api/src/api/service.rs:262-288 | the outcome rests on the first decisive poll within the bound: both directions for confirmed, errored and pending, and as the polling specification the mint machine uses |
| `MintWorld.IssuedByFirstLanding` | crates/chain-bridge-api/src/api/service.rs:163-165 | over re-sends, failed sends that landed, late landings and reconnects: a window is issued if and only if a transaction for it landed without error, once, with the recipient and energy of the first to land |
| `MintWorld.PollingEndsTheRun` | crates/chain-bridge-api/src/api/service.rs:234-245 | under any interleaving a mint run is where the bounded polling loop is after the same polls: success, failure or still waiting |
| `MintWorld.MintSucceedsOnlyByPoll` | crates/chain-bridge-api/src/api/service.rs:221-245 | a mint run succeeds only by a poll within 24 attempts that showed its sent signature with a slot and no error, after polls none of which showed an error |
| `MintReplies.MintSuccessIsIssued` | crates/chain-bridge-api/src/api/service.rs:225-245 | every mint success ever replied, fresh or replayed, in any lifetime, stays paid out with the envelope's own window, recipient and energy, if one window and one key name one mint |
| `MintReplies.HonestIffConsistent` | crates/chain-bridge-api/src/api/service.rs:163-165 | for any set of admissible envelopes: all runs that deliver only these have such replies if and only if the set is consistent |
| `MintReplies.SharedKeyReplaysUnissued` | crates/chain-bridge-api/src/nats_consumer/consumer.rs:724-744 | two mints under one key: a success is replayed for the second although only the first was issued |
| `MintReplies.SharedWindowPaysFirst` | crates/chain-bridge-api/src/api/service.rs:231-233 | two keys, one window, two mints: a fresh success for the second although only the first's recipient was paid |
| `AuditChain.PreimageBytes` | crates/chain-bridge-core/src/audit.rs:82-89 | the hashed bytes: 32 of the predecessor or zeros, the four fields in order, the timestamp in eight bytes, lowest first |
| `AuditChain.PreimageCommits` | crates/chain-bridge-core/src/audit.rs:76-91 | two hashed inputs are equal if and only if predecessor bytes, concatenated text and timestamp are |
| `AuditChain.EqualTipsAgree` | crates/chain-bridge-core/src/audit.rs:1-7 | chains of equal length and tip agree at every index in predecessor, text and timestamp, or a collision is exhibited |
| `AuditChain.RewriteShowsIff` | crates/chain-bridge-core/src/audit.rs:79-91 | rewriting an entry changes every hash from it on if and only if its text or timestamp changed, barring a collision |
| `AuditChain.OneFieldRewriteShows` | crates/chain-bridge-core/src/audit.rs:125-131 | changing exactly one hashed field changes that hash and every later one |
| `AuditChain.ShiftedBoundaryGoesUnseen` | crates/chain-bridge-core/src/audit.rs:82-89 | moving text between correlation id and identity changes the entry and no hash |
| `AuditStores.InMemoryAuditStore.Append` | crates/chain-bridge-persistence/src/postgres_audit.rs:141-148 | appends with the next id; the new tip is the entry's hash over the old tip; the chain invariant is kept |
| `AuditStores.InMemoryAuditStore.LatestHash` | crates/chain-bridge-persistence/src/postgres_audit.rs:150-152 | the stored last hash is the recomputed tip of all entries |
| `AuditStores.RowsAlwaysLink` | crates/chain-bridge-persistence/src/postgres_audit.rs:63-108 | under any interleaving every row hashes over its own stored predecessor, which is null or an earlier row's hash |
| `AuditStores.SingleChainIff` | crates/chain-bridge-persistence/src/postgres_audit.rs:63-108 | over every interleaving, barring a collision or a zero digest: the table is a single chain if and only if no appends overlapped, if and only if no two rows have one predecessor |
| `AuditStores.NoOverlapRefinesInMemory` | crates/chain-bridge-persistence/src/postgres_audit.rs:63-108 | when no appends overlap the table is the log of the in-memory store, hash for hash and link for link |
| `AuditStores.OverlapForks` | crates/chain-bridge-persistence/src/postgres_audit.rs:64-76 | in any table, one overlapping append gives two rows with one predecessor, whatever the hash |
| `AuditStores.TwoRootsReachable` | crates/chain-bridge-persistence/src/postgres_audit.rs:64-76 | two appends that read the empty table both start a chain |
| `Similarity.DotIsInnerProduct` | crates/chain-bridge-api/src/agent_memory.rs:37-41 | the accumulated sum is symmetric, additive, and 1 or 0 on equal or different unit vectors |
| `Similarity.DotScale` | crates/chain-bridge-api/src/agent_memory.rs:37-41 | and homogeneous |
| `Similarity.CauchySchwarz` | crates/chain-bridge-api/src/agent_memory.rs:37-41 | the accumulated sums satisfy the Cauchy-Schwarz inequality for all vectors |
| `Similarity.CosineSimilarity` | crates/chain-bridge-api/src/agent_memory.rs:30-47 | the result times both lengths is the inner product, and lies in [-1, 1]; 0 for unequal lengths, empty and zero vectors |
| `Similarity.CosineIs` | crates/chain-bridge-api/src/agent_memory.rs:42-46 | the same of the score function that retrieval ranks by |
| `Similarity.CosineSymmetric` | crates/chain-bridge-api/src/agent_memory.rs:30-47 | the score is symmetric |
| `Similarity.CosineScaleInvariant` | crates/chain-bridge-api/src/agent_memory.rs:42-46 | positive scaling changes no score |
| `Similarity.GetEmbedding` | crates/chain-bridge-api/src/agent_memory.rs:86-107 | the in-place counting and division give the normalised bucket counts |
| `Similarity.BucketCounts` | crates/chain-bridge-api/src/agent_memory.rs:92-95 | bucket k counts the characters with (code + 31 * position) % dimension equal to k |
| `Similarity.EmbeddingIsNormalised` | crates/chain-bridge-api/src/agent_memory.rs:98-104 | each component times the length of the counts is its count |
| `Similarity.EmbeddingScores` | crates/chain-bridge-api/src/agent_memory.rs:98-104 | normalisation changes no score, and a non-empty text scores 1 against itself |
| `Retrieval.TopKCorrect` | crates/chain-bridge-api/src/agent_memory.rs:314-329 | qualifying entries only, ranked with ties in insertion order, as many as limit and supply allow, nothing left out ranks before anything kept |
| `Retrieval.TopKUnique` | crates/chain-bridge-api/src/agent_memory.rs:324-328 | that promise has exactly one answer, the computed one |
| `AgentMemory.AgentMemorySystem.Query` | crates/chain-bridge-api/src/agent_memory.rs:314-329 | the scan, sort and cut return the top-k entries with their scores |
| `AgentMemory.AgentMemorySystem.Recall` | crates/chain-bridge-api/src/agent_memory.rs:464-476 | returns the top-k entries with their scores as they were before, then touches every returned entry once |
| `AgentMemory.RecallAccounting` | crates/chain-bridge-api/src/agent_memory.rs:331-337 | recall raises the total access count by the number of results and changes nothing but access statistics; with unique ids each returned entry has one more access at this time and every other entry is as it was |
| `AgentMemory.HistoryConserved` | crates/chain-bridge-api/src/agent_memory.rs:481-525 | over all operation sequences, batches then buffer are the full history, entries are the digests of the stored batches, and the stored ones account for all of it if and only if no embedding failed |
| `AgentMemory.AgentMemorySystem.TruncateOlder` | crates/chain-bridge-api/src/agent_memory.rs:271-278 | splits the buffer without loss, keeping the most recent messages |
| `AgentMemory.AgentMemorySystem.ConsolidateOlder` | crates/chain-bridge-api/src/agent_memory.rs:481-525 | an id is returned exactly when a batch was taken and embedded; then `keep_recent` messages are left and one entry is added with that id, that embedding and the digest text; a failed embedding takes the batch and adds nothing |
| `AgentMemory.DigestIs` | crates/chain-bridge-api/src/agent_memory.rs:495-506 | the digest is the heading and one line per message, in order, with role and content |
| `NonceLeases.LeasesAreExclusive` | crates/chain-bridge-persistence/src/nonce_store.rs:33-75 | from a table in any state, over every interleaving in which nobody releases a row another holds: no two leases share a row, leased rows are exactly the held, the unparseable and the ones found leased, and the table keeps its rows |
| `NonceLeases.StrayReleaseSafeIff` | crates/chain-bridge-persistence/src/nonce_store.rs:68-75 | a release by a non-holder keeps exclusion in every continuation if and only if nobody held the row |
| `NonceLeases.StrayReleaseShares` | crates/chain-bridge-persistence/src/nonce_store.rs:68-75 | released by another, a held row is handed out a second time |
| `NonceLeases.NonceStore.Allocate` | crates/chain-bridge-persistence/src/nonce_store.rs:33-66 | claims the lowest free unlocked row and returns that row's account, authority and value; a row that does not parse stays claimed although an error is returned |

## Left out

- Policy rules, role mapping, `require_any`, canonical envelope bytes and kWh scaling are in a crate that is not part of this model; they are arbitrary deterministic functions here.
- Certificate, PEM, base64, ECDSA, SHA-256, JSON and bincode code: library functions, as parameters.
- Exact error texts: a rejection reply carries the leading words of its stage.
- `chain.tx.status`, `chain.tx.simulate` and unparseable payloads: they touch neither map.
- The audit entries that consumer rejections append are in the pipeline system's log as `ConsumerRejection`, not tied to individual deliveries.
- The certificate check reads the clock moments before the staleness check does; a delivery has one reading for both.
- A panic while signing ends the whole consumer task in the source; the pipeline machine has it as a final phase of the call, the consumer machine does not have it.
- NATS acknowledgement and redelivery timing, the pull loop's reopening and backoff, ack waits, concurrency limits, liveness and wall-clock limits.
- At most one landed transaction per submit key: a send that returned an error may still have landed, so only sends that returned Ok are counted.
- `u64` overflow of millisecond timestamps, and the cast of `created_at_ms` to a signed column.
- `f32` rounding and NaN: scores are exact reals.
- The library's stable sort is modelled by stable insertion; `TopKUnique` shows that any correct one gives the same answer.
- Message and entry metadata, `remember_fact`, episodic memory, the remote embedding provider, and placeholder ids (ids are inputs).
- gRPC handlers, bindings, the mTLS acceptor, metrics and logging, the blockhash refresher, and the adapters in the persistence crate that are not wired in.
