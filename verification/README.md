# pubky2pubky, verified

A Dafny model of pubky2pubky: a consent-gated connection protocol between two Pubky devices over untrusted
public storage, with durable anti-rollback state, bounded admission queues and a browser core whose
asynchronous operations share one mutable state. `dafny verify dfyconfig.toml` checks all of it.

| component | modules | form |
|---|---|---|
| signed objects of protocol v1: verifiers, windows, paths, meaning, the Grant's JWS spelling | `Wire`, `WireTheorems`, `Authority`, `Jws` | values, predicates, lemmas |
| the mutual handshake under an adversary, honest runs of it, and its completion | `Handshake`, `Agreement`, `AuthorizedPeers`, `HonestRuns`, `Completion` | a state machine of the code between awaits |
| the anti-rollback store: memory and file | `SequenceKeys`, `Sequences`, `SequenceTheorems`, `FileStore` | loops and a class over a map, a machine of system calls |
| publisher to observer | `Publication` | a state machine over any number of devices and crashing file stores |
| the browser's store | `BrowserSequences`, `BrowserRefinement`, `BrowserStorage` | the four loops of a batch, a class per database, runs of transactions |
| bounded admission | `PendingRequests`, `WakeUp`, `Replay`, `ActiveRecords` | classes over their mutable structures, machines for the protocols around them |
| the browser core | `BrowserAuth`, `BrowserNetwork`, `DevicePreparation` | one class method per borrow-to-await region, machines over their interleavings |
| dial order | `DialOrder` | sorts, the listing and fetching loops |

`Base`, `Text` and `Collections` hold shared values and small facts.

## How it is modelled

- Signatures and digests are constructors applied to exactly what they sign or digest: a digest is injective and
  separated by domain, a signature determines key and payload. An adversary may show any signature except one under
  the key of a device it has not compromised that the device never made; it may overwrite and erase storage, open
  connections and speak on every end whose endpoint key it holds or that belongs to no device.
- Challenges and session nonces that a device draws are fresh. Streams are authenticated and ordered.
- Encoded sizes, JSON and base64 codecs, and the flat text validators are function parameters, so the statements hold
  whatever they return. Randomness, clock readings and the answers of storage are parameters of events.
- Where the source updates fields in place, the model is a class whose methods are proved equal to a function of the
  old state, and the run theorems are about those functions.

## What turned out not to hold unconditionally

- A Hello can be admitted twice if it verifies just before its expiry and is reserved just after: the two steps read the
  clock separately. `Replay.AdmittedAgainExactly` and `Replay.HeldOnceExactly` give the exact condition,
  `Replay.StraddlingExpiryAdmitsTwice` the run.
- Undoing a reservation can remove a later one of the same sender and nonce, so that the later Hello is admitted twice:
  `Replay.LateUndoAdmitsTwice`. `Replay.UndoKeepsExactly` says exactly when an undo is harmless; before the expiry it
  always is (`Replay.TimelyIsHarmless`), and with every admission at one clock reading no Hello is admitted twice
  (`Replay.AtomicAdmissionsOnce`).
- With two or more concurrent callers of `next` a wake-up can be lost, with at most one it never is:
  `WakeUp.NeverLosesExactly`.
- After a call whose directory flush failed, a crash during a later call can read back a map older than the one that call
  found: `FileStore.FailedFlushReadsOlder`. A crash reads the old or the new map exactly if the file the call found was
  already the durable one, or the call has flushed the directory: `FileStore.OldOrNewExactly`.
- A stored device whose certificate was issued in the future, within the clock skew, is reused by `prepare_device` but cannot
  sign a locator yet: the equivalence in `DevicePreparation.ReusePublishes`.
- The issue time of a locator is not ordered with that of a Hello, so it is missing from the chain in
  `WireTheorems.WindowsNest` and appears in the opening time of `WireTheorems.HelloInterval`.

## Model

| member | source | states |
|---|---|---|
| `WireTheorems.GrantInterval` | crates/protocol/src/v1.rs:161-183 | a Grant accepted once is accepted at `now` if and only if `now` lies in its own skewed window |
| `WireTheorems.CertificateInterval` | crates/protocol/src/v1.rs:502-546 | the same for a certificate: its own window is the whole acceptance interval, the Grant's never decides |
| `WireTheorems.RecordInterval` | crates/protocol/src/v1.rs:951-998 | the same for a device record, through its locator |
| `WireTheorems.HelloInterval` | crates/protocol/src/v1.rs:1326-1438 | the accepting times of a Hello are one interval, closed by its own expiry alone |
| `WireTheorems.AckInterval` | crates/protocol/src/v1.rs:1623-1736 | the accepting times of an Ack are one interval |
| `WireTheorems.ProofInterval` | crates/protocol/src/v1.rs:1911-2007 | a currentness proof is accepted at `now` if and only if `now` lies between its issue time (no skew) and its expiry and inside the skewed window of its Hello, which a locator issued more than 120 seconds later can open after the proof's issue time |
| `WireTheorems.WindowsNest` | crates/protocol/src/v1.rs:1954-1960 | a proof verified at `now` nests the windows of Grant, certificate, Hello, proof and locator for both parties, and ends within 30 seconds |
| `WireTheorems.HelloSignExact` | crates/protocol/src/v1.rs:1265-1324 | signing returns a Hello if and only if it would verify at its issue time |
| `WireTheorems.AckSignExact` | crates/protocol/src/v1.rs:1555-1617 | signing returns an Ack if and only if it would verify at its issue time |
| `WireTheorems.ProofSignExact` | crates/protocol/src/v1.rs:1847-1905 | signing returns a proof if and only if it would verify at its issue time |
| `WireTheorems.LocatorSignExact` | crates/protocol/src/v1.rs:905-949 | signing returns a locator if and only if the credential verifies now and the locator carries the requested relays, nonce, sequence and life and would verify at its issue time |
| `WireTheorems.SignedHelloStaysValid` | crates/protocol/src/v1.rs:1265-1438 | a signed Hello verifies at every time from issue to expiry |
| `WireTheorems.SignedAckStaysValid` | crates/protocol/src/v1.rs:1555-1736 | a signed Ack verifies at every time from issue to expiry |
| `WireTheorems.SignedProofStaysValid` | crates/protocol/src/v1.rs:1847-2007 | a signed proof verifies at every time from issue to expiry |
| `WireTheorems.VerifiedHelloHasSession` | crates/client/src/v1_peer.rs:1659-1665 | `nonce_uuid` cannot fail on the nonce of a verified Hello |
| `WireTheorems.ProofPathIsDerived` | crates/protocol/src/v1.rs:1801-1835 | the path a verified proof is published at is the one its reader derives without it |
| `Authority.GrantExactly` | crates/protocol/src/v1.rs:352-441 | a Grant is accepted at `now` if and only if it is root-signed for the identity, delegates to another key, lasts at most two years, carries 1 to 32 capabilities of distinct texts one of which covers the scope and writes, and `now` is in its window |
| `Authority.CertificateExactly` | crates/protocol/src/v1.rs:502-546 | a certificate is accepted if and only if it is, field by field, the delegation of its Grant, with four distinct keys, at most 90 days inside the Grant, and `now` is in its window |
| `Authority.RecordExactly` | crates/protocol/src/v1.rs:951-1145 | a record is accepted if and only if its locator is, field by field, that of the certified device, with 1 to 4 distinct allowed relays, a positive sequence at or above the floor, at most 900 seconds inside the certificate, it fits 32 KiB, and `now` is in the locator's window |
| `Authority.HelloExactly` | crates/protocol/src/v1.rs:1326-1438 | a Hello is accepted if and only if it is, field by field, the invitation between the two records for the application, at most 120 seconds inside every life it depends on, and `now` is in its interval |
| `Authority.AckExactly` | crates/protocol/src/v1.rs:1623-1736 | an Ack is accepted if and only if it is, field by field, the consent to that Hello with another challenge, inside the Hello's life, and `now` is in its interval |
| `Authority.ProofExactly` | crates/protocol/src/v1.rs:1911-2007 | a proof is accepted if and only if it is, field by field, the role's proof for that challenge and Hello, at most 30 seconds inside the Hello's life, and `now` is in its interval |
| `Jws.ThreeSegmentsExact` | crates/protocol/src/v1.rs:357-373 | the segment iterator accepts exactly the joins of three nonempty dot-free segments, and returns them |
| `Jws.AcceptedShape` | crates/protocol/src/v1.rs:352-399 | an accepted Grant splits in exactly one way, and its signature covers the first two segments |
| `Jws.AcceptedIsSpelling` | crates/protocol/src/v1.rs:375-399 | an accepted Grant text is determined by its claims and signature bytes |
| `Jws.OneSpelling` | crates/protocol/src/v1.rs:135-143 | two accepted Grants with equal claims and signature bytes are the same text, for any codecs |
| `Jws.SpellingAccepted` | crates/protocol/src/v1.rs:352-399 | with codecs that invert, that one spelling is accepted and read back |
| `Agreement.RunKeeps` | crates/client/src/v1_peer.rs:448-554 | every event of every run, adversarial ones included, keeps the handshake invariant |
| `Agreement.FailedIsFinal` | crates/client/src/v1_peer.rs:538-542 | a session that failed does nothing more in any continuation of the run |
| `Agreement.AdversaryCan` | crates/client/src/v1_discovery.rs:483-525 | what the adversary of these runs may do: sign with keys it holds, replay, speak as endpoints it holds, overwrite and erase storage |
| `Agreement.NoncesTellConnectionsApart` | crates/client/src/v1_peer.rs:462-462 | two connections never share a Hello or a drawn challenge |
| `Agreement.ConsentAgreement` | crates/client/src/v1_peer.rs:1141-1222 | an Ack accepted from an honest control key means exactly one session of that device consented to this Hello with this challenge |
| `Agreement.InitiatorAgreement` | crates/client/src/v1_peer.rs:1053-1222 | after the confirmation the responder had consented to this Hello, verified the initiator's proof for this challenge in full at a past clock reading, and committed its record; and the initiator verified the responder's |
| `Agreement.ResponderAgreement` | crates/client/src/v1_peer.rs:448-554 | a responder that verified a proof of an honest key, in full and at a past clock reading, has a matching initiator session, on this very connection if the endpoint is honest |
| `Agreement.ResponderAgreementInjective` | crates/client/src/v1_peer.rs:448-554 | two responder sessions never verified the same initiator session |
| `Agreement.PeersName` | crates/client/src/v1_peer.rs:544-554 | the two returned peers carry one session id, name each other's certificate, and both records are committed |
| `Agreement.EveryRunAgrees` | crates/client/src/v1_peer.rs:448-554 | after every run, every session did what it should: accepted application, registered records, Hello, Ack, proofs and commits verified at past clock readings with the prescribed windows, exact control messages; every returned peer rests on that whoever the other side is, and if its keys are honest, on its matching session, verification and commit |
| `Agreement.EveryRegistrationIsOwn` | crates/client/src/v1_peer.rs:898-921 | over every run a registered record is the device's own and verified when it was registered |
| `Agreement.EveryInvitationIsNewest` | crates/client/src/v1_peer.rs:1053-1105 | over every run an invitation uses a registered, live record of which the device has none newer, a verified target, an unused connection between the two endpoints and a fresh nonce |
| `AuthorizedPeers.EveryPeerIsAuthorized` | crates/protocol/src/v1.rs:302-309 | over every run both records behind a returned peer carry a Grant signed by the identity the peer goes by, with 1 to 32 capabilities of distinct texts, one covering the scope and writing, and the signature chain down to the locator |
| `AuthorizedPeers.UnauthorizedIsRefused` | crates/protocol/src/v1.rs:435-439 | a record without a capability that covers the scope and writes is accepted by no verifier at any time |
| `Agreement.EveryPeerWasCurrent` | crates/client/src/v1_peer.rs:513-522 | after every run, each side that returned a peer had seen a proof in force at that moment, at most 30 seconds long, with the windows of both parties nested around it |
| `Completion.SignsVerifies` | crates/protocol/src/v1.rs:1265-1909 | what either device signs for the other verifies at the same clock reading |
| `Completion.HandshakeCompletes` | crates/client/src/v1_peer.rs:1053-1222 | for every two devices that sign, a run in which both return a peer with one session id, naming each other's identity |
| `HonestRuns.HomesApart` | crates/protocol/src/v1.rs:2016-2025 | two exchanges never share a storage slot |
| `HonestRuns.RolesApart` | crates/protocol/src/v1.rs:1801-1835 | the two roles of one exchange never share a storage slot |
| `HonestRuns.BenignRunKeeps` | crates/client/src/v1_peer.rs:484-542 | in failure-free runs each proof is stored from its publication until its own side returns, and gone from then on |
| `HonestRuns.InitiatorFetchFinds` | crates/client/src/v1_peer.rs:1161-1221 | the initiator's fetch finds the responder's proof at the path the initiator derived |
| `HonestRuns.ResponderFetchFinds` | crates/client/src/v1_peer.rs:498-525 | the responder's fetch finds the initiator's proof at the path it validated |
| `HonestRuns.InitiatorCheckSucceeds` | crates/client/src/v1_peer.rs:1161-1221 | the initiator's check succeeds if and only if the proof has not expired and the initiator's own policy accepts it, which it does if the policies agree |
| `HonestRuns.ResponderCheckSucceeds` | crates/client/src/v1_peer.rs:484-542 | the responder's check succeeds if and only if the proof has not expired and the responder's own policy accepts it, which it does if the policies agree |
| `HonestRuns.EveryBenignRunFetches` | crates/client/src/v1_discovery.rs:483-525 | in every failure-free run with any number of exchanges no fetch comes back empty |
| `SequenceKeys.StateKeySplits` | crates/client/src/sequence.rs:318-336 | splitting a state key at its first colon recovers identity and scope |
| `SequenceKeys.StateKeyInjective` | crates/client/src/sequence.rs:318-336 | different (identity, scope) pairs have different keys |
| `SequenceKeys.PublisherKeysApart` | crates/client/src/sequence.rs:338-346 | a publisher counter and an authenticated floor never share a key |
| `SequenceKeys.PublisherKeyInjective` | crates/client/src/sequence.rs:338-346 | different control keys have different counters |
| `Sequences.PrepareBatch` | crates/client/src/sequence.rs:348-369 | the loop accepts exactly the well-formed batches without conflicting duplicates, and returns them as a map |
| `Sequences.RecordValueExact` | crates/client/src/sequence.rs:381-418 | one value is accepted exactly if it is new, higher or identical and fits; it then is the entry |
| `Sequences.RecordAuthenticatedBatch` | crates/client/src/sequence.rs:371-379 | applying the values one by one, in any order, accepts exactly if all are admissible in the old state and the result fits |
| `Sequences.MemorySequenceStore.RecordBatch` | crates/client/src/sequence.rs:161-170 | the whole batch or nothing of it |
| `Sequences.MemorySequenceStore.InitializeLocatorPublisher` | crates/client/src/sequence.rs:179-187 | a counter is made at zero exactly where there was none, or nothing changes |
| `Sequences.MemorySequenceStore.NextLocatorSequence` | crates/client/src/sequence.rs:193-197 | the number returned is the new counter, or nothing changes |
| `SequenceTheorems.UpdatedAbove` | crates/client/src/sequence.rs:451-460 | no operation loses an entry, lowers a counter or swaps a digest at a counter |
| `SequenceTheorems.AllocatedAbove` | crates/client/src/sequence.rs:435-449 | an allocated number is the stored counter plus one, and nothing else changes |
| `SequenceTheorems.InitializeExactly` | crates/client/src/sequence.rs:420-433 | a counter is made exactly where there is none, below 4096 entries and 1 MiB, at zero |
| `SequenceTheorems.AllocateExactly` | crates/client/src/sequence.rs:435-449 | a number is handed out exactly if there is a counter below 2^64 - 1 and the state fits |
| `SequenceTheorems.RecordExactly` | crates/client/src/sequence.rs:348-418 | a batch is recorded exactly if its observations can be named, those of one name agree, what is stored gives way to each, and the result fits |
| `SequenceTheorems.RecordedContents` | crates/client/src/sequence.rs:371-418 | a recorded batch leaves its own entries and every other entry as it was |
| `SequenceTheorems.EntryValidExactly` | crates/client/src/sequence.rs:564-595 | `read_state` accepts an entry exactly if some operation could have written it |
| `SequenceTheorems.BatchOrderIrrelevant` | crates/client/src/sequence.rs:348-379 | batches of the same observations in any order have the same outcome |
| `SequenceTheorems.UpdatedReadable` | crates/client/src/sequence.rs:554-595 | whatever an operation writes passes every check `read_state` makes |
| `FileStore.RunKeeps` | crates/client/src/sequence.rs:493-524 | every interleaving of instances, failures and crashes keeps versions climbing, readable and locked |
| `FileStore.NumbersNeverRepeat` | crates/client/src/sequence.rs:302-316 | numbers handed out for one control key are strictly increasing over every run, crashes included |
| `FileStore.CrashReadsWhole` | crates/client/src/sequence.rs:505-524 | a crash at any step of any call reads back what a crash before the call could have read or the whole new map, never a torn file and never one that `read_state` refuses |
| `FileStore.OldOrNewExactly` | crates/client/src/sequence.rs:505-524 | for every run and every call past the lock, every crash reads back the old or the new map if and only if the directory is flushed again or the file the call found was already durable |
| `FileStore.CleanHistoryReadsOldOrNew` | crates/client/src/sequence.rs:493-524 | in particular if no earlier call failed |
| `FileStore.ReturnedIsDurable` | crates/client/src/sequence.rs:505-524 | no crash takes back a call that returned Ok |
| `FileStore.UndisturbedCall` | crates/client/src/sequence.rs:493-524 | after any run that left the lock free, an undisturbed call leaves exactly the new map, durable and unlocked, and hands out its number, or on a refusal changes nothing |
| `FileStore.EveryVersionIsSound` | crates/client/src/sequence.rs:554-595 | whatever a crash leaves behind after any run fits both limits and holds only entries that some operation wrote |
| `FileStore.CrashFrees` | crates/client/src/sequence.rs:493-524 | a crash ends every call, frees the lock, keeps what was handed out, and tears the file exactly if an unflushed version survives |
| `FileStore.FailedFlushReadsOlder` | crates/client/src/sequence.rs:513-519 | for every identity and control key whose three maps fit, the run in which a failed directory flush lets a later crash read an older map |
| `Publication.CommitIsBatch` | crates/client/src/v1_discovery.rs:320-334 | committing a record is `record_batch` of its one observation |
| `Publication.RunKeeps` | crates/client/src/v1_peer.rs:924-938 | every system call, failure, crash and signing keeps all stores genuine, all handed-out numbers apart and all returned commits durable |
| `Publication.GenuineIsSigned` | crates/protocol/src/v1.rs:951-998 | a verified record with an honest device's locator is the very record that device signed |
| `Publication.CurrentRecordExact` | crates/client/src/v1_peer.rs:861-922 | `current_record` returns a record exactly if the lifetime is 1 to 900 seconds and fits, the credential verifies, and the record is the device's own with the requested relays, nonce, sequence, issue time and expiry and verifies now |
| `Publication.CurrentRecordStaysValid` | crates/client/src/v1_peer.rs:861-922 | and that record verifies for the whole lifetime asked for |
| `Publication.NumberIsUsedUp` | crates/client/src/v1_peer.rs:929-938 | a handed-out number is signed at most once, and what is made of it is published |
| `Publication.OneDigestPerSequence` | crates/client/src/v1_peer.rs:861-938 | over every run of file stores with failures and crashes, at most one record per (control key, sequence) |
| `Publication.HonestNeverEquivocates` | crates/client/src/v1_discovery.rs:640-661 | after every such run, no store refuses a record of an honest device except for a lower sequence or its own limits |
| `Publication.CommitsNeverRollBack` | crates/client/src/sequence.rs:381-418 | in one store, the sequences of returned commits under one key never decrease and none has two digests, whatever crashes lie between |
| `BrowserSequences.SequenceKeyInjective` | crates/browser-wasm/js/browser_store.js:673-675 | different (account, identity, scope) triples have different keys |
| `BrowserSequences.PrepareInputs` | crates/browser-wasm/js/browser_store.js:836-847 | the first loop accepts exactly the valid, conflict-free batches |
| `BrowserSequences.CheckAll` | crates/browser-wasm/js/browser_store.js:853-866 | the checking loop passes exactly if every record may replace what is stored |
| `BrowserSequences.StageAll` | crates/browser-wasm/js/browser_store.js:867-879 | skipping identical records changes nothing: the staged map is the store with the whole batch over it |
| `BrowserSequences.PutAll` | crates/browser-wasm/js/browser_store.js:775-775 | putting the changed records makes the store the staged map |
| `BrowserSequences.RecordSequenceBatch` | crates/browser-wasm/js/browser_store.js:831-881 | the whole transaction: the batch over the store, or a refusal |
| `BrowserSequences.InputOrderIrrelevant` | crates/browser-wasm/js/browser_store.js:831-881 | the outcome does not depend on the order of the batch |
| `BrowserSequences.BatchExactly` | crates/browser-wasm/js/browser_store.js:831-881 | a batch is recorded exactly if it has at most 128 recordable observations, those of one name agree, the store is sound, what it holds gives way to each, and the result fits; it then is the store with the batch over it |
| `BrowserSequences.BadBatchIsRefused` | crates/browser-wasm/js/browser_store.js:698-714 | more than 128 observations, an unsafe counter, a malformed digest, a reserved scope or a disagreement is refused whatever is stored |
| `BrowserRefinement.BatchRefines` | crates/browser-wasm/js/browser_store.js:831-881 | from equal stores, a batch whose result is within both byte limits is accepted by the browser and the native store or by neither, and leaves them equal |
| `BrowserStorage.DeleteAccount` | crates/browser-wasm/js/browser_store.js:652-665 | the cursor loop deletes exactly the account's records |
| `BrowserStorage.BrowserDatabase.SaveNewDeviceState` | crates/browser-wasm/js/browser_store.js:476-532 | device and counter together, refused if the account has a device or any counter |
| `BrowserStorage.BrowserDatabase.ReplaceDeviceState` | crates/browser-wasm/js/browser_store.js:534-590 | rotation commits device and counter together or leaves everything |
| `BrowserStorage.BrowserDatabase.RemoveIdentity` | crates/browser-wasm/js/browser_store.js:635-671 | the account's device and all its sequences go |
| `BrowserStorage.BrowserDatabase.InitializePublisher` | crates/browser-wasm/js/browser_store.js:791-811 | a counter at zero where there was none, or nothing |
| `BrowserStorage.BrowserDatabase.NextPublisherSequence` | crates/browser-wasm/js/browser_store.js:813-829 | the counter goes up by one and is returned, or nothing changes |
| `BrowserStorage.BrowserDatabase.RecordBatch` | crates/browser-wasm/js/browser_store.js:831-881 | the batch or nothing |
| `BrowserStorage.EveryDeviceHasCounter` | crates/browser-wasm/js/browser_store.js:476-590 | in every run a stored device has a publisher counter for its current control key |
| `BrowserStorage.NumbersAreConsecutive` | crates/browser-wasm/js/browser_store.js:813-829 | in every run the numbers handed out per counter since the account's last removal are exactly 1, 2, 3, ... |
| `BrowserStorage.RotationIsAtomic` | crates/browser-wasm/js/browser_store.js:534-590 | in every run rotation replaces the device and adds an unused counter together, keeping the old one, or changes nothing |
| `BrowserStorage.FirstDeviceExactly` | crates/browser-wasm/js/browser_store.js:508-528 | a first device is saved exactly if the account has no device and no counter and the new one fits; the account then holds exactly that counter |
| `BrowserStorage.CountersExactly` | crates/browser-wasm/js/browser_store.js:791-829 | in every run a counter is made, and a number handed out, exactly under these conditions and with exactly this effect |
| `BrowserStorage.RotationExactly` | crates/browser-wasm/js/browser_store.js:534-590 | in every run a device is rotated exactly if it is the one named, to a key without a counter, for which one fits |
| `BrowserStorage.TamperedStoreIsRefused` | crates/browser-wasm/js/browser_store.js:748-771 | a store with a record the reader would not accept, or with too many, refuses every change but a removal |
| `BrowserStorage.RemovalExactly` | crates/browser-wasm/js/browser_store.js:646-665 | a removal takes the account's device and records and nothing of any other account |
| `BrowserStorage.EveryRecordIsSound` | crates/browser-wasm/js/browser_store.js:716-741 | in every run every stored record has, field by field, the shape the reader demands, and there are at most 4096 |
| `PendingRequests.RemoveAgrees` | crates/client/src/v1_peer.rs:664-676 | removal keeps order, entries and counts agreeing, and its saturating decrement never saturates |
| `PendingRequests.AppendAgrees` | crates/client/src/v1_peer.rs:597-606 | insertion keeps them agreeing; the count read is the exact number queued |
| `PendingRequests.PendingQueue.Remove` | crates/client/src/v1_peer.rs:664-676 | the entry, its place in the order and one count go |
| `PendingRequests.PendingQueue.PruneExpired` | crates/client/src/v1_peer.rs:647-662 | exactly the expired requests leave, whatever order they are visited in |
| `PendingRequests.PendingQueue.Insert` | crates/client/src/v1_peer.rs:585-609 | prunes, then appends unless closed, full, known or over the identity's limit; both capacities hold |
| `PendingRequests.PendingQueue.Expire` | crates/client/src/v1_peer.rs:611-616 | exactly that request leaves, if it is there |
| `PendingRequests.PendingQueue.NextPass` | crates/client/src/v1_peer.rs:618-635 | takes the first unexpired request, or reports closed or empty |
| `PendingRequests.PendingQueue.Close` | crates/client/src/v1_peer.rs:637-645 | empties and closes the queue |
| `PendingRequests.NextIsOldest` | crates/client/src/v1_peer.rs:618-635 | everything that arrived before the returned request has expired |
| `PendingRequests.AdmittedExactly` | crates/client/src/v1_peer.rs:585-605 | over every run a request is admitted exactly if the queue was never closed, fewer than the capacity wait, none under its key, and fewer than the limit from its identity |
| `PendingRequests.EveryRunConserves` | crates/client/src/v1_peer.rs:556-676 | over every run each admitted request is still queued or left exactly once |
| `WakeUp.RunKeeps` | crates/client/src/v1_peer.rs:585-645 | what a single consumer relies on at every step |
| `WakeUp.NoLostWakeUp` | crates/client/src/v1_peer.rs:618-635 | one consumer never sleeps on an entry or a closed queue without a wake-up on its way |
| `WakeUp.TwoConsumersCanLose` | crates/client/src/v1_peer.rs:618-635 | for any two consumers, the run in which they lose one |
| `WakeUp.NeverLosesExactly` | crates/client/src/v1_peer.rs:585-645 | no run of a set of consumers loses a wake-up if and only if the set has at most one member |
| `WakeUp.EntriesAreCounted` | crates/client/src/v1_peer.rs:585-645 | over every run each inserted request is queued or has left, a closed queue is empty, and each expiry and closing is broadcast once |
| `Replay.ReplayCache.Insert` | crates/client/src/v1_peer.rs:1271-1300 | expired entries go, then the key is added or refused as replayed, full or over the identity's limit |
| `Replay.ReplayCache.Retain` | crates/client/src/v1_peer.rs:1272-1272 | exactly the entries that have not expired stay |
| `Replay.ReplayCache.CountIdentity` | crates/client/src/v1_peer.rs:1281-1287 | the exact number of entries of one identity |
| `Replay.ReplayCache.Remove` | crates/client/src/v1_peer.rs:1302-1304 | exactly that key goes |
| `Replay.LimitsHold` | crates/client/src/v1_peer.rs:1271-1300 | the total and per-identity limits hold in every run |
| `Replay.UndoKeepsExactly` | crates/client/src/v1_peer.rs:1302-1304 | an undo leaves every live reservation remembered if and only if no other live holder has the key it removes |
| `Replay.UndoReopensExactly` | crates/client/src/v1_peer.rs:1428-1431 | after an undo, a live holder passes the cache again at once if and only if its key is the removed one and there is room |
| `Replay.HeldOnceExactly` | crates/client/src/v1_peer.rs:1467-1479 | a step lets a Hello pass the cache twice if and only if it is a successful reservation, at or after its expiry, of a Hello that had passed |
| `Replay.AdmittedAgainExactly` | crates/client/src/v1_peer.rs:1467-1479 | after any interleaving with harmless undos, an admitted Hello passes the cache again exactly if it is reserved at or after its expiry, its key is free and the cache has room |
| `Replay.AdmittedAtMostOnce` | crates/client/src/v1_peer.rs:1372-1431 | in every interleaving of verify, reserve, enqueue and undo in which no undo takes another live holder's key and no holder is reserved again after its expiry, no Hello is admitted twice |
| `Replay.TimelyIsHarmless` | crates/client/src/v1_peer.rs:1428-1431 | undos before the expiry of their Hello are always harmless |
| `Replay.EveryAdmittedWasVerified` | crates/client/src/v1_peer.rs:1373-1396 | over every run each admitted Hello verified at a past reading and got its deadline before it expired |
| `Replay.AtomicAdmissionsOnce` | crates/client/src/v1_peer.rs:1372-1431 | with each admission at one clock reading no Hello is ever admitted twice |
| `Replay.StraddlingExpiryAdmitsTwice` | crates/client/src/v1_peer.rs:1392-1397 | for every verifiable Hello, the run that admits it twice |
| `Replay.LateUndoAdmitsTwice` | crates/client/src/v1_peer.rs:1428-1431 | for every two Hellos of one sender with one nonce, the run in which a late undo lets the second be admitted twice |
| `ActiveRecords.ActiveSet.Register` | crates/client/src/v1_peer.rs:908-921 | at most eight records; one leaves only if eight are live, and none of them expires sooner |
| `ActiveRecords.ActiveSet.Retain` | crates/client/src/v1_peer.rs:910-910 | exactly the records that have not expired stay |
| `ActiveRecords.ActiveSet.SoonestToExpire` | crates/client/src/v1_peer.rs:912-915 | a record with the least expiry |
| `ActiveRecords.ActiveSet.Lookup` | crates/client/src/v1_peer.rs:1363-1371 | finds a registered record exactly until it expires |
| `BrowserAuth.AuthState.Start` | crates/browser-wasm/src/lib.rs:203-215 | starts exactly from an idle, signed-out state, in a new epoch |
| `BrowserAuth.AuthState.Park` | crates/browser-wasm/src/lib.rs:255-271 | parks the flow, or only clears the flag if its epoch is past |
| `BrowserAuth.AuthState.Complete` | crates/browser-wasm/src/lib.rs:287-302 | takes the parked flow exactly if it is current |
| `BrowserAuth.AuthState.Install` | crates/browser-wasm/src/lib.rs:353-391 | installs all signed-in fields if the epoch is still the flow's, else nothing |
| `BrowserAuth.AuthState.CancelAuth` | crates/browser-wasm/src/lib.rs:401-418 | a new epoch, no parked flow, no abort handle |
| `BrowserAuth.AuthState.Drop` | crates/browser-wasm/src/lib.rs:897-909 | a new epoch, no parked flow, no abort handle; a flow in flight keeps its flag |
| `BrowserAuth.AuthState.StartRemoval` | crates/browser-wasm/src/lib.rs:529-542 | starts exactly if no flow or removal is under way and the identity is not active |
| `BrowserAuth.AuthState.FinishRemoval` | crates/browser-wasm/src/lib.rs:543-556 | clears the signed-in fields exactly if they are that identity's |
| `BrowserAuth.EveryInterleavingIsConsistent` | crates/browser-wasm/src/lib.rs:183-557 | over all interleavings: never busy and parked, a parked flow is current, no session beside a flow, no removal beside a flow, signed-in fields all or none |
| `BrowserAuth.SignedInIsJournaled` | crates/browser-wasm/src/lib.rs:381-391 | over every interleaving the signed-in fields show the last installation, unless that identity was removed since |
| `BrowserAuth.RemovalSignsOut` | crates/browser-wasm/src/lib.rs:543-555 | after an identity is removed it is not signed in until it is installed again |
| `BrowserAuth.RemovalSpares` | crates/browser-wasm/src/lib.rs:543-556 | a failed removal and one of another identity leave every signed-in field |
| `BrowserAuth.EveryInstallationIsOwn` | crates/browser-wasm/src/lib.rs:384-389 | what is installed is the key and client the flow was parked with and the identity it expected, or what it was restored for |
| `BrowserAuth.FlowStartsExactly` | crates/browser-wasm/src/lib.rs:203-215 | a flow starts exactly if nobody is signed in, none is in flight or parked and no removal is under way |
| `BrowserAuth.FlowParksExactly` | crates/browser-wasm/src/lib.rs:255-271 | a flow is parked exactly if nothing was cancelled since it began |
| `BrowserAuth.InstallsExactly` | crates/browser-wasm/src/lib.rs:353-391 | a flow is installed exactly if nothing was cancelled since it began and the session is of the identity it expects |
| `BrowserAuth.AbortHandleIsExact` | crates/browser-wasm/src/lib.rs:401-414 | there is an abort handle exactly while a completing or restoring flow is in flight that nothing has cancelled |
| `BrowserAuth.RemovalStartsExactly` | crates/browser-wasm/src/lib.rs:531-542 | a removal starts exactly if no flow or removal is under way or parked and it is not of oneself while online |
| `BrowserAuth.NoSessionAfterCancel` | crates/browser-wasm/src/lib.rs:285-418 | a session is installed only if nothing was cancelled since its flow began |
| `BrowserNetwork.NetworkState.StartGoingOnline` | crates/browser-wasm/src/lib.rs:665-689 | starts exactly if offline and not already going online, in a new epoch |
| `BrowserNetwork.NetworkState.FinishGoingOnline` | crates/browser-wasm/src/lib.rs:742-753 | installs the endpoint if the epoch is current, else nothing |
| `BrowserNetwork.NetworkState.StartDial` | crates/browser-wasm/src/lib.rs:789-806 | starts exactly if online, not oneself, not connected, not dialling and within the limit |
| `BrowserNetwork.NetworkState.Activate` | crates/browser-wasm/src/lib.rs:1143-1154 | adds the peer exactly if the epoch is current, online, new and within the limit |
| `BrowserNetwork.NetworkState.Arrive` | crates/browser-wasm/src/lib.rs:938-964 | queues the request exactly if current, online and within both limits |
| `BrowserNetwork.NetworkState.LosePeer` | crates/browser-wasm/src/lib.rs:1220-1234 | the peer leaves only in its own epoch and only if it is that session |
| `BrowserNetwork.NetworkState.FailEndpoint` | crates/browser-wasm/src/lib.rs:1080-1099 | takes the endpoint down if the epoch is current |
| `BrowserNetwork.NetworkState.Shutdown` | crates/browser-wasm/src/lib.rs:1244-1262 | takes everything of the endpoint down, in a new epoch |
| `BrowserNetwork.EveryInterleavingIsBounded` | crates/browser-wasm/src/lib.rs:654-846 | over all interleavings: without an endpoint nothing of one, an endpoint excludes going online, at most 16 peers, 16 requests and 2 per identity |
| `BrowserNetwork.EveryRequestIsAccountedFor` | crates/browser-wasm/src/lib.rs:826-859 | over every run each queued request is still pending under its identity, or was answered or timed out once and never both, or went down with its endpoint; no id is queued twice |
| `BrowserNetwork.PendingWasQueued` | crates/browser-wasm/src/lib.rs:938-964 | only requests that were queued are pending |
| `BrowserNetwork.EveryPeerIsAccountedFor` | crates/browser-wasm/src/lib.rs:1126-1236 | over every run a session is connected if and only if it joined and was neither lost nor taken down since; the endpoint that is up is the last one published |
| `BrowserNetwork.DialStartsExactly` | crates/browser-wasm/src/lib.rs:787-806 | a dial starts exactly if online, to someone else, not connected, not being dialled, with fewer than 16 connected or dialled |
| `BrowserNetwork.SetupStartsExactly` | crates/browser-wasm/src/lib.rs:665-689 | an endpoint is set up exactly if allowed, none is up and no setup of this epoch is in flight |
| `BrowserNetwork.DialingIsExact` | crates/browser-wasm/src/lib.rs:787-822 | `dialing` is exactly the dials in flight of the current epoch |
| `BrowserNetwork.StaleContinuationsAreInert` | crates/browser-wasm/src/lib.rs:924-1275 | a continuation from another epoch changes nothing |
| `BrowserNetwork.SupersededNeverActs` | crates/browser-wasm/src/lib.rs:924-1275 | once superseded, an operation never changes the network state again in any continuation of the run |
| `DevicePreparation.InvalidExactly` | crates/browser-wasm/src/lib.rs:600-621 | a stored device is called invalid if and only if it never verified or was issued beyond the clock skew |
| `DevicePreparation.OnceValidNeverInvalid` | crates/browser-wasm/src/lib.rs:600-621 | a once-valid device at or after its issue time is reused, rotated or refused only because the network is active |
| `DevicePreparation.PrepareExactly` | crates/browser-wasm/src/lib.rs:581-627 | every decision of `prepare_device` and exactly when it is taken |
| `DevicePreparation.LocatorLifetimeExact` | crates/browser-wasm/src/lib.rs:1494-1507 | the locator lifetime is the longest up to 900 seconds that ends before the certificate |
| `DevicePreparation.ReusePublishes` | crates/browser-wasm/src/lib.rs:1494-1507 | a reused device has a full locator lifetime, signs a locator if and only if its certificate is not from the future, and that locator verifies for its whole life |
| `DevicePreparation.IssueExact` | crates/browser-wasm/src/lib.rs:1296-1337 | issuing succeeds exactly for fresh, distinct keys under a current Grant; the device carries, field by field, the prescribed claims and secrets, and verifies until its expiry |
| `DialOrder.CheckListing` | crates/client/src/v1_discovery.rs:213-233 | the listing loop accepts exactly at most eight distinct valid entries of the identity |
| `DialOrder.FetchAll` | crates/client/src/v1_discovery.rs:236-251 | the fetching loop returns every device in order exactly if all are there and fit the byte limit |
| `DialOrder.SortOrders` | crates/client/src/v1_discovery.rs:252-265 | a stable sort by key of a path-sorted list is lexicographic in (device id, control key, path) |
| `DialOrder.OrderedUnique` | crates/client/src/v1_peer.rs:971-984 | there is one such list of the same devices |
| `DialOrder.DialOrderIsCanonical` | crates/client/src/v1_peer.rs:971-993 | the candidates depend only on the published records: same for every listing and hash-map order and for both resolvers |
| `DialOrder.NoneLeftUntried` | crates/client/src/v1_peer.rs:985-993 | with at most eight published devices, exactly the wanted ones are candidates |
| `DialOrder.AtMostEightAreTried` | crates/client/src/v1_peer.rs:985-993 | at most eight devices are tried, the first of those wanted |

## Left out

- Cryptography and encodings: Ed25519, hashing, canonical JSON and base64 are symbolic or parameters; so two encodings of
  one object, or a second valid signature on the same payload, do not exist in the model.
- Key texts are checked by length and alphabet only; that a text decodes to a curve point, and the two values its last
  character can take, are not modelled.
- Text validators for relay URLs, device ids, client ids and application names, and capability coverage, are booleans the
  objects carry or functions of the policy.
- Error codes: which of several failing checks reports first is not specified, except where a theorem names the error.
- Timeouts, cancellation by timeout and connection loss appear only as the possibility that a session or call fails.
- QUIC, relays, path selection, peer message I/O and `V1Client::bind` are not part of this model.
- HTTP, PKARR and homeserver clients: storage is a map, as in the static resolver; best-effort deletes after failures are
  arbitrary erasures.
- Records signed through `current_record` with a sequence the caller chose: `Publication` signs only numbers that a store
  handed out, as `next_record` does.
- File permissions, symbolic links and inode checks of the native store; JSON parsing of its file.
- Identity records, encryption keys and sealing in the browser database; the identity check that precedes the deleting
  transaction of `__p2pRemoveIdentity`.
- Non-object and wrongly typed JavaScript inputs to the browser's store.
- 64-bit wrap-around of epochs and request ids in the browser core.
- Sending chat messages, events and summaries of the browser core; the `device` field, which `prepare_device` sets without
  looking at the epoch, is not among the all-or-none fields.
- BrowserRefinement.BatchRefines: compares a native store with a browser database of one account, because the browser's entry
  limit counts the records of all accounts together.
- DialOrder.DialOrderIsCanonical: says nothing about runs in which the homeserver resolver refuses the listing for its
  aggregate byte limit, which the static resolver does not have.
