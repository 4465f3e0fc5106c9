/**
  From publisher to observer (crates/client/src/v1_peer.rs, `current_record` and `next_record`;
  crates/client/src/v1_discovery.rs, `record_observation` and `commit_remote_record`).

  Any number of honest devices allocate sequences from their own file stores and sign records with
  them; any number of file stores commit records that verify. Every store goes through the system
  calls of `FileStore`, with failures and crashes anywhere. A locator signed by an honest device's
  control key is one that the device signed.
*/
module Publication {
  import opened Base
  import opened SequenceKeys
  import opened Collections
  import S = Sequences
  import T = SequenceTheorems
  import F = FileStore
  import opened Wire
  import opened WireTheorems
  import opened Authority

  type StoreId = int

  /** An honest device, and the store it allocates its sequences from. */
  datatype Device = Device(credential: Credential, home: StoreId)

  /** Honest devices by control key, the digest function, and the size of an encoded state. */
  datatype World = World(
    devices: map<string, Device>, hash: Record -> S.Digest32, bytes: S.SequenceState -> nat, policy: Policy)

  /** A sequence number handed to a device and not yet used. */
  datatype Slot = Slot(control: string, number: u64)

  datatype Commit = Commit(store: StoreId, key: string, sequence: u64, digest: S.Digest32)

  datatype Net = Net(disks: map<StoreId, F.Disk>, pending: set<Slot>, signed: seq<Record>, commits: seq<Commit>)

  predicate WorldOk(w: World) {
    && w.bytes(map[]) <= S.MAX_STATE_BYTES
    && (forall c | c in w.devices ::
          && w.devices[c].credential.certificate.claims.controlKey == c
          && PublisherKey(OwnerOf(w, c), c).Some?)
  }

  function OwnerOf(w: World, control: string): string
    requires control in w.devices
  {
    w.devices[control].credential.certificate.claims.identity
  }

  function Control(r: Record): string {
    r.certificate.claims.controlKey
  }

  function Identity(r: Record): string {
    r.certificate.claims.identity
  }

  /** `record_observation`. */
  function Observation(w: World, r: Record): S.Observation {
    S.Observation(Identity(r), LOCATOR_PREFIX + Control(r), r.locator.claims.sequence, w.hash(r))
  }

  function LocatorKey(identity: string, control: string): Option<string> {
    StateKey(identity, LOCATOR_PREFIX + control)
  }

  function DiskOf(n: Net, s: StoreId): F.Disk {
    if s in n.disks then n.disks[s] else F.EMPTY_DISK
  }

  /** What reading the store's file returns now. */
  function Visible(n: Net, s: StoreId): S.SequenceState {
    F.Visible(DiskOf(n, s)).values
  }

  /** `current_record` at clock reading `now`. */
  function CurrentRecord(
    d: Credential, relays: seq<RelayUrl>, nonce: Base64Text, sequence: u64, now: u64, lifetime: u64, p: Policy)
    : Option<Record>
  {
    if lifetime == 0 || lifetime > MAX_LOCATOR_LIFETIME || now + lifetime > U64_MAX then None else
    var locator := SignLocator(d, relays, nonce, sequence, now, now + lifetime, p);
    if locator.None? then None else
    var record := Record(d.authorization, d.certificate, locator.value);
    if RecordVerify(record, d.certificate.claims.identity, now, p, None) then Some(record) else None
  }

  /** What `commit_remote_record` makes of a verified record. */
  function Committed(w: World, values: S.SequenceState, r: Record): Result<S.SequenceState, S.Error> {
    var key := LocatorKey(Identity(r), Control(r));
    if key.None? then Err(S.InvalidKey) else
    var next := S.RecordValue(values, key.value, S.Value(r.locator.claims.sequence, w.hash(r)));
    if next.Err? then next
    else if w.bytes(next.value) > S.MAX_STATE_BYTES then Err(S.ByteLimit)
    else next
  }

  /** Unforgeability: what carries an honest device's signature was signed by that device. */
  predicate Genuine(w: World, n: Net, r: Record) {
    Control(r) in w.devices ==> exists i :: 0 <= i < |n.signed| && n.signed[i].locator.claims == r.locator.claims
  }

  datatype Event =
    | Lock(store: StoreId, instance: F.Instance, op: S.Operation)
    | Observe(store: StoreId, instance: F.Instance, record: Record, now: u64)
    | OnDisk(store: StoreId, step: F.Event)
    | Sign(slot: Slot, relays: seq<RelayUrl>, nonce: Base64Text, now: u64, lifetime: u64)

  /** The numbers that a returning call hands to an honest device of this store. */
  function HandedSlots(w: World, s: StoreId, op: S.Operation, next: S.Outcome): set<Slot> {
    if && op.Allocate? && next.number.Some?
       && op.control in w.devices && w.devices[op.control].home == s && OwnerOf(w, op.control) == op.identity
    then {Slot(op.control, next.number.value)}
    else {}
  }

  function HandedCommits(s: StoreId, op: S.Operation): seq<Commit> {
    if op.RecordBatch? && |op.batch| == 1 && StateKey(op.batch[0].identity, op.batch[0].scope).Some?
    then [Commit(s, S.KeyOf(op.batch[0]), op.batch[0].counter, op.batch[0].digest)]
    else []
  }

  /** The store takes one step; a call that returns hands over its number or its commit. */
  ghost function DiskStep(w: World, n: Net, s: StoreId, e: F.Event): Option<Net> {
    var d := DiskOf(n, s);
    var t := F.Apply(d, e, w.bytes);
    if t.None? then None else
    var m := n.(disks := n.disks[s := t.value]);
    if !e.Return? then Some(m) else
    var call := d.calls[e.instance];
    Some(m.(pending := n.pending + HandedSlots(w, s, call.op, call.next),
            commits := n.commits + HandedCommits(s, call.op)))
  }

  /** One step, or `None` if it cannot be taken. A number whose signing fails is gone. */
  ghost function Apply(w: World, n: Net, e: Event): Option<Net> {
    match e
    case Lock(s, i, op) => if op.RecordBatch? then None else DiskStep(w, n, s, F.Lock(i, op))
    case Observe(s, i, r, now) =>
      if !RecordVerify(r, Identity(r), now, w.policy, None) || !Genuine(w, n, r) then None else
      DiskStep(w, n, s, F.Lock(i, S.RecordBatch([Observation(w, r)])))
    case OnDisk(s, step) => if step.Lock? then None else DiskStep(w, n, s, step)
    case Sign(slot, relays, nonce, now, lifetime) =>
      if slot.control !in w.devices || slot !in n.pending then None else
      var r := CurrentRecord(w.devices[slot.control].credential, relays, nonce, slot.number, now, lifetime, w.policy);
      Some(n.(pending := n.pending - {slot}, signed := if r.Some? then n.signed + [r.value] else n.signed))
  }

  ghost function Execute(w: World, events: seq<Event>): Option<Net>
    decreases |events|
  {
    if events == [] then Some(Net(map[], {}, [], [])) else
    var before := Execute(w, events[..|events| - 1]);
    if before.None? then None else Apply(w, before.value, events[|events| - 1])
  }

  /** Committing one record is `record_batch` of its one observation. */
  lemma CommitIsBatch(w: World, values: S.SequenceState, r: Record)
    requires |values| <= S.MAX_ENTRIES
    ensures var batch := S.Recorded(values, [Observation(w, r)], w.bytes);
            && (Committed(w, values, r).Ok? <==> batch.Some?)
            && (batch.Some? ==> batch.value == Committed(w, values, r).value)
  {
    hide StateKey;
    var o := Observation(w, r);
    var key := LocatorKey(Identity(r), Control(r));
    LocatorScope(Control(r));
    if key.Some? {
      var v := S.ValueOf(o);
      PreparedOne(o);
      OverlayOne(values, key.value, v);
      S.RecordValueExact(values, key.value, v);
      InsertSize(values, key.value, S.Authenticated(v.counter, v.digest));
    } else {
      assert [o][0] == o;
    }
  }

  lemma PreparedOne(o: S.Observation)
    requires StateKey(o.identity, o.scope).Some? && !Reserved(o.scope)
    ensures S.WellFormed([o]) && S.Consistent([o]) && S.Prepared([o]) == map[S.KeyOf(o) := S.ValueOf(o)]
  {
    hide StateKey, Reserved;
    assert [o][..0] == [];
  }

  lemma OverlayOne(values: S.SequenceState, key: string, v: S.Value)
    ensures S.Overlay(values, map[key := v]) == values[key := S.Authenticated(v.counter, v.digest)]
  {
  }

  lemma LocatorScope(control: string)
    ensures !Reserved(LOCATOR_PREFIX + control)
  {
    assert (LOCATOR_PREFIX + control)[3] == 'l';
  }

  /** A locator key says whose it is. */
  lemma LocatorKeyNames(identity: string, control: string, identity': string, control': string)
    requires LocatorKey(identity, control).Some?
    requires LocatorKey(identity, control) == LocatorKey(identity', control')
    ensures identity == identity' && control == control'
  {
    StateKeyInjective(identity, LOCATOR_PREFIX + control, identity', LOCATOR_PREFIX + control');
    assert control == (LOCATOR_PREFIX + control)[|LOCATOR_PREFIX|..];
    assert control' == (LOCATOR_PREFIX + control')[|LOCATOR_PREFIX|..];
  }

  // ---------------------------------------------------------------- the invariant

  function CounterKey(w: World, control: string): string
    requires WorldOk(w) && control in w.devices
  {
    PublisherKey(OwnerOf(w, control), control).value
  }

  /** The number was handed out by the device's own counter. */
  predicate HandedOut(w: World, n: Net, control: string, number: u64)
    requires WorldOk(w)
  {
    && control in w.devices
    && F.Handed(CounterKey(w, control), number) in DiskOf(n, w.devices[control].home).handed
  }

  predicate SignedOk(w: World, n: Net, r: Record)
    requires WorldOk(w)
  {
    && HandedOut(w, n, Control(r), r.locator.claims.sequence)
    && OwnRecord(w.devices[Control(r)].credential, r)
    && Slot(Control(r), r.locator.claims.sequence) !in n.pending
    && BoundLocator(r)
  }

  /** The parts of a verified record that its locator determines. */
  predicate BoundLocator(r: Record) {
    && r.locator.claims.grantDigest == GrantDigest(r.authorization)
    && r.locator.claims.certificateDigest == CertificateDigest(r.certificate)
    && r.locator.signature == Signed(Control(r), LocatorPayload(r.locator.claims))
  }

  /** At most one record per (control key, sequence). */
  predicate OneRecordPerSequence(signed: seq<Record>) {
    forall i, j :: 0 <= i < j < |signed| && Control(signed[i]) == Control(signed[j])
                   ==> signed[i].locator.claims.sequence != signed[j].locator.claims.sequence
  }

  /** The counter and digest are those of a record that the device signed. */
  predicate SignedAs(w: World, signed: seq<Record>, control: string, counter: u64, digest: S.Digest32) {
    exists i :: && 0 <= i < |signed|
                && Control(signed[i]) == control
                && signed[i].locator.claims.sequence == counter
                && w.hash(signed[i]) == digest
  }

  /** What a map holds about an honest device is a record that device signed. */
  predicate EntryGenuine(w: World, signed: seq<Record>, values: S.SequenceState, control: string)
    requires control in w.devices
  {
    var key := LocatorKey(OwnerOf(w, control), control);
    key.Some? && key.value in values ==>
      && values[key.value].Authenticated?
      && SignedAs(w, signed, control, values[key.value].counter, values[key.value].digest)
  }

  /** A call records one observation, and one about an honest device only of what that device signed. */
  predicate OpGenuine(w: World, signed: seq<Record>, op: S.Operation, control: string)
    requires control in w.devices
  {
    op.RecordBatch? ==>
      && |op.batch| == 1
      && (StateKey(op.batch[0].identity, op.batch[0].scope) == LocatorKey(OwnerOf(w, control), control) ==>
            SignedAs(w, signed, control, op.batch[0].counter, op.batch[0].digest))
  }

  /** Every map on the medium, and every map about to be written, holds only genuine entries. */
  ghost predicate DiskGenuine(w: World, signed: seq<Record>, d: F.Disk, control: string)
    requires control in w.devices
  {
    && (forall k :: 0 <= k < |F.Candidates(d)| ==> EntryGenuine(w, signed, F.Candidates(d)[k].values, control))
    && (forall i | i in d.calls :: CallGenuine(w, signed, d.calls[i], control))
  }

  ghost predicate CallGenuine(w: World, signed: seq<Record>, call: F.Call, control: string)
    requires control in w.devices
  {
    && OpGenuine(w, signed, call.op, control)
    && (!call.Locked? ==> EntryGenuine(w, signed, call.next.state, control))
    && (call.TempWritten? || call.TempSynced? ==> call.temp.values == call.next.state)
  }

  /** A commit that returned is still on the durable medium, at its counter or above. */
  predicate CommitRemembered(n: Net, c: Commit) {
    var values := DiskOf(n, c.store).durable.values;
    && c.key in values
    && values[c.key].Authenticated?
    && c.sequence <= values[c.key].counter
    && (c.sequence == values[c.key].counter ==> c.digest == values[c.key].digest)
  }

  /** In one store, sequences of one device never decrease and none has two digests. */
  predicate CommitsClimb(commits: seq<Commit>) {
    forall i, j :: 0 <= i < j < |commits| && commits[i].store == commits[j].store && commits[i].key == commits[j].key
                   ==> && commits[i].sequence <= commits[j].sequence
                       && (commits[i].sequence == commits[j].sequence ==> commits[i].digest == commits[j].digest)
  }

  ghost predicate Inv(w: World, n: Net)
    requires WorldOk(w)
  {
    && (forall s | s in n.disks :: F.Inv(n.disks[s], w.bytes))
    && (forall slot | slot in n.pending :: HandedOut(w, n, slot.control, slot.number))
    && (forall i :: 0 <= i < |n.signed| ==> SignedOk(w, n, n.signed[i]))
    && OneRecordPerSequence(n.signed)
    && (forall s, c | s in n.disks && c in w.devices :: DiskGenuine(w, n.signed, n.disks[s], c))
    && (forall i :: 0 <= i < |n.commits| ==> CommitRemembered(n, n.commits[i]))
    && CommitsClimb(n.commits)
  }

  /** A store never touched yet is an empty disk, which is as good as any. */
  lemma DiskOk(w: World, n: Net, s: StoreId)
    requires WorldOk(w) && Inv(w, n)
    ensures F.Inv(DiskOf(n, s), w.bytes)
    ensures forall c | c in w.devices :: DiskGenuine(w, n.signed, DiskOf(n, s), c)
  {
    hide HandedOut, SignedOk, CommitRemembered, OneRecordPerSequence, CommitsClimb, F.Inv;
    if s !in n.disks {
      F.RunKeeps([], w.bytes);
    }
  }

  /** A verified record that carries an honest device's locator is the very record that device signed. */
  lemma GenuineIsSigned(w: World, n: Net, r: Record, now: u64) returns (i: int)
    requires WorldOk(w) && Inv(w, n)
    requires RecordVerify(r, Identity(r), now, w.policy, None) && Genuine(w, n, r) && Control(r) in w.devices
    ensures 0 <= i < |n.signed| && n.signed[i] == r
  {
    hide HandedOut, DiskGenuine, CommitRemembered, OneRecordPerSequence, CommitsClimb, F.Inv;
    i :| 0 <= i < |n.signed| && n.signed[i].locator.claims == r.locator.claims;
    assert SignedOk(w, n, n.signed[i]);
    VerifiedIsBound(r, now, w.policy);
  }

  lemma VerifiedIsBound(r: Record, now: u64, p: Policy)
    requires RecordVerify(r, Identity(r), now, p, None)
    ensures BoundLocator(r)
  {
    hide RecordVerify;
    RecordExactly(r, Identity(r), now, p, None);
  }

  // ---------------------------------------------------------------- what a call writes is genuine

  /** Counters and locator floors have different keys. */
  lemma CounterLeavesFloors(
    values: S.SequenceState, op: S.Operation, bytes: S.SequenceState -> nat, identity: string, control: string)
    requires op.Initialize? || op.Allocate?
    requires S.Updated(values, op, bytes).Ok? && LocatorKey(identity, control).Some?
    ensures var key, next := LocatorKey(identity, control).value, S.Updated(values, op, bytes).value.state;
            (key in next <==> key in values) && (key in next ==> next[key] == values[key])
  {
    hide StateKey, PublisherKey, S.Recorded;
    LocatorScope(control);
    PublisherKeysApart(op.identity, op.control, identity, LOCATOR_PREFIX + control);
  }

  /** Recording one observation sets one entry. */
  lemma RecordedOne(values: S.SequenceState, o: S.Observation, bytes: S.SequenceState -> nat, next: S.Outcome)
    requires S.Updated(values, S.RecordBatch([o]), bytes) == Ok(next)
    ensures StateKey(o.identity, o.scope).Some?
    ensures next.state == values[S.KeyOf(o) := S.Authenticated(o.counter, o.digest)]
  {
    hide StateKey, Reserved;
    assert [o][0] == o;
    PreparedOne(o);
    OverlayOne(values, S.KeyOf(o), S.ValueOf(o));
  }

  lemma UpdatedGenuine(
    w: World, signed: seq<Record>, values: S.SequenceState, op: S.Operation, next: S.Outcome, control: string)
    requires control in w.devices && EntryGenuine(w, signed, values, control) && OpGenuine(w, signed, op, control)
    requires S.Updated(values, op, w.bytes) == Ok(next)
    ensures EntryGenuine(w, signed, next.state, control)
  {
    hide LocatorKey, SignedAs, S.Updated;
    var key := LocatorKey(OwnerOf(w, control), control);
    if op.RecordBatch? {
      assert op.batch == [op.batch[0]];
      RecordedOne(values, op.batch[0], w.bytes, next);
    } else if key.Some? {
      CounterLeavesFloors(values, op, w.bytes, OwnerOf(w, control), control);
    }
  }

  lemma StageGenuine(w: World, signed: seq<Record>, d: F.Disk, i: F.Instance, control: string)
    requires control in w.devices && DiskGenuine(w, signed, d, control)
    requires F.Apply(d, F.Stage(i), w.bytes).Some?
    ensures DiskGenuine(w, signed, F.Apply(d, F.Stage(i), w.bytes).value, control)
  {
    hide EntryGenuine, OpGenuine, S.Updated, T.Readable;
    var next := S.Updated(F.Visible(d).values, d.calls[i].op, w.bytes);
    if next.Ok? { UpdatedGenuine(w, signed, F.Visible(d).values, d.calls[i].op, next.value, control); }
  }

  /** Every system call, failure and crash keeps a disk genuine. */
  lemma StepGenuine(w: World, signed: seq<Record>, d: F.Disk, e: F.Event, control: string)
    requires control in w.devices && DiskGenuine(w, signed, d, control)
    requires F.Apply(d, e, w.bytes).Some? && (e.Lock? ==> OpGenuine(w, signed, e.op, control))
    ensures DiskGenuine(w, signed, F.Apply(d, e, w.bytes).value, control)
  {
    hide EntryGenuine, OpGenuine, S.Updated, T.Readable, F.Handing, T.ValidOperation;
    if e.Stage? {
      StageGenuine(w, signed, d, e.instance, control);
    } else {
      var t := F.Apply(d, e, w.bytes).value;
      forall k | 0 <= k < |F.Candidates(t)| ensures EntryGenuine(w, signed, F.Candidates(t)[k].values, control) {
        if e.Rename? {
          assert F.Candidates(t) == F.Candidates(d) + [d.calls[e.instance].temp];
          assert CallGenuine(w, signed, d.calls[e.instance], control);
        } else if e.Crash? || e.SyncDirectory? {
          var j := if e.Crash? then e.survivor else |F.Candidates(d)| - 1;
          assert F.Candidates(t)[k] == F.Candidates(d)[j];
        } else {
          assert F.Candidates(t)[k] == F.Candidates(d)[k];
        }
      }
      forall i | i in t.calls ensures CallGenuine(w, signed, t.calls[i], control) {
        if i in d.calls { assert CallGenuine(w, signed, d.calls[i], control); }
      }
    }
  }

  /** More signed records make no entry less genuine. */
  lemma MoreSigned(w: World, signed: seq<Record>, more: seq<Record>, d: F.Disk, control: string)
    requires control in w.devices && DiskGenuine(w, signed, d, control)
    ensures DiskGenuine(w, signed + more, d, control)
  {
    hide LocatorKey, StateKey;
    forall counter, digest | SignedAs(w, signed, control, counter, digest)
      ensures SignedAs(w, signed + more, control, counter, digest)
    {
      var i :| && 0 <= i < |signed| && Control(signed[i]) == control
               && signed[i].locator.claims.sequence == counter && w.hash(signed[i]) == digest;
      assert (signed + more)[i] == signed[i];
    }
  }

  /** The durable map only climbs, and what was handed out stays handed out. */
  lemma StepClimbs(d: F.Disk, e: F.Event, bytes: S.SequenceState -> nat)
    requires F.Inv(d, bytes) && F.Apply(d, e, bytes).Some?
    ensures var t := F.Apply(d, e, bytes).value;
            && T.Above(d.durable.values, t.durable.values)
            && (forall h | h in d.handed :: h in t.handed)
            && (!e.Return? ==> t.handed == d.handed)
  {
    hide S.Updated, T.Readable, T.Above, F.Handing, T.ValidOperation, F.HandedOk, F.CallOk;
    F.AboveReflexive(d.durable.values);
    assert F.Candidates(d)[0] == d.durable;
  }

  // ---------------------------------------------------------------- each step

  lemma DisksKeep(w: World, n: Net, s: StoreId, e: F.Event)
    requires WorldOk(w) && Inv(w, n) && DiskStep(w, n, s, e).Some?
    requires e.Lock? ==> forall c | c in w.devices :: OpGenuine(w, n.signed, e.op, c)
    ensures var t := DiskStep(w, n, s, e).value;
            && (forall x | x in t.disks :: F.Inv(t.disks[x], w.bytes))
            && (forall x, c | x in t.disks && c in w.devices :: DiskGenuine(w, t.signed, t.disks[x], c))
  {
    hide HandedOut, SignedOk, CommitRemembered, OneRecordPerSequence, CommitsClimb, F.Inv, F.Apply, DiskGenuine,
      OpGenuine, HandedSlots, HandedCommits;
    var t := DiskStep(w, n, s, e).value;
    DiskOk(w, n, s);
    F.ApplyKeeps(DiskOf(n, s), e, w.bytes);
    forall x, c | x in t.disks && c in w.devices ensures DiskGenuine(w, t.signed, t.disks[x], c) {
      if x == s { StepGenuine(w, n.signed, DiskOf(n, s), e, c); }
    }
  }

  lemma HandedStays(w: World, n: Net, s: StoreId, d: F.Disk, control: string, number: u64)
    requires WorldOk(w) && HandedOut(w, n, control, number)
    requires forall h | h in DiskOf(n, s).handed :: h in d.handed
    ensures HandedOut(w, n.(disks := n.disks[s := d]), control, number)
  {
  }

  lemma CommitStays(n: Net, s: StoreId, d: F.Disk, c: Commit)
    requires CommitRemembered(n, c) && T.Above(DiskOf(n, s).durable.values, d.durable.values)
    ensures CommitRemembered(n.(disks := n.disks[s := d]), c)
  {
  }

  /** A step of a disk that hands nothing over. */
  lemma QuietKeeps(w: World, n: Net, s: StoreId, e: F.Event)
    requires WorldOk(w) && Inv(w, n) && DiskStep(w, n, s, e).Some? && !e.Return?
    requires e.Lock? ==> forall c | c in w.devices :: OpGenuine(w, n.signed, e.op, c)
    ensures Inv(w, DiskStep(w, n, s, e).value)
  {
    hide HandedOut, CommitRemembered, OneRecordPerSequence, CommitsClimb, F.Inv, F.Apply, DiskGenuine, OpGenuine,
      HandedSlots, HandedCommits, OwnRecord, BoundLocator, T.Above, WorldOk;
    DisksKeep(w, n, s, e);
    ClimbKeeps(w, n, s, e);
  }

  /** Whatever a disk does, numbers and commits are not forgotten. */
  lemma ClimbKeeps(w: World, n: Net, s: StoreId, e: F.Event)
    requires WorldOk(w) && Inv(w, n) && F.Apply(DiskOf(n, s), e, w.bytes).Some?
    ensures var t := n.(disks := n.disks[s := F.Apply(DiskOf(n, s), e, w.bytes).value]);
            && (forall slot | slot in t.pending :: HandedOut(w, t, slot.control, slot.number))
            && (forall i :: 0 <= i < |t.signed| ==> SignedOk(w, t, t.signed[i]))
            && (forall i :: 0 <= i < |t.commits| ==> CommitRemembered(t, t.commits[i]))
  {
    hide HandedOut, CommitRemembered, OneRecordPerSequence, CommitsClimb, F.Inv, F.Apply, DiskGenuine, T.Above,
      OwnRecord, BoundLocator, WorldOk;
    DiskOk(w, n, s);
    StepClimbs(DiskOf(n, s), e, w.bytes);
    var d := F.Apply(DiskOf(n, s), e, w.bytes).value;
    var t := n.(disks := n.disks[s := d]);
    forall slot | slot in t.pending ensures HandedOut(w, t, slot.control, slot.number) {
      HandedStays(w, n, s, d, slot.control, slot.number);
    }
    forall i | 0 <= i < |t.signed| ensures SignedOk(w, t, t.signed[i]) {
      assert SignedOk(w, n, n.signed[i]);
      HandedStays(w, n, s, d, Control(n.signed[i]), n.signed[i].locator.claims.sequence);
    }
    forall i | 0 <= i < |t.commits| ensures CommitRemembered(t, t.commits[i]) {
      CommitStays(n, s, d, n.commits[i]);
    }
  }

  /** The number a returning allocation hands out is above every number that key had. */
  lemma NewNumber(d: F.Disk, i: F.Instance, bytes: S.SequenceState -> nat)
    requires F.Inv(d, bytes) && F.Apply(d, F.Return(i), bytes).Some?
    ensures var call := d.calls[i];
            var t := F.Apply(d, F.Return(i), bytes).value;
            forall h | h in F.Handing(call.op, call.next) ::
              h in t.handed && forall g | g in d.handed && g.key == h.key :: g.number < h.number
  {
    hide S.Updated, T.Readable, T.Above, T.ValidOperation, F.ChainOk, F.HandedOk, F.Climbs, F.Handing;
    assert F.CallOk(d, d.calls[i], bytes);
  }

  lemma SlotIsHanded(w: World, s: StoreId, op: S.Operation, next: S.Outcome, slot: Slot)
    requires WorldOk(w) && slot in HandedSlots(w, s, op, next)
    ensures slot.control in w.devices && w.devices[slot.control].home == s
    ensures F.Handed(CounterKey(w, slot.control), slot.number) in F.Handing(op, next)
  {
    hide PublisherKey;
  }

  /** What a returning commit recorded is what the durable map now says. */
  lemma CommitIsDurable(d: F.Disk, i: F.Instance, bytes: S.SequenceState -> nat, s: StoreId, c: Commit)
    requires F.Inv(d, bytes) && F.Apply(d, F.Return(i), bytes).Some? && c in HandedCommits(s, d.calls[i].op)
    ensures c.store == s && c.key in d.durable.values
    ensures d.durable.values[c.key] == S.Authenticated(c.sequence, c.digest)
  {
    hide S.Updated, T.Readable, T.Above, T.ValidOperation, F.ChainOk, F.HandedOk, F.Climbs, F.Handing, StateKey;
    var call := d.calls[i];
    assert F.CallOk(d, call, bytes);
    assert F.Candidates(d)[0] == d.durable;
    assert call.op.batch == [call.op.batch[0]];
    HasBase(call.base);
    RecordedOne(F.Last(call.base).values, call.op.batch[0], bytes, call.next);
  }

  lemma HasBase(base: seq<F.Version>)
    requires F.Climbs(base)
    ensures base != []
  {
  }

  lemma ReturnSlots(w: World, n: Net, s: StoreId, i: F.Instance)
    requires WorldOk(w) && Inv(w, n) && DiskStep(w, n, s, F.Return(i)).Some?
    ensures var t := DiskStep(w, n, s, F.Return(i)).value;
            && (forall slot | slot in t.pending :: HandedOut(w, t, slot.control, slot.number))
            && (forall k :: 0 <= k < |t.signed| ==> SignedOk(w, t, t.signed[k]))
  {
    hide CommitRemembered, OneRecordPerSequence, CommitsClimb, F.Inv, F.Apply, DiskGenuine, OwnRecord, BoundLocator,
      HandedSlots, HandedCommits, F.Handing, PublisherKey;
    var d := DiskOf(n, s);
    var t := DiskStep(w, n, s, F.Return(i)).value;
    var call := ReturningCall(d, i, w.bytes);
    DiskOk(w, n, s);
    ClimbKeeps(w, n, s, F.Return(i));
    NewNumber(d, i, w.bytes);
    var u := n.(disks := t.disks);
    forall slot | slot in t.pending ensures HandedOut(w, t, slot.control, slot.number) {
      if slot in n.pending {
        assert HandedOut(w, u, slot.control, slot.number);
      } else {
        SlotIsHanded(w, s, call.op, call.next, slot);
      }
    }
    forall k | 0 <= k < |t.signed| ensures SignedOk(w, t, t.signed[k]) {
      var r := n.signed[k];
      assert SignedOk(w, n, r) && SignedOk(w, u, r);
      var slot := Slot(Control(r), r.locator.claims.sequence);
      if slot in HandedSlots(w, s, call.op, call.next) { SlotIsHanded(w, s, call.op, call.next, slot); }
    }
  }

  lemma ReturningCall(d: F.Disk, i: F.Instance, bytes: S.SequenceState -> nat) returns (call: F.Call)
    requires F.Apply(d, F.Return(i), bytes).Some?
    ensures i in d.calls && call == d.calls[i] && call.DirectorySynced?
    ensures F.Apply(d, F.Return(i), bytes).value.durable == d.durable
  {
    call := d.calls[i];
  }

  lemma ReturnCommits(w: World, n: Net, s: StoreId, i: F.Instance)
    requires WorldOk(w) && Inv(w, n) && DiskStep(w, n, s, F.Return(i)).Some?
    ensures var t := DiskStep(w, n, s, F.Return(i)).value;
            && (forall k :: 0 <= k < |t.commits| ==> CommitRemembered(t, t.commits[k]))
            && CommitsClimb(t.commits)
  {
    hide HandedOut, SignedOk, OneRecordPerSequence, F.Inv, F.Apply, DiskGenuine, HandedSlots, WorldOk, S.KeyOf,
      StateKey;
    var d := DiskOf(n, s);
    var t := DiskStep(w, n, s, F.Return(i)).value;
    var call := ReturningCall(d, i, w.bytes);
    DiskOk(w, n, s);
    var more := HandedCommits(s, call.op);
    assert |more| <= 1;
    forall k | 0 <= k < |n.commits| ensures CommitRemembered(t, n.commits[k]) {
      assert CommitRemembered(n, n.commits[k]);
    }
    if more != [] { CommitIsDurable(d, i, w.bytes, s, more[0]); }
  }

  lemma ReturnKeeps(w: World, n: Net, s: StoreId, i: F.Instance)
    requires WorldOk(w) && Inv(w, n) && DiskStep(w, n, s, F.Return(i)).Some?
    ensures Inv(w, DiskStep(w, n, s, F.Return(i)).value)
  {
    hide HandedOut, SignedOk, CommitRemembered, OneRecordPerSequence, CommitsClimb, F.Inv, F.Apply, DiskGenuine,
      HandedSlots, HandedCommits, WorldOk;
    DisksKeep(w, n, s, F.Return(i));
    ReturnSlots(w, n, s, i);
    ReturnCommits(w, n, s, i);
  }

  /**
    `current_record` returns `r` exactly if the lifetime is allowed and fits the clock, the credential verifies now,
    and `r` is the device's own record with the requested relays, nonce, sequence and life, and verifies now.
  */
  lemma CurrentRecordExact(
    d: Credential, relays: seq<RelayUrl>, nonce: Base64Text, sequence: u64, now: u64, lifetime: u64, p: Policy,
    r: Record)
    ensures CurrentRecord(d, relays, nonce, sequence, now, lifetime, p) == Some(r)
            <==> && 0 < lifetime <= 900
                 && now + lifetime <= U64_MAX
                 && CredentialVerify(d, now, p)
                 && OwnRecord(d, r)
                 && r.locator.claims.relays == relays
                 && r.locator.claims.instanceNonce == nonce
                 && r.locator.claims.sequence == sequence
                 && r.locator.claims.iat == now
                 && r.locator.claims.exp == now + lifetime
                 && RecordVerify(r, d.certificate.claims.identity, now, p, None)
  {
    hide SignLocator, CredentialVerify, LocatorVerify, CertificateVerify;
    if now + lifetime <= U64_MAX {
      LocatorSignExact(d, relays, nonce, sequence, now, now + lifetime, p, r.locator);
      var made := SignLocator(d, relays, nonce, sequence, now, now + lifetime, p);
      if made.Some? { LocatorSignExact(d, relays, nonce, sequence, now, now + lifetime, p, made.value); }
    }
  }

  /** What `current_record` returns verifies for the whole lifetime it was asked for. */
  lemma CurrentRecordStaysValid(
    d: Credential, relays: seq<RelayUrl>, nonce: Base64Text, sequence: u64, now: u64, lifetime: u64, p: Policy,
    r: Record, later: u64)
    requires CurrentRecord(d, relays, nonce, sequence, now, lifetime, p) == Some(r)
    requires now <= later < now + lifetime
    ensures RecordVerify(r, d.certificate.claims.identity, later, p, Some(sequence))
  {
    hide CurrentRecord, RecordVerify, CredentialVerify;
    CurrentRecordExact(d, relays, nonce, sequence, now, lifetime, p, r);
    RecordExactly(r, d.certificate.claims.identity, now, p, None);
    RecordExactly(r, d.certificate.claims.identity, later, p, Some(sequence));
  }

  lemma CurrentRecordIsOwn(
    d: Credential, relays: seq<RelayUrl>, nonce: Base64Text, sequence: u64, now: u64, lifetime: u64, p: Policy)
    requires CurrentRecord(d, relays, nonce, sequence, now, lifetime, p).Some?
    ensures var r := CurrentRecord(d, relays, nonce, sequence, now, lifetime, p).value;
            OwnRecord(d, r) && BoundLocator(r) && r.locator.claims.sequence == sequence
  {
    hide CurrentRecord, RecordVerify, CredentialVerify;
    var r := CurrentRecord(d, relays, nonce, sequence, now, lifetime, p).value;
    CurrentRecordExact(d, relays, nonce, sequence, now, lifetime, p, r);
    VerifiedIsBound(r, now, p);
  }

  lemma HandedFrame(w: World, n: Net, t: Net, control: string, number: u64)
    requires WorldOk(w) && HandedOut(w, n, control, number) && t.disks == n.disks
    ensures HandedOut(w, t, control, number)
  {
  }

  lemma SignKeeps(w: World, n: Net, slot: Slot, relays: seq<RelayUrl>, nonce: Base64Text, now: u64, lifetime: u64)
    requires WorldOk(w) && Inv(w, n) && Apply(w, n, Sign(slot, relays, nonce, now, lifetime)).Some?
    ensures Inv(w, Apply(w, n, Sign(slot, relays, nonce, now, lifetime)).value)
  {
    hide CommitsClimb, BoundLocator, PublisherKey, CurrentRecord, HandedOut, DiskGenuine, F.Inv;
    var t := Apply(w, n, Sign(slot, relays, nonce, now, lifetime)).value;
    var d := w.devices[slot.control].credential;
    var r := CurrentRecord(d, relays, nonce, slot.number, now, lifetime, w.policy);
    if r.Some? { CurrentRecordIsOwn(d, relays, nonce, slot.number, now, lifetime, w.policy); }
    forall i | 0 <= i < |t.signed| ensures SignedOk(w, t, t.signed[i]) {
      if i < |n.signed| { assert SignedOk(w, n, n.signed[i]); }
      HandedFrame(w, n, t, Control(t.signed[i]), t.signed[i].locator.claims.sequence);
    }
    forall x | x in t.pending ensures HandedOut(w, t, x.control, x.number) {
      HandedFrame(w, n, t, x.control, x.number);
    }
    forall i | 0 <= i < |n.signed| && Control(n.signed[i]) == slot.control
      ensures n.signed[i].locator.claims.sequence != slot.number
    {
      assert SignedOk(w, n, n.signed[i]);
    }
    forall s, c | s in t.disks && c in w.devices ensures DiskGenuine(w, t.signed, t.disks[s], c) {
      if r.Some? { MoreSigned(w, n.signed, [r.value], n.disks[s], c); }
    }
    forall i | 0 <= i < |t.commits| ensures CommitRemembered(t, t.commits[i]) {
      assert CommitRemembered(n, n.commits[i]);
    }
  }

  /** An observation of a genuine record is a genuine operation. */
  lemma ObservationGenuine(w: World, n: Net, r: Record, now: u64, control: string)
    requires WorldOk(w) && Inv(w, n) && control in w.devices
    requires RecordVerify(r, Identity(r), now, w.policy, None) && Genuine(w, n, r)
    ensures OpGenuine(w, n.signed, S.RecordBatch([Observation(w, r)]), control)
  {
    hide RecordVerify, Genuine, Inv, StateKey, WorldOk;
    var key := LocatorKey(Identity(r), Control(r));
    VerifiedHasKey(r, now, w.policy);
    if key == LocatorKey(OwnerOf(w, control), control) {
      LocatorKeyNames(Identity(r), Control(r), OwnerOf(w, control), control);
      var i := GenuineIsSigned(w, n, r, now);
      assert SignedAs(w, n.signed, control, r.locator.claims.sequence, w.hash(r));
    }
  }

  lemma VerifiedHasKey(r: Record, now: u64, p: Policy)
    requires RecordVerify(r, Identity(r), now, p, None)
    ensures LocatorKey(Identity(r), Control(r)).Some?
  {
    hide ScopeChar, LocatorVerify;
    hide ValidScope;
    PrefixesValid();
    PrefixedKeyIsScope(LOCATOR_PREFIX, Control(r));
  }

  lemma ApplyKeeps(w: World, n: Net, e: Event)
    requires WorldOk(w) && Inv(w, n) && Apply(w, n, e).Some?
    ensures Inv(w, Apply(w, n, e).value)
  {
    hide Inv, WorldOk, RecordVerify, Genuine, DiskStep, S.Updated, StateKey;
    match e
    case Lock(s, i, op) => QuietKeeps(w, n, s, F.Lock(i, op));
    case Observe(s, i, r, now) =>
      forall c | c in w.devices ensures OpGenuine(w, n.signed, S.RecordBatch([Observation(w, r)]), c) {
        ObservationGenuine(w, n, r, now, c);
      }
      QuietKeeps(w, n, s, F.Lock(i, S.RecordBatch([Observation(w, r)])));
    case OnDisk(s, step) =>
      if step.Return? { ReturnKeeps(w, n, s, step.instance); } else { QuietKeeps(w, n, s, step); }
    case Sign(slot, relays, nonce, now, lifetime) => SignKeeps(w, n, slot, relays, nonce, now, lifetime);
  }

  lemma {:induction false} RunKeeps(w: World, events: seq<Event>)
    requires WorldOk(w) && Execute(w, events).Some?
    ensures Inv(w, Execute(w, events).value)
    decreases |events|
  {
    hide Apply, WorldOk;
    if events != [] {
      RunKeeps(w, events[..|events| - 1]);
      ApplyKeeps(w, Execute(w, events[..|events| - 1]).value, events[|events| - 1]);
    }
  }

  // ---------------------------------------------------------------- what is promised

  /**
    A number that is pending is signed at most once: whatever comes of the signing, the number is gone; and a record
    that `current_record` makes of it is published.
  */
  lemma NumberIsUsedUp(w: World, n: Net, slot: Slot, relays: seq<RelayUrl>, nonce: Base64Text, now: u64, lifetime: u64)
    requires slot in n.pending && slot.control in w.devices
    ensures var d := w.devices[slot.control].credential;
            var made := CurrentRecord(d, relays, nonce, slot.number, now, lifetime, w.policy);
            var t := Apply(w, n, Sign(slot, relays, nonce, now, lifetime));
            && t.Some? && slot !in t.value.pending && t.value.pending + {slot} == n.pending
            && t.value.signed == n.signed + (if made.Some? then [made.value] else [])
            && t.value.disks == n.disks && t.value.commits == n.commits
            && Apply(w, t.value, Sign(slot, relays, nonce, now, lifetime)).None?
  {
    hide CurrentRecord;
    assert n.signed + [] == n.signed;
  }

  /** Records made through `next_record` have at most one digest per (identity, control key, sequence). */
  lemma OneDigestPerSequence(w: World, events: seq<Event>, i: int, j: int)
    requires WorldOk(w) && Execute(w, events).Some?
    requires var signed := Execute(w, events).value.signed;
             && 0 <= i < |signed| && 0 <= j < |signed|
             && Control(signed[i]) == Control(signed[j])
             && signed[i].locator.claims.sequence == signed[j].locator.claims.sequence
    ensures i == j
  {
    hide Execute, HandedOut, SignedOk, CommitRemembered, CommitsClimb, DiskGenuine, WorldOk, F.Inv;
    RunKeeps(w, events);
  }

  /**
    No store ever reports equivocation for an honest device: whatever verified record of it is offered
    to whatever store after whatever run, crashes included, the only refusals are a lower sequence and the
    store's own limits.
  */
  lemma HonestNeverEquivocates(w: World, events: seq<Event>, s: StoreId, r: Record, now: u64)
    requires WorldOk(w) && Execute(w, events).Some?
    requires var n := Execute(w, events).value;
             RecordVerify(r, Identity(r), now, w.policy, None) && Genuine(w, n, r) && Control(r) in w.devices
    ensures var values := Visible(Execute(w, events).value, s);
            var outcome := Committed(w, values, r);
            && |values| <= S.MAX_ENTRIES
            && (outcome.Err? ==> outcome.error in {S.RolledBack, S.EntryLimit, S.ByteLimit})
  {
    hide Execute, LocatorKey, RecordVerify, WorldOk, BoundLocator, Inv, F.Inv;
    var n := Execute(w, events).value;
    RunKeeps(w, events);
    var k := GenuineIsSigned(w, n, r, now);
    SignedIsOwn(w, n, k);
    DiskOk(w, n, s);
    ReadableDisk(DiskOf(n, s), w.bytes);
    VerifiedHasKey(r, now, w.policy);
    var key, values := LocatorKey(Identity(r), Control(r)).value, Visible(n, s);
    assert EntryGenuine(w, n.signed, values, Control(r));
    if key in values {
      var i :| && 0 <= i < |n.signed| && Control(n.signed[i]) == Control(r)
               && n.signed[i].locator.claims.sequence == values[key].counter
               && w.hash(n.signed[i]) == values[key].digest;
      if n.signed[i].locator.claims.sequence == r.locator.claims.sequence { OneDigestPerSequence(w, events, i, k); }
    }
  }

  lemma SignedIsOwn(w: World, n: Net, k: int)
    requires WorldOk(w) && Inv(w, n) && 0 <= k < |n.signed|
    ensures Control(n.signed[k]) in w.devices
    ensures OwnRecord(w.devices[Control(n.signed[k])].credential, n.signed[k])
  {
    hide DiskGenuine, F.Inv, CommitRemembered, CommitsClimb, OneRecordPerSequence;
    assert SignedOk(w, n, n.signed[k]);
  }

  lemma ReadableDisk(d: F.Disk, bytes: S.SequenceState -> nat)
    requires F.Inv(d, bytes)
    ensures |F.Visible(d).values| <= S.MAX_ENTRIES
  {
    hide F.CallOk, F.HandedOk, T.Above;
    assert F.VersionOk(d, F.Candidates(d)[|F.Candidates(d)| - 1], bytes);
  }

  /**
    In any one store, the sequences of commits that returned under one key never decrease, and none is
    committed with two digests, whatever crashes lie between.
  */
  lemma CommitsNeverRollBack(w: World, events: seq<Event>)
    requires WorldOk(w) && Execute(w, events).Some?
    ensures CommitsClimb(Execute(w, events).value.commits)
  {
    hide Execute;
    RunKeeps(w, events);
  }
}
