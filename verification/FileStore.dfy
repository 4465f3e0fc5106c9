/**
  The native file store (crates/client/src/sequence.rs, `update_file`): several instances,
  in one process or many, updating one state file under an exclusive lock by
  write-temp, fsync, rename, fsync-directory; any step may fail and the machine may crash.
*/
module FileStore {
  import opened Base
  import opened SequenceKeys
  import opened Sequences
  import opened SequenceTheorems

  type Instance = int

  /** The contents of one inode, and whether they were flushed; unflushed contents do not survive a crash. */
  datatype Version = Version(values: SequenceState, synced: bool)

  /** Where a call stands between two system calls; `base` is what a crash could have read back before it. */
  datatype Call =
    | Locked(op: Operation)
    | Staged(op: Operation, base: seq<Version>, next: Outcome)
    | TempWritten(op: Operation, base: seq<Version>, next: Outcome, temp: Version)
    | TempSynced(op: Operation, base: seq<Version>, next: Outcome, temp: Version)
    | Renamed(op: Operation, base: seq<Version>, next: Outcome)
    | DirectorySynced(op: Operation, base: seq<Version>, next: Outcome)

  /** A publisher number that a call returned to its caller. */
  datatype Handed = Handed(key: string, number: u64)

  /**
    `durable` is the version a crash cannot take away, `renamed` the versions renamed over the
    state file since the directory was last flushed. A missing file reads as the empty map.
  */
  datatype Disk = Disk(
    durable: Version, renamed: seq<Version>, torn: bool, lock: Option<Instance>, calls: map<Instance, Call>,
    handed: seq<Handed>)

  const EMPTY_DISK: Disk := Disk(Version(map[], true), [], false, None, map[], [])

  /** What a crash may leave behind: the durable version or any one renamed since. */
  function Candidates(d: Disk): seq<Version> {
    [d.durable] + d.renamed
  }

  /** What reading the state file returns now. */
  function Visible(d: Disk): Version {
    Last(Candidates(d))
  }

  function Last(versions: seq<Version>): Version
    requires versions != []
  {
    versions[|versions| - 1]
  }

  datatype Event =
    | Lock(instance: Instance, op: Operation)
    | Stage(instance: Instance)
    | WriteTemp(instance: Instance)
    | SyncTemp(instance: Instance)
    | Rename(instance: Instance)
    | SyncDirectory(instance: Instance)
    | Return(instance: Instance)
    | Fail(instance: Instance)
    | Crash(survivor: int)

  /** An instance leaves: its lock file is closed and its call is gone. */
  function Leave(d: Disk, i: Instance): Disk {
    d.(lock := None, calls := d.calls - {i})
  }

  function Goto(d: Disk, i: Instance, call: Call): Disk {
    d.(calls := d.calls[i := call])
  }

  /** The number an allocation hands out when it returns. */
  function Handing(op: Operation, next: Outcome): seq<Handed> {
    if op.Allocate? && next.number.Some? && PublisherKey(op.identity, op.control).Some?
    then [Handed(PublisherKey(op.identity, op.control).value, next.number.value)]
    else []
  }

  /** One system call of one instance, a failure of one, or a crash of the machine. */
  ghost function Apply(d: Disk, e: Event, bytes: SequenceState -> nat): Option<Disk> {
    match e
    case Lock(i, op) =>
      if d.lock.None? && i !in d.calls && ValidOperation(op)
      then Some(Goto(d, i, Locked(op)).(lock := Some(i)))
      else None
    case Stage(i) =>
      if i !in d.calls || !d.calls[i].Locked? then None else
      if d.torn || !Readable(Visible(d).values, bytes) then Some(Leave(d, i)) else
      var next := Updated(Visible(d).values, d.calls[i].op, bytes);
      if next.Err? then Some(Leave(d, i)) else
      Some(Goto(d, i, Staged(d.calls[i].op, Candidates(d), next.value)))
    case WriteTemp(i) =>
      if i !in d.calls || !d.calls[i].Staged? then None else
      var c := d.calls[i];
      Some(Goto(d, i, TempWritten(c.op, c.base, c.next, Version(c.next.state, false))))
    case SyncTemp(i) =>
      if i !in d.calls || !d.calls[i].TempWritten? then None else
      var c := d.calls[i];
      Some(Goto(d, i, TempSynced(c.op, c.base, c.next, c.temp.(synced := true))))
    case Rename(i) =>
      if i !in d.calls || !d.calls[i].TempSynced? then None else
      var c := d.calls[i];
      Some(Goto(d, i, Renamed(c.op, c.base, c.next)).(renamed := d.renamed + [c.temp]))
    case SyncDirectory(i) =>
      if i !in d.calls || !d.calls[i].Renamed? then None else
      var c := d.calls[i];
      Some(Goto(d, i, DirectorySynced(c.op, c.base, c.next)).(durable := Visible(d), renamed := []))
    case Return(i) =>
      if i !in d.calls || !d.calls[i].DirectorySynced? then None else
      Some(Leave(d, i).(handed := d.handed + Handing(d.calls[i].op, d.calls[i].next)))
    case Fail(i) => if i in d.calls then Some(Leave(d, i)) else None
    case Crash(k) =>
      if !(0 <= k < |Candidates(d)|) then None else
      var survivor := Candidates(d)[k];
      Some(d.(durable := survivor, renamed := [], torn := d.torn || !survivor.synced, lock := None, calls := map[]))
  }

  ghost function Execute(d: Disk, events: seq<Event>, bytes: SequenceState -> nat): Option<Disk>
    decreases |events|
  {
    if events == [] then Some(d) else
    var before := Execute(d, events[..|events| - 1], bytes);
    if before.None? then None else Apply(before.value, events[|events| - 1], bytes)
  }

  // ---------------------------------------------------------------- the invariant

  ghost predicate VersionOk(d: Disk, v: Version, bytes: SequenceState -> nat) {
    && v.synced
    && Readable(v.values, bytes)
    && Above(d.durable.values, v.values)
    && Above(v.values, Visible(d).values)
  }

  /** Versions only ever climb, and every one of them could be read back. */
  ghost predicate ChainOk(d: Disk, bytes: SequenceState -> nat) {
    !d.torn && forall k :: 0 <= k < |Candidates(d)| ==> VersionOk(d, Candidates(d)[k], bytes)
  }

  /** At most one call at a time is past the lock. */
  ghost predicate LockOk(d: Disk) {
    forall i | i in d.calls :: d.lock == Some(i)
  }

  /** What a crash could read back before a call lies between the durable map and the one the call found. */
  ghost predicate Climbs(base: seq<Version>) {
    && base != []
    && (forall k :: 0 <= k < |base| ==>
          Above(base[0].values, base[k].values) && Above(base[k].values, Last(base).values))
  }

  ghost predicate CallOk(d: Disk, call: Call, bytes: SequenceState -> nat) {
    && ValidOperation(call.op)
    && (!call.Locked? ==> Climbs(call.base) && Updated(Last(call.base).values, call.op, bytes) == Ok(call.next))
    && (call.Staged? || call.TempWritten? || call.TempSynced? ==> Candidates(d) == call.base)
    && (call.TempWritten? ==> call.temp.values == call.next.state)
    && (call.TempSynced? ==> call.temp == Version(call.next.state, true))
    && (call.Renamed? ==> Candidates(d) == call.base + [Version(call.next.state, true)])
    && (call.DirectorySynced? ==> Candidates(d) == [Version(call.next.state, true)])
    && (call.Renamed? || call.DirectorySynced? ==> FreshNumber(d, call.op, call.next))
  }

  /** Every number handed out so far for this key is below the one this call is about to hand out. */
  ghost predicate FreshNumber(d: Disk, op: Operation, next: Outcome) {
    forall h | h in Handing(op, next) ::
      && h.key in next.state && next.state[h.key] == Publisher(h.number)
      && (forall g | g in d.handed && g.key == h.key :: g.number < h.number)
  }

  /** Whatever was handed out is still on the durable medium, and in order. */
  ghost predicate HandedOk(d: Disk) {
    && (forall h | h in d.handed ::
          && h.key in d.durable.values
          && d.durable.values[h.key].Publisher?
          && h.number <= d.durable.values[h.key].counter)
    && StrictlyIncreasing(d.handed)
  }

  ghost predicate StrictlyIncreasing(handed: seq<Handed>) {
    forall i, j :: 0 <= i < j < |handed| && handed[i].key == handed[j].key ==> handed[i].number < handed[j].number
  }

  ghost predicate Inv(d: Disk, bytes: SequenceState -> nat) {
    && ChainOk(d, bytes)
    && LockOk(d)
    && (forall i | i in d.calls :: CallOk(d, d.calls[i], bytes))
    && HandedOk(d)
  }

  lemma AboveReflexive(a: SequenceState)
    ensures Above(a, a)
  {
  }

  lemma StageKeeps(d: Disk, i: Instance, bytes: SequenceState -> nat)
    requires Inv(d, bytes) && Apply(d, Stage(i), bytes).Some?
    ensures Inv(Apply(d, Stage(i), bytes).value, bytes)
  {
    hide Updated, Readable, Above, Handing, ValidOperation;
  }

  /** The version a rename brings in stands above every earlier one. */
  lemma RenameChain(d: Disk, i: Instance, bytes: SequenceState -> nat)
    requires Inv(d, bytes) && Apply(d, Rename(i), bytes).Some?
    ensures ChainOk(Apply(d, Rename(i), bytes).value, bytes)
  {
    hide Updated, Readable, Above, Handing, ValidOperation;
    var call, now, later := d.calls[i], Visible(d).values, d.calls[i].next.state;
    var t := Apply(d, Rename(i), bytes).value;
    UpdatedAbove(now, call.op, bytes);
    UpdatedReadable(now, call.op, bytes);
    AboveReflexive(later);
    AboveTransitive(d.durable.values, now, later);
    forall k | 0 <= k < |Candidates(t)| ensures VersionOk(t, Candidates(t)[k], bytes) {
      if k < |Candidates(d)| {
        assert Candidates(t)[k] == Candidates(d)[k];
        AboveTransitive(Candidates(d)[k].values, now, later);
      }
    }
  }

  lemma RenameKeeps(d: Disk, i: Instance, bytes: SequenceState -> nat)
    requires Inv(d, bytes) && Apply(d, Rename(i), bytes).Some?
    ensures Inv(Apply(d, Rename(i), bytes).value, bytes)
  {
    hide Updated, Readable, Above, Handing, ValidOperation, ChainOk;
    RenameChain(d, i, bytes);
    NumberIsFresh(d, d.calls[i].op, d.calls[i].next, bytes);
    var t := Apply(d, Rename(i), bytes).value;
    assert Candidates(t) == Candidates(d) + [d.calls[i].temp];
  }

  lemma NumberIsFresh(d: Disk, op: Operation, next: Outcome, bytes: SequenceState -> nat)
    requires ChainOk(d, bytes) && HandedOk(d)
    requires Updated(Visible(d).values, op, bytes) == Ok(next)
    ensures FreshNumber(d, op, next)
  {
    hide PublisherKey, Recorded, Readable;
    assert Candidates(d)[0] == d.durable;
    if op.Allocate? { AllocatedAbove(Visible(d).values, op.identity, op.control, bytes); }
  }

  lemma SyncDirectoryKeeps(d: Disk, i: Instance, bytes: SequenceState -> nat)
    requires Inv(d, bytes) && Apply(d, SyncDirectory(i), bytes).Some?
    ensures Inv(Apply(d, SyncDirectory(i), bytes).value, bytes)
  {
    hide Updated, Readable, Handing, ValidOperation;
    assert Candidates(d)[0] == d.durable;
  }

  lemma ReturnKeeps(d: Disk, i: Instance, bytes: SequenceState -> nat)
    requires Inv(d, bytes) && Apply(d, Return(i), bytes).Some?
    ensures Inv(Apply(d, Return(i), bytes).value, bytes)
  {
    hide Updated, Readable, Above, ValidOperation;
    var call := d.calls[i];
    var handing := Handing(call.op, call.next);
    assert |handing| <= 1;
    assert Candidates(d)[0] == d.durable;
    assert forall k :: 0 <= k < |handing| ==> handing[k] in handing;
    assert forall k :: 0 <= k < |d.handed| ==> d.handed[k] in d.handed;
  }

  lemma CrashKeeps(d: Disk, k: int, bytes: SequenceState -> nat)
    requires Inv(d, bytes) && Apply(d, Crash(k), bytes).Some?
    ensures Inv(Apply(d, Crash(k), bytes).value, bytes)
  {
    hide Readable;
  }

  /** Steps that rename nothing and hand out nothing leave the versions as they were. */
  lemma QuietKeeps(d: Disk, e: Event, bytes: SequenceState -> nat)
    requires Inv(d, bytes) && Apply(d, e, bytes).Some?
    requires e.Lock? || e.WriteTemp? || e.SyncTemp? || e.Fail?
    ensures Inv(Apply(d, e, bytes).value, bytes)
  {
    hide Updated, Readable, Above, Handing, ValidOperation, StrictlyIncreasing;
    var t := Apply(d, e, bytes).value;
    assert Candidates(t) == Candidates(d) && t.durable == d.durable && t.handed == d.handed;
    forall k | 0 <= k < |Candidates(t)| ensures VersionOk(t, Candidates(t)[k], bytes) {
      assert VersionOk(d, Candidates(d)[k], bytes);
    }
    forall i | i in t.calls ensures CallOk(t, t.calls[i], bytes) {
      if i in d.calls { assert CallOk(d, d.calls[i], bytes); }
    }
  }

  /** Every step of every instance, every failure and every crash keeps the invariant. */
  lemma ApplyKeeps(d: Disk, e: Event, bytes: SequenceState -> nat)
    requires Inv(d, bytes) && Apply(d, e, bytes).Some?
    ensures Inv(Apply(d, e, bytes).value, bytes)
  {
    hide Updated, Readable, Above, Handing, ValidOperation;
    match e
    case Stage(i) => StageKeeps(d, i, bytes);
    case Rename(i) => RenameKeeps(d, i, bytes);
    case SyncDirectory(i) => SyncDirectoryKeeps(d, i, bytes);
    case Return(i) => ReturnKeeps(d, i, bytes);
    case Crash(k) => CrashKeeps(d, k, bytes);
    case _ => QuietKeeps(d, e, bytes);
  }

  lemma {:induction false} RunKeeps(events: seq<Event>, bytes: SequenceState -> nat)
    requires bytes(map[]) <= MAX_STATE_BYTES
    requires Execute(EMPTY_DISK, events, bytes).Some?
    ensures Inv(Execute(EMPTY_DISK, events, bytes).value, bytes)
    decreases |events|
  {
    hide Apply, Above;
    if events == [] {
      AboveReflexive(map[]);
    } else {
      RunKeeps(events[..|events| - 1], bytes);
      ApplyKeeps(Execute(EMPTY_DISK, events[..|events| - 1], bytes).value, events[|events| - 1], bytes);
    }
  }

  /** With no failed call, a new call always finds the directory flushed. */
  ghost predicate Settled(d: Disk) {
    && (d.renamed != [] ==> d.lock.Some? && d.lock.value in d.calls && d.calls[d.lock.value].Renamed?)
    && (forall i | i in d.calls :: !d.calls[i].Locked? ==> |d.calls[i].base| == 1)
  }

  lemma {:induction false} RunSettles(events: seq<Event>, bytes: SequenceState -> nat)
    requires bytes(map[]) <= MAX_STATE_BYTES
    requires Execute(EMPTY_DISK, events, bytes).Some?
    requires forall e | e in events :: !e.Fail?
    ensures Settled(Execute(EMPTY_DISK, events, bytes).value)
    decreases |events|
  {
    hide Updated, Readable, Above, Handing, ValidOperation, ChainOk, HandedOk;
    if events != [] {
      var before := events[..|events| - 1];
      assert events[|events| - 1] in events;
      RunSettles(before, bytes);
      RunKeeps(before, bytes);
    }
  }

  // ---------------------------------------------------------------- what a caller can rely on

  /** Numbers handed out for one control key are strictly increasing over every run, crashes included. */
  lemma NumbersNeverRepeat(events: seq<Event>, bytes: SequenceState -> nat, d: Disk)
    requires bytes(map[]) <= MAX_STATE_BYTES
    requires Execute(EMPTY_DISK, events, bytes) == Some(d)
    ensures StrictlyIncreasing(d.handed)
  {
    RunKeeps(events, bytes);
  }

  lemma AboveAntisymmetric(a: SequenceState, b: SequenceState)
    requires Above(a, b) && Above(b, a)
    ensures a == b
  {
    assert a.Keys == b.Keys;
  }

  /**
    A crash in the middle of any call of any run reads back what a crash before the call could have
    read, or the whole new state; never a torn file and never one that `read_state` refuses.
  */
  lemma CrashReadsWhole(events: seq<Event>, bytes: SequenceState -> nat, d: Disk, i: Instance, k: int)
    requires bytes(map[]) <= MAX_STATE_BYTES
    requires Execute(EMPTY_DISK, events, bytes) == Some(d)
    requires i in d.calls && !d.calls[i].Locked? && Apply(d, Crash(k), bytes).Some?
    ensures var call, after := d.calls[i], Apply(d, Crash(k), bytes).value;
            && !after.torn
            && Readable(Visible(after).values, bytes)
            && call.base != []
            && Updated(Last(call.base).values, call.op, bytes) == Ok(call.next)
            && (Visible(after) in call.base || Visible(after).values == call.next.state)
            && (call.DirectorySynced? ==> Visible(after).values == call.next.state)
  {
    hide Updated, Readable, Above, Handing, ValidOperation, Execute, HandedOk;
    RunKeeps(events, bytes);
  }

  /** Whatever a crash at this point leaves behind is the map the call found or the one it was writing. */
  ghost predicate OldOrNew(d: Disk, call: Call)
    requires !call.Locked? && call.base != []
  {
    forall k :: 0 <= k < |Candidates(d)| ==>
      Candidates(d)[k].values == Last(call.base).values || Candidates(d)[k].values == call.next.state
  }

  /** Before the call, reading the file and reading it after a crash gave the same map. */
  predicate Flushed(base: seq<Version>)
    requires base != []
  {
    base[0].values == Last(base).values
  }

  lemma FlushedIsOne(base: seq<Version>)
    requires Climbs(base) && Flushed(base)
    ensures forall k :: 0 <= k < |base| ==> base[k].values == Last(base).values
  {
    hide Above;
    forall k | 0 <= k < |base| ensures base[k].values == Last(base).values {
      AboveAntisymmetric(base[k].values, Last(base).values);
    }
  }

  /** If the durable map is the one being written already, the call changes nothing. */
  lemma DurableIsNewMeansFlushed(call: Call, bytes: SequenceState -> nat)
    requires !call.Locked? && Climbs(call.base)
    requires Updated(Last(call.base).values, call.op, bytes) == Ok(call.next)
    requires call.base[0].values == call.next.state
    ensures Flushed(call.base)
  {
    hide Above, Updated;
    UpdatedAbove(Last(call.base).values, call.op, bytes);
    AboveAntisymmetric(call.base[0].values, Last(call.base).values);
  }

  /**
    For every run and every call past the lock: a crash reads back the old or the new map whatever it
    leaves behind, if and only if the directory is flushed again or the file the call found was.
  */
  lemma OldOrNewExactly(events: seq<Event>, bytes: SequenceState -> nat, d: Disk, i: Instance)
    requires bytes(map[]) <= MAX_STATE_BYTES
    requires Execute(EMPTY_DISK, events, bytes) == Some(d)
    requires i in d.calls && !d.calls[i].Locked?
    ensures d.calls[i].base != []
    ensures OldOrNew(d, d.calls[i]) <==> d.calls[i].DirectorySynced? || Flushed(d.calls[i].base)
    ensures OldOrNew(d, d.calls[i]) <==>
              forall k | Apply(d, Crash(k), bytes).Some? ::
                var read := Visible(Apply(d, Crash(k), bytes).value).values;
                read == Last(d.calls[i].base).values || read == d.calls[i].next.state
  {
    hide Updated, Readable, Above, Handing, ValidOperation, Execute, HandedOk, ChainOk, Climbs;
    RunKeeps(events, bytes);
    var call := d.calls[i];
    assert CallOk(d, call, bytes);
    BaseIsThere(call.base);
    CrashReads(d, bytes);
    if !call.DirectorySynced? {
      assert Candidates(d)[0] == call.base[0];
      if Flushed(call.base) { FlushedIsOne(call.base); }
      if call.base[0].values == call.next.state { DurableIsNewMeansFlushed(call, bytes); }
    }
  }

  lemma BaseIsThere(base: seq<Version>)
    requires Climbs(base)
    ensures base != []
  {
  }

  /** A crash leaves behind any one candidate, and reading then finds it. */
  lemma CrashReads(d: Disk, bytes: SequenceState -> nat)
    ensures forall k :: Apply(d, Crash(k), bytes).Some? <==> 0 <= k < |Candidates(d)|
    ensures forall k :: 0 <= k < |Candidates(d)| ==>
              Visible(Apply(d, Crash(k), bytes).value) == Candidates(d)[k]
  {
  }

  /** In particular after a history without failed calls. */
  lemma CleanHistoryReadsOldOrNew(events: seq<Event>, bytes: SequenceState -> nat, d: Disk, i: Instance)
    requires bytes(map[]) <= MAX_STATE_BYTES
    requires Execute(EMPTY_DISK, events, bytes) == Some(d)
    requires forall e | e in events :: !e.Fail?
    requires i in d.calls && !d.calls[i].Locked?
    ensures d.calls[i].base != [] && OldOrNew(d, d.calls[i])
  {
    hide Updated, Readable, Above, Handing, ValidOperation, Execute, HandedOk, ChainOk, Apply, OldOrNew;
    RunSettles(events, bytes);
    OldOrNewExactly(events, bytes, d, i);
  }

  /** Once a call has returned Ok its state is durable: no crash can take it back. */
  lemma ReturnedIsDurable(events: seq<Event>, bytes: SequenceState -> nat, d: Disk, i: Instance, k: int)
    requires bytes(map[]) <= MAX_STATE_BYTES
    requires Execute(EMPTY_DISK, events, bytes) == Some(d)
    requires Apply(d, Return(i), bytes).Some?
    requires Apply(Apply(d, Return(i), bytes).value, Crash(k), bytes).Some?
    ensures var after := Apply(Apply(d, Return(i), bytes).value, Crash(k), bytes).value;
            Visible(after).values == d.calls[i].next.state && !after.torn
  {
    hide Updated, Readable, Above, Handing, ValidOperation, Execute, HandedOk;
    RunKeeps(events, bytes);
  }

  lemma Follow(events: seq<Event>, d: Disk, e: Event, next: Disk, bytes: SequenceState -> nat)
    requires Execute(EMPTY_DISK, events, bytes) == Some(d)
    requires Apply(d, e, bytes) == Some(next)
    ensures Execute(EMPTY_DISK, events + [e], bytes) == Some(next)
  {
    assert (events + [e])[..|events|] == events;
  }

  /** Lock, stage, write, flush and rename on an otherwise idle, flushed disk. */
  lemma UpToRename(i: Instance, op: Operation, next: Outcome, bytes: SequenceState -> nat)
    returns (events: seq<Event>, d: Disk)
    requires ValidOperation(op) && Readable(map[], bytes) && Updated(map[], op, bytes) == Ok(next)
    ensures Execute(EMPTY_DISK, events, bytes) == Some(d)
    ensures d == EMPTY_DISK.(renamed := [Version(next.state, true)], lock := Some(i), calls := d.calls)
    ensures d.calls.Keys == {i}
  {
    hide Updated, Readable, Execute, ValidOperation;
    var base := [Version(map[], true)];
    var d1 := Goto(EMPTY_DISK, i, Locked(op)).(lock := Some(i));
    assert Execute(EMPTY_DISK, [], bytes) == Some(EMPTY_DISK) by { ExecuteNothing(bytes); }
    Follow([], EMPTY_DISK, Lock(i, op), d1, bytes);
    assert Candidates(d1) == base;
    var d2 := Goto(d1, i, Staged(op, base, next));
    Follow([] + [Lock(i, op)], d1, Stage(i), d2, bytes);
    var d3 := Goto(d2, i, TempWritten(op, base, next, Version(next.state, false)));
    Follow([] + [Lock(i, op)] + [Stage(i)], d2, WriteTemp(i), d3, bytes);
    var d4 := Goto(d3, i, TempSynced(op, base, next, Version(next.state, true)));
    Follow([] + [Lock(i, op)] + [Stage(i)] + [WriteTemp(i)], d3, SyncTemp(i), d4, bytes);
    assert d4.renamed + [Version(next.state, true)] == [Version(next.state, true)];
    d := Goto(d4, i, Renamed(op, base, next)).(renamed := [Version(next.state, true)]);
    Follow([] + [Lock(i, op)] + [Stage(i)] + [WriteTemp(i)] + [SyncTemp(i)], d4, Rename(i), d, bytes);
    events := [] + [Lock(i, op)] + [Stage(i)] + [WriteTemp(i)] + [SyncTemp(i)] + [Rename(i)];
  }

  lemma ExecuteNothing(bytes: SequenceState -> nat)
    ensures Execute(EMPTY_DISK, [], bytes) == Some(EMPTY_DISK)
  {
  }

  /** The empty map, a counter made, and the counter used once. */
  predicate FitsThree(key: string, bytes: SequenceState -> nat) {
    && bytes(map[]) <= MAX_STATE_BYTES
    && bytes(map[key := Publisher(0)]) <= MAX_STATE_BYTES
    && bytes(map[key := Publisher(1)]) <= MAX_STATE_BYTES
  }

  lemma TwoUpdates(identity: string, control: string, bytes: SequenceState -> nat)
    returns (made: Outcome, used: Outcome)
    requires PublisherKey(identity, control).Some? && FitsThree(PublisherKey(identity, control).value, bytes)
    ensures Readable(map[], bytes) && Readable(made.state, bytes)
    ensures Updated(map[], Initialize(identity, control), bytes) == Ok(made)
    ensures Updated(made.state, Allocate(identity, control), bytes) == Ok(used)
    ensures made.state != map[] && used.state != map[]
  {
    hide PublisherKey, EntryValid;
    var key := PublisherKey(identity, control).value;
    made := Outcome(map[key := Publisher(0)], None);
    PublisherEntryValid(identity, control, 0);
    assert made.state[key := Publisher(1)] == map[key := Publisher(1)];
    used := Outcome(map[key := Publisher(1)], Some(1));
    assert made.state.Keys == {key} && used.state.Keys == {key};
  }

  /**
    The condition in `OldOrNewExactly` can fail: after a call whose directory flush failed, a crash in
    the next call can read back a map older than the one that call found.
  */
  lemma FailedFlushReadsOlder(identity: string, control: string, bytes: SequenceState -> nat)
    returns (events: seq<Event>, d: Disk)
    requires PublisherKey(identity, control).Some? && FitsThree(PublisherKey(identity, control).value, bytes)
    ensures Execute(EMPTY_DISK, events, bytes) == Some(d)
    ensures 2 in d.calls && d.calls[2].Staged? && d.calls[2].base != [] && Apply(d, Crash(0), bytes).Some?
    ensures var after := Apply(d, Crash(0), bytes).value;
            && Visible(after).values != Last(d.calls[2].base).values
            && Visible(after).values != d.calls[2].next.state
  {
    hide Readable, Updated, Execute, PublisherKey;
    var made, used := TwoUpdates(identity, control, bytes);
    var first, second := Initialize(identity, control), Allocate(identity, control);
    var before, d5 := UpToRename(1, first, made, bytes);
    var d6 := Leave(d5, 1);
    Follow(before, d5, Fail(1), d6, bytes);
    var d7 := Goto(d6, 2, Locked(second)).(lock := Some(2));
    Follow(before + [Fail(1)], d6, Lock(2, second), d7, bytes);
    var base := [Version(map[], true), Version(made.state, true)];
    assert Candidates(d7) == base;
    d := Goto(d7, 2, Staged(second, base, used));
    Follow(before + [Fail(1)] + [Lock(2, second)], d7, Stage(2), d, bytes);
    events := before + [Fail(1)] + [Lock(2, second)] + [Stage(2)];
    assert Candidates(d)[0].values == map[];
  }

  /** The seven system calls of one undisturbed call. */
  function CallOf(i: Instance, op: Operation): seq<Event> {
    [Lock(i, op), Stage(i), WriteTemp(i), SyncTemp(i), Rename(i), SyncDirectory(i), Return(i)]
  }

  /**
    After any run that left the lock free, a call that nothing disturbs does exactly what its operation says: on
    success the file is the new map, durable, its number is handed out and the lock is free again; on a refusal
    only the lock was taken and released.
  */
  lemma UndisturbedCall(events: seq<Event>, d: Disk, i: Instance, op: Operation, bytes: SequenceState -> nat)
    requires bytes(map[]) <= MAX_STATE_BYTES && ValidOperation(op)
    requires Execute(EMPTY_DISK, events, bytes) == Some(d) && d.lock.None?
    ensures match Updated(Visible(d).values, op, bytes)
            case Ok(next) =>
              Execute(EMPTY_DISK, events + CallOf(i, op), bytes)
              == Some(Disk(Version(next.state, true), [], false, None, map[], d.handed + Handing(op, next)))
            case Err(_) => Execute(EMPTY_DISK, events + CallOf(i, op)[..2], bytes) == Some(d)
  {
    hide Updated, Readable, Execute, ValidOperation, Handing, Above;
    RunKeeps(events, bytes);
    NoCalls(d, bytes);
    var d1 := Goto(d, i, Locked(op)).(lock := Some(i));
    Follow(events, d, Lock(i, op), d1, bytes);
    var now := Updated(Visible(d).values, op, bytes);
    assert Candidates(d1) == Candidates(d);
    if now.Err? {
      assert d1.calls - {i} == d.calls;
      Follow(events + [Lock(i, op)], d1, Stage(i), d, bytes);
      assert events + CallOf(i, op)[..2] == events + [Lock(i, op)] + [Stage(i)];
    } else {
      var d2 := Goto(d1, i, Staged(op, Candidates(d), now.value));
      Follow(events + [Lock(i, op)], d1, Stage(i), d2, bytes);
      var before := events + [Lock(i, op)] + [Stage(i)];
      WritesAndReturns(before, d, d2, i, op, now.value, bytes);
      assert events + CallOf(i, op)
          == before + [WriteTemp(i)] + [SyncTemp(i)] + [Rename(i)] + [SyncDirectory(i)] + [Return(i)];
    }
  }

  /** With the lock free no call is under way, and the file can be read. */
  lemma NoCalls(d: Disk, bytes: SequenceState -> nat)
    requires Inv(d, bytes) && d.lock.None?
    ensures d.calls == map[] && !d.torn && Readable(Visible(d).values, bytes)
  {
    hide Readable, Above, CallOk, HandedOk;
    assert VersionOk(d, Candidates(d)[|Candidates(d)| - 1], bytes);
    assert forall i :: i !in d.calls;
  }

  lemma WritesAndReturns(
    before: seq<Event>, d: Disk, d2: Disk, i: Instance, op: Operation, next: Outcome, bytes: SequenceState -> nat)
    requires Execute(EMPTY_DISK, before, bytes) == Some(d2) && d.calls == map[] && !d.torn
    requires d2 == d.(lock := Some(i), calls := map[i := Staged(op, Candidates(d), next)])
    ensures Execute(EMPTY_DISK,
                    before + [WriteTemp(i)] + [SyncTemp(i)] + [Rename(i)] + [SyncDirectory(i)] + [Return(i)], bytes)
            == Some(Disk(Version(next.state, true), [], false, None, map[], d.handed + Handing(op, next)))
  {
    hide Updated, Readable, Execute, ValidOperation, Handing;
    var base, made := Candidates(d), Version(next.state, true);
    var d3 := d2.(calls := map[i := TempWritten(op, base, next, Version(next.state, false))]);
    assert Goto(d2, i, TempWritten(op, base, next, Version(next.state, false))) == d3;
    Follow(before, d2, WriteTemp(i), d3, bytes);
    var d4 := d2.(calls := map[i := TempSynced(op, base, next, made)]);
    assert Goto(d3, i, TempSynced(op, base, next, made)) == d4;
    Follow(before + [WriteTemp(i)], d3, SyncTemp(i), d4, bytes);
    var d5 := d2.(calls := map[i := Renamed(op, base, next)], renamed := d.renamed + [made]);
    assert Goto(d4, i, Renamed(op, base, next)).(renamed := d.renamed + [made]) == d5;
    Follow(before + [WriteTemp(i)] + [SyncTemp(i)], d4, Rename(i), d5, bytes);
    var d6 := d2.(calls := map[i := DirectorySynced(op, base, next)], durable := made, renamed := []);
    assert Visible(d5) == made;
    assert Goto(d5, i, DirectorySynced(op, base, next)).(durable := made, renamed := []) == d6;
    Follow(before + [WriteTemp(i)] + [SyncTemp(i)] + [Rename(i)], d5, SyncDirectory(i), d6, bytes);
    var d7 := Disk(made, [], false, None, map[], d.handed + Handing(op, next));
    assert d6.calls - {i} == map[];
    Follow(before + [WriteTemp(i)] + [SyncTemp(i)] + [Rename(i)] + [SyncDirectory(i)], d6, Return(i), d7, bytes);
  }

  /** A crash ends every call and frees the lock, so the next call can begin; what was handed out stays so. */
  lemma CrashFrees(d: Disk, k: int, bytes: SequenceState -> nat)
    requires Apply(d, Crash(k), bytes).Some?
    ensures var t := Apply(d, Crash(k), bytes).value;
            && t.lock.None? && t.calls == map[] && t.handed == d.handed && t.renamed == []
            && (t.torn <==> d.torn || !Candidates(d)[k].synced)
  {
  }

  /**
    Whatever a crash leaves behind after any run has at most 4096 entries and a mebibyte, and each entry is one that
    some operation wrote: a counter under a publisher key, or a positive observation under a key of its own.
  */
  lemma EveryVersionIsSound(events: seq<Event>, d: Disk, k: int, key: string, bytes: SequenceState -> nat)
    requires bytes(map[]) <= MAX_STATE_BYTES
    requires Execute(EMPTY_DISK, events, bytes) == Some(d) && 0 <= k < |Candidates(d)|
    ensures var values := Candidates(d)[k].values;
            && |values| <= 4_096 && bytes(values) <= 1_048_576
            && (key in values ==>
                  if values[key].Publisher?
                  then exists identity, control :: PublisherKey(identity, control) == Some(key)
                  else && values[key].counter > 0
                       && exists identity, scope ::
                            StateKey(identity, scope) == Some(key) && !("v1:publisher:" <= scope))
  {
    hide Execute, EntryValid, Above, CallOk, HandedOk, PublisherKey, StateKey;
    RunKeeps(events, bytes);
    var values := Candidates(d)[k].values;
    assert VersionOk(d, Candidates(d)[k], bytes);
    if key in values {
      EntryValidExactly(key, values[key]);
      assert EntryValid(key, values[key]);
    }
  }
}
