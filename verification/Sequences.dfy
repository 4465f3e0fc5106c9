/**
  The anti-rollback sequence store (crates/client/src/sequence.rs): atomic batches of
  authenticated observations and never-reused publisher counters.

  `Recorded`, `Initialized` and `Allocated` say what each operation makes of a state;
  the methods below are the source's loops and staged updates, proved against them.
*/
module Sequences {
  import opened Base
  import opened SequenceKeys
  import opened Collections

  const MAX_ENTRIES: int := 4_096
  const MAX_STATE_BYTES: int := 1024 * 1024

  type Digest32 = d: seq<byte> | |d| == 32 witness seq(32, i => 0)

  datatype Stored = Publisher(counter: u64) | Authenticated(counter: u64, digest: Digest32)

  type SequenceState = map<string, Stored>

  datatype Observation = Observation(identity: string, scope: string, counter: u64, digest: Digest32)

  datatype Value = Value(counter: u64, digest: Digest32)

  datatype Error =
    | InvalidKey
    | BatchRefused
    | ReservedScope
    | ConflictingDuplicates
    | PublisherConflict
    | RolledBack
    | Equivocated
    | EntryLimit
    | ByteLimit
    | AlreadyInitialized
    | MissingPublisher
    | Exhausted

  /** What `AuthenticatedSequenceObservation::new` lets through. */
  predicate ValidObservation(o: Observation) {
    StateKey(o.identity, o.scope).Some? && !Reserved(o.scope) && o.counter != 0
  }

  // ---------------------------------------------------------------- specification

  /** One observation is compatible with what is stored: a new key, a higher counter, or the same record. */
  predicate Admissible(values: SequenceState, key: string, v: Value) {
    key in values ==>
      && values[key].Authenticated?
      && (values[key].counter < v.counter || values[key] == Authenticated(v.counter, v.digest))
  }

  predicate WellFormed(batch: seq<Observation>) {
    forall i :: 0 <= i < |batch| ==> StateKey(batch[i].identity, batch[i].scope).Some? && !Reserved(batch[i].scope)
  }

  function KeyOf(o: Observation): string
    requires StateKey(o.identity, o.scope).Some?
  {
    StateKey(o.identity, o.scope).value
  }

  function ValueOf(o: Observation): Value {
    Value(o.counter, o.digest)
  }

  predicate Consistent(batch: seq<Observation>)
    requires WellFormed(batch)
  {
    forall i, j :: 0 <= i < j < |batch| && KeyOf(batch[i]) == KeyOf(batch[j])
                   ==> ValueOf(batch[i]) == ValueOf(batch[j])
  }

  /** The batch as a map; with consistent duplicates the order does not matter. */
  function Prepared(batch: seq<Observation>): map<string, Value>
    requires WellFormed(batch)
  {
    if batch == [] then map[] else
    var last := |batch| - 1;
    Prepared(batch[..last])[KeyOf(batch[last]) := ValueOf(batch[last])]
  }

  function Overlay(values: SequenceState, prepared: map<string, Value>): SequenceState {
    values + map k | k in prepared :: Authenticated(prepared[k].counter, prepared[k].digest)
  }

  predicate AllAdmissible(values: SequenceState, prepared: map<string, Value>) {
    forall k | k in prepared :: Admissible(values, k, prepared[k])
  }

  predicate Accepts(values: SequenceState, batch: seq<Observation>) {
    && WellFormed(batch)
    && Consistent(batch)
    && AllAdmissible(values, Prepared(batch))
    && |Overlay(values, Prepared(batch))| <= MAX_ENTRIES
  }

  /** `record_batch`: all of the batch or nothing of it. `bytes` is the size of the JSON encoding. */
  function Recorded(values: SequenceState, batch: seq<Observation>, bytes: SequenceState -> nat)
    : Option<SequenceState>
  {
    if Accepts(values, batch) && bytes(Overlay(values, Prepared(batch))) <= MAX_STATE_BYTES
    then Some(Overlay(values, Prepared(batch)))
    else None
  }

  predicate Bounded(values: SequenceState, bytes: SequenceState -> nat) {
    |values| <= MAX_ENTRIES && bytes(values) <= MAX_STATE_BYTES
  }

  /** `initialize_publisher`. */
  function Initialized(values: SequenceState, key: string): Result<SequenceState, Error> {
    if key in values then Err(AlreadyInitialized)
    else if |values| >= MAX_ENTRIES then Err(EntryLimit)
    else Ok(values[key := Publisher(0)])
  }

  /** `next_publisher_value`: the new counter is both stored and returned. */
  function Allocated(values: SequenceState, key: string): Result<SequenceState, Error> {
    if key !in values then Err(MissingPublisher)
    else if !values[key].Publisher? then Err(PublisherConflict)
    else if values[key].counter == U64_MAX then Err(Exhausted)
    else Ok(values[key := Publisher(values[key].counter + 1)])
  }

  /** The three ways a store is updated. */
  datatype Operation =
    | RecordBatch(batch: seq<Observation>)
    | Initialize(identity: string, control: string)
    | Allocate(identity: string, control: string)

  /** The new state and, for an allocation, the number handed out. */
  datatype Outcome = Outcome(state: SequenceState, number: Option<u64>)

  /** `update_memory` and the pure part of `update_file`: stage, check the bounds, commit. */
  function Updated(values: SequenceState, op: Operation, bytes: SequenceState -> nat): Result<Outcome, Error> {
    match op
    case RecordBatch(batch) =>
      var next := Recorded(values, batch, bytes);
      if next.Some? then Ok(Outcome(next.value, None)) else Err(BatchRefused)
    case Initialize(identity, control) =>
      var key := PublisherKey(identity, control);
      if key.None? then Err(InvalidKey) else
      var next := Initialized(values, key.value);
      if next.Err? then Err(next.error)
      else if !Bounded(next.value, bytes) then Err(ByteLimit)
      else Ok(Outcome(next.value, None))
    case Allocate(identity, control) =>
      var key := PublisherKey(identity, control);
      if key.None? then Err(InvalidKey) else
      var next := Allocated(values, key.value);
      if next.Err? then Err(next.error)
      else if !Bounded(next.value, bytes) then Err(ByteLimit)
      else Ok(Outcome(next.value, Some(next.value[key.value].counter)))
  }

  // ---------------------------------------------------------------- the batch as a map

  /** What `Prepared` holds: exactly the keys of the batch, with a value the batch gives them. */
  lemma {:induction false} PreparedLookup(batch: seq<Observation>, key: string)
    requires WellFormed(batch)
    ensures key in Prepared(batch) <==> exists i :: 0 <= i < |batch| && KeyOf(batch[i]) == key
    ensures key in Prepared(batch) ==>
              exists i :: 0 <= i < |batch| && KeyOf(batch[i]) == key && ValueOf(batch[i]) == Prepared(batch)[key]
    ensures Consistent(batch) ==>
              forall i :: 0 <= i < |batch| && KeyOf(batch[i]) == key ==> Prepared(batch)[key] == ValueOf(batch[i])
  {
    hide StateKey, Reserved;
    if batch != [] {
      var last := |batch| - 1;
      var rest := batch[..last];
      PreparedLookup(rest, key);
      assert Consistent(batch) ==> Consistent(rest);
      if KeyOf(batch[last]) != key && key in Prepared(rest) {
        var i :| 0 <= i < last && KeyOf(rest[i]) == key && ValueOf(rest[i]) == Prepared(rest)[key];
        assert batch[i] == rest[i];
      }
      forall i | 0 <= i < |batch| && KeyOf(batch[i]) == key
        ensures key in Prepared(batch)
        ensures Consistent(batch) ==> Prepared(batch)[key] == ValueOf(batch[i])
      {
        if i < last { assert rest[i] == batch[i]; }
      }
    }
  }

  /** One more observation keeps a batch consistent exactly if it repeats what its key already has. */
  lemma ConsistentStep(batch: seq<Observation>, i: int)
    requires 0 <= i < |batch| && WellFormed(batch[..i + 1])
    requires WellFormed(batch[..i]) && Consistent(batch[..i])
    ensures var key := KeyOf(batch[..i + 1][i]);
            Consistent(batch[..i + 1])
            <==> (key in Prepared(batch[..i]) ==> Prepared(batch[..i])[key] == ValueOf(batch[i]))
  {
    hide StateKey, Reserved;
    var longer, shorter := batch[..i + 1], batch[..i];
    assert forall j :: 0 <= j < i ==> longer[j] == shorter[j];
    PreparedLookup(shorter, KeyOf(longer[i]));
  }

  lemma ConsistentPrefix(batch: seq<Observation>, i: int)
    requires 0 <= i <= |batch|
    ensures WellFormed(batch) && Consistent(batch) ==> WellFormed(batch[..i]) && Consistent(batch[..i])
  {
    hide StateKey, Reserved;
  }

  // ---------------------------------------------------------------- the loops

  /** `prepare_batch`. */
  method PrepareBatch(batch: seq<Observation>) returns (r: Result<map<string, Value>, Error>)
    ensures r.Ok? <==> WellFormed(batch) && Consistent(batch)
    ensures r.Ok? ==> r.value == Prepared(batch)
  {
    hide StateKey, Reserved;
    var prepared: map<string, Value> := map[];
    var i := 0;
    while i < |batch|
      invariant 0 <= i <= |batch|
      invariant WellFormed(batch[..i]) && Consistent(batch[..i])
      invariant prepared == Prepared(batch[..i])
    {
      var o := batch[i];
      if Reserved(o.scope) { return Err(ReservedScope); }
      var key := StateKey(o.identity, o.scope);
      if key.None? { return Err(InvalidKey); }
      assert batch[..i + 1][..i] == batch[..i] && batch[..i + 1][i] == o;
      assert WellFormed(batch[..i + 1]);
      ConsistentStep(batch, i);
      if key.value in prepared && prepared[key.value] != ValueOf(o) {
        ConsistentPrefix(batch, i + 1);
        return Err(ConflictingDuplicates);
      }
      prepared := prepared[key.value := ValueOf(o)];
      i := i + 1;
    }
    assert batch[..i] == batch;
    r := Ok(prepared);
  }

  /** `record_authenticated_value`. */
  function RecordValue(values: SequenceState, key: string, v: Value): Result<SequenceState, Error> {
    if key in values && values[key].Publisher? then Err(PublisherConflict)
    else if key in values && v.counter < values[key].counter then Err(RolledBack)
    else if key in values && v.counter == values[key].counter then
      if v.digest == values[key].digest then Ok(values) else Err(Equivocated)
    else if key !in values && |values| >= MAX_ENTRIES then Err(EntryLimit)
    else Ok(values[key := Authenticated(v.counter, v.digest)])
  }

  function Restrict(prepared: map<string, Value>, keys: set<string>): map<string, Value> {
    map k | k in prepared && k in keys :: prepared[k]
  }

  lemma OverlayStep(values: SequenceState, prepared: map<string, Value>, done: set<string>, key: string)
    requires key in prepared && key !in done
    ensures Overlay(values, Restrict(prepared, done + {key}))
            == Overlay(values, Restrict(prepared, done))[
                 key := Authenticated(prepared[key].counter, prepared[key].digest)]
  {
  }

  lemma OverlayMiss(values: SequenceState, prepared: map<string, Value>, done: set<string>, key: string)
    requires key !in done
    ensures key in Overlay(values, Restrict(prepared, done)) <==> key in values
    ensures key in values ==> Overlay(values, Restrict(prepared, done))[key] == values[key]
  {
  }

  /** `record_authenticated_value` accepts exactly the admissible values that fit. */
  lemma RecordValueExact(staged: SequenceState, key: string, v: Value)
    ensures RecordValue(staged, key, v).Ok?
            <==> Admissible(staged, key, v) && (key in staged || |staged| < MAX_ENTRIES)
    ensures RecordValue(staged, key, v).Ok?
            ==> RecordValue(staged, key, v).value == staged[key := Authenticated(v.counter, v.digest)]
  {
    if key in staged && staged[key] == Authenticated(v.counter, v.digest) {
      assert staged[key := Authenticated(v.counter, v.digest)] == staged;
    }
  }

  lemma RestrictAll(prepared: map<string, Value>)
    ensures Restrict(prepared, prepared.Keys) == prepared
  {
  }

  lemma SameEntryAdmissible(a: SequenceState, b: SequenceState, key: string, v: Value)
    requires key in a <==> key in b
    requires key in a ==> a[key] == b[key]
    ensures Admissible(a, key, v) <==> Admissible(b, key, v)
  {
  }

  lemma OverlayNothing(values: SequenceState, prepared: map<string, Value>)
    ensures Overlay(values, Restrict(prepared, {})) == values
  {
  }

  lemma OverlayGrows(values: SequenceState, prepared: map<string, Value>, keys: set<string>)
    ensures |Overlay(values, Restrict(prepared, keys))| <= |Overlay(values, prepared)|
  {
    var smaller, larger := Overlay(values, Restrict(prepared, keys)).Keys, Overlay(values, prepared).Keys;
    assert smaller <= larger;
    SubsetSize(smaller, larger);
  }

  /**
    `record_authenticated_batch`: staged key by key. The source walks the keys in order; here the
    next key is arbitrary, so the outcome is shown not to depend on it.
  */
  method RecordAuthenticatedBatch(values: SequenceState, prepared: map<string, Value>)
    returns (r: Result<SequenceState, Error>)
    requires |values| <= MAX_ENTRIES
    ensures r.Ok? <==> AllAdmissible(values, prepared) && |Overlay(values, prepared)| <= MAX_ENTRIES
    ensures r.Ok? ==> r.value == Overlay(values, prepared)
  {
    hide Overlay, RecordValue, Restrict, Admissible;
    var staged := values;
    var remaining := prepared.Keys;
    ghost var done: set<string> := {};
    OverlayNothing(values, prepared);
    while remaining != {}
      invariant remaining + done == prepared.Keys && remaining !! done
      invariant staged == Overlay(values, Restrict(prepared, done))
      invariant forall k | k in done :: Admissible(values, k, prepared[k])
      invariant |staged| <= MAX_ENTRIES
      decreases |remaining|
    {
      var key :| key in remaining;
      var v := prepared[key];
      OverlayStep(values, prepared, done, key);
      OverlayMiss(values, prepared, done, key);
      RecordValueExact(staged, key, v);
      SameEntryAdmissible(staged, values, key, v);
      InsertSize(staged, key, Authenticated(v.counter, v.digest));
      var next := RecordValue(staged, key, v);
      if next.Err? {
        OverlayGrows(values, prepared, done + {key});
        return Err(next.error);
      }
      staged := next.value;
      remaining := remaining - {key};
      done := done + {key};
    }
    RestrictAll(prepared);
    r := Ok(staged);
  }

  /** `MemorySequenceStore`, and the staged `update_memory` every operation goes through. */
  class MemorySequenceStore {
    var values: SequenceState

    ghost predicate Valid(bytes: SequenceState -> nat)
      reads this
    {
      Bounded(values, bytes)
    }

    constructor ()
      ensures values == map[]
    {
      values := map[];
    }

    method RecordBatch(batch: seq<Observation>, bytes: SequenceState -> nat) returns (r: Result<(), Error>)
      requires Valid(bytes)
      modifies this
      ensures Valid(bytes)
      ensures r.Ok? <==> Recorded(old(values), batch, bytes).Some?
      ensures values == if r.Ok? then Recorded(old(values), batch, bytes).value else old(values)
    {
      var prepared := PrepareBatch(batch);
      if prepared.Err? { return Err(prepared.error); }
      var staged := RecordAuthenticatedBatch(values, prepared.value);
      if staged.Err? { return Err(staged.error); }
      if bytes(staged.value) > MAX_STATE_BYTES { return Err(ByteLimit); }
      values := staged.value;
      r := Ok(());
    }

    method InitializeLocatorPublisher(identity: string, control: string, bytes: SequenceState -> nat)
      returns (r: Result<(), Error>)
      requires Valid(bytes)
      modifies this
      ensures Valid(bytes)
      ensures r.Ok? <==> Updated(old(values), Initialize(identity, control), bytes).Ok?
      ensures values == if r.Ok? then Updated(old(values), Initialize(identity, control), bytes).value.state
                        else old(values)
    {
      hide PublisherKey;
      var key := PublisherKey(identity, control);
      if key.None? { return Err(InvalidKey); }
      var staged := Initialized(values, key.value);
      if staged.Err? { return Err(staged.error); }
      if !Bounded(staged.value, bytes) { return Err(ByteLimit); }
      values := staged.value;
      r := Ok(());
    }

    method NextLocatorSequence(identity: string, control: string, bytes: SequenceState -> nat)
      returns (r: Result<u64, Error>)
      requires Valid(bytes)
      modifies this
      ensures Valid(bytes)
      ensures r.Ok? <==> Updated(old(values), Allocate(identity, control), bytes).Ok?
      ensures r.Ok? ==> Updated(old(values), Allocate(identity, control), bytes) == Ok(Outcome(values, Some(r.value)))
      ensures r.Err? ==> values == old(values)
    {
      hide PublisherKey;
      var key := PublisherKey(identity, control);
      if key.None? { return Err(InvalidKey); }
      var staged := Allocated(values, key.value);
      if staged.Err? { return Err(staged.error); }
      if !Bounded(staged.value, bytes) { return Err(ByteLimit); }
      values := staged.value;
      r := Ok(values[key.value].counter);
    }
  }
}
