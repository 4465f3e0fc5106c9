/** What the sequence store promises: monotone floors, order-free batches, states it can read back. */
module SequenceTheorems {
  import opened Base
  import opened Text
  import opened Collections
  import opened SequenceKeys
  import opened Sequences

  // ---------------------------------------------------------------- floors never sink

  /** `b` remembers everything `a` does: no entry lost, no counter lower, no record swapped at a counter. */
  ghost predicate Above(a: SequenceState, b: SequenceState) {
    forall k | k in a ::
      && k in b
      && (a[k].Publisher? <==> b[k].Publisher?)
      && a[k].counter <= b[k].counter
      && (a[k].counter == b[k].counter ==> a[k] == b[k])
  }

  lemma AboveTransitive(a: SequenceState, b: SequenceState, c: SequenceState)
    requires Above(a, b) && Above(b, c)
    ensures Above(a, c)
  {
  }

  lemma OverlayAbove(values: SequenceState, prepared: map<string, Value>)
    requires AllAdmissible(values, prepared)
    ensures Above(values, Overlay(values, prepared))
  {
    forall k | k in values && k in prepared
      ensures Overlay(values, prepared)[k] == Authenticated(prepared[k].counter, prepared[k].digest)
    {
      assert Admissible(values, k, prepared[k]);
    }
  }

  /** Every operation a store performs leaves it above where it was. */
  lemma UpdatedAbove(values: SequenceState, op: Operation, bytes: SequenceState -> nat)
    requires Updated(values, op, bytes).Ok?
    ensures Above(values, Updated(values, op, bytes).value.state)
  {
    hide PublisherKey, WellFormed, Consistent, Overlay;
    if op.RecordBatch? { OverlayAbove(values, Prepared(op.batch)); }
  }

  /** An allocated number is above every number the store had for that control key. */
  lemma AllocatedAbove(values: SequenceState, identity: string, control: string, bytes: SequenceState -> nat)
    requires Updated(values, Allocate(identity, control), bytes).Ok?
    ensures var key, u := PublisherKey(identity, control), Updated(values, Allocate(identity, control), bytes).value;
            && key.Some?
            && key.value in values
            && u.number == Some(values[key.value].counter + 1)
            && u.state == values[key.value := Publisher(values[key.value].counter + 1)]
  {
    hide PublisherKey;
  }

  // ---------------------------------------------------------------- the order of a batch is irrelevant

  lemma SameMeansConsistent(a: seq<Observation>, b: seq<Observation>)
    requires forall o :: o in a <==> o in b
    requires WellFormed(a)
    ensures WellFormed(b)
    ensures Consistent(a) ==> Consistent(b)
  {
    hide StateKey, Reserved;
    forall i | 0 <= i < |b| ensures StateKey(b[i].identity, b[i].scope).Some? && !Reserved(b[i].scope) {
      assert b[i] in b;
      var k :| 0 <= k < |a| && a[k] == b[i];
    }
    if Consistent(a) {
      forall i, j | 0 <= i < j < |b| && KeyOf(b[i]) == KeyOf(b[j]) ensures ValueOf(b[i]) == ValueOf(b[j]) {
        assert b[i] in b && b[j] in b;
        var k :| 0 <= k < |a| && a[k] == b[i];
        var l :| 0 <= l < |a| && a[l] == b[j];
      }
    }
  }

  lemma SamePrepared(a: seq<Observation>, b: seq<Observation>)
    requires forall o :: o in a <==> o in b
    requires WellFormed(a) && WellFormed(b) && Consistent(a) && Consistent(b)
    ensures Prepared(a) == Prepared(b)
  {
    hide StateKey, Reserved;
    assert forall key :: (key in Prepared(a) <==> key in Prepared(b))
                         && (key in Prepared(a) ==> Prepared(a)[key] == Prepared(b)[key]) by {
      forall key
        ensures key in Prepared(a) <==> key in Prepared(b)
        ensures key in Prepared(a) ==> Prepared(a)[key] == Prepared(b)[key]
      {
        PreparedLookup(a, key);
        PreparedLookup(b, key);
        if i :| 0 <= i < |a| && KeyOf(a[i]) == key {
          assert a[i] in a;
          var j :| 0 <= j < |b| && b[j] == a[i];
        }
        if j :| 0 <= j < |b| && KeyOf(b[j]) == key {
          assert b[j] in b;
          var i :| 0 <= i < |a| && a[i] == b[j];
        }
      }
    }
  }

  /** Two batches of the same observations, in any order and with any repetitions, end the same way. */
  lemma BatchOrderIrrelevant(
    values: SequenceState, a: seq<Observation>, b: seq<Observation>, bytes: SequenceState -> nat)
    requires forall o :: o in a <==> o in b
    ensures Recorded(values, a, bytes) == Recorded(values, b, bytes)
  {
    hide WellFormed, Consistent, Overlay, Prepared;
    if WellFormed(a) {
      SameMeansConsistent(a, b);
      SameMeansConsistent(b, a);
      if Consistent(a) { SamePrepared(a, b); }
    } else if WellFormed(b) {
      SameMeansConsistent(b, a);
    }
  }

  // ---------------------------------------------------------------- a store never writes what it refuses to read

  /** `validate_stored_entry`. */
  predicate EntryValid(key: string, value: Stored) {
    var split := SplitOnce(key, ':');
    && split.Some?
    && StateKey(split.value.before, split.value.after) == Some(key)
    && (value.Authenticated? ==> value.counter != 0 && !Reserved(split.value.after))
    && (value.Publisher? ==> ValidPublisherScope(split.value.after))
  }

  /** The checks of `read_state` on the map it decoded. */
  ghost predicate Readable(values: SequenceState, bytes: SequenceState -> nat) {
    Bounded(values, bytes) && forall k | k in values :: EntryValid(k, values[k])
  }

  lemma PublisherEntryValid(identity: string, control: string, counter: u64)
    requires PublisherKey(identity, control).Some?
    ensures EntryValid(PublisherKey(identity, control).value, Publisher(counter))
  {
    StateKeySplits(identity, PUBLISHER_PREFIX + control);
    assert (PUBLISHER_PREFIX + control)[|PUBLISHER_PREFIX|..] == control;
  }

  lemma ObservedEntryValid(o: Observation)
    requires ValidObservation(o)
    ensures EntryValid(KeyOf(o), Authenticated(o.counter, o.digest))
  {
    StateKeySplits(o.identity, o.scope);
  }

  /** The observations an operation records are ones the constructor let through. */
  predicate ValidOperation(op: Operation) {
    op.RecordBatch? ==> forall i :: 0 <= i < |op.batch| ==> ValidObservation(op.batch[i])
  }

  lemma RecordedReadable(values: SequenceState, batch: seq<Observation>, bytes: SequenceState -> nat)
    requires Readable(values, bytes) && ValidOperation(RecordBatch(batch))
    requires Recorded(values, batch, bytes).Some?
    ensures Readable(Recorded(values, batch, bytes).value, bytes)
  {
    hide StateKey, Reserved, EntryValid, ValidObservation;
    var prepared, next := Prepared(batch), Recorded(values, batch, bytes).value;
    forall k | k in next ensures EntryValid(k, next[k]) {
      if k in prepared {
        PreparedLookup(batch, k);
        var i :| 0 <= i < |batch| && KeyOf(batch[i]) == k && ValueOf(batch[i]) == prepared[k];
        ObservedEntryValid(batch[i]);
      }
    }
  }

  /** Whatever an operation writes passes every check the next reader will make. */
  lemma UpdatedReadable(values: SequenceState, op: Operation, bytes: SequenceState -> nat)
    requires Readable(values, bytes) && ValidOperation(op)
    requires Updated(values, op, bytes).Ok?
    ensures Readable(Updated(values, op, bytes).value.state, bytes)
  {
    hide StateKey, Reserved, EntryValid, ValidObservation, Recorded, PublisherKey;
    match op
    case RecordBatch(batch) => RecordedReadable(values, batch, bytes);
    case Initialize(identity, control) => PublisherEntryValid(identity, control, 0);
    case Allocate(identity, control) =>
      var key := PublisherKey(identity, control).value;
      PublisherEntryValid(identity, control, Updated(values, op, bytes).value.state[key].counter);
  }

  // ---------------------------------------------------------------- exactly what each operation accepts and makes

  /** A counter is made exactly where there is none and it fits, at zero; nothing else changes. */
  lemma InitializeExactly(values: SequenceState, identity: string, control: string, bytes: SequenceState -> nat)
    ensures var key, made := PublisherKey(identity, control), Updated(values, Initialize(identity, control), bytes);
            && (made.Ok? <==>
                  && key.Some? && key.value !in values.Keys && |values| < 4_096
                  && bytes(values[key.value := Publisher(0)]) <= 1_048_576)
            && (made.Ok? ==> made.value == Outcome(values[key.value := Publisher(0)], None))
  {
    hide PublisherKey;
    var key := PublisherKey(identity, control);
    if key.Some? { InsertSize(values, key.value, Publisher(0)); }
  }

  /** A number is handed out exactly if there is a counter that is not used up and the state still fits. */
  lemma AllocateExactly(values: SequenceState, identity: string, control: string, bytes: SequenceState -> nat)
    ensures var key, made := PublisherKey(identity, control), Updated(values, Allocate(identity, control), bytes);
            && (made.Ok? <==>
                  && key.Some? && key.value in values.Keys && values[key.value].Publisher?
                  && values[key.value].counter < 0xFFFF_FFFF_FFFF_FFFF
                  && |values| <= 4_096
                  && bytes(values[key.value := Publisher(values[key.value].counter + 1)]) <= 1_048_576)
            && (made.Ok? ==>
                  var next := values[key.value].counter + 1;
                  made.value == Outcome(values[key.value := Publisher(next)], Some(next)))
  {
    hide PublisherKey;
    var key := PublisherKey(identity, control);
    if key.Some? && key.value in values && values[key.value].Publisher? && values[key.value].counter < U64_MAX {
      InsertSize(values, key.value, Publisher(values[key.value].counter + 1));
    }
  }

  /** The observation names an identity and a scope that is not reserved for counters. */
  predicate Nameable(o: Observation) {
    && CanonicalKey(o.identity)
    && 1 <= |o.scope| <= 128
    && (forall c | c in o.scope :: ScopeChar(c))
    && !("v1:publisher:" <= o.scope)
  }

  lemma NameableExactly(o: Observation)
    ensures Nameable(o) <==> StateKey(o.identity, o.scope).Some? && !Reserved(o.scope)
    ensures Nameable(o) ==> KeyOf(o) == o.identity + ":" + o.scope
  {
    hide ScopeChar, CanonicalKey;
    assert forall i :: 0 <= i < |o.scope| ==> o.scope[i] in o.scope;
  }

  /** What is stored under the observation's name gives way to it: nothing, a lower counter, or the same record. */
  predicate GivesWay(values: SequenceState, o: Observation) {
    var key := o.identity + ":" + o.scope;
    key in values ==>
      && values[key].Authenticated?
      && (values[key].counter < o.counter || values[key] == Authenticated(o.counter, o.digest))
  }

  /** Observations of one name are the same observation. */
  predicate Agree(a: Observation, b: Observation) {
    a.identity == b.identity && a.scope == b.scope ==> a == b
  }

  /**
    A batch is recorded exactly if all its observations can be named, those of one name agree, what is stored
    gives way to every one of them, and the result fits.
  */
  lemma RecordExactly(values: SequenceState, batch: seq<Observation>, bytes: SequenceState -> nat)
    ensures Recorded(values, batch, bytes).Some?
            <==> && (forall i :: 0 <= i < |batch| ==> Nameable(batch[i]))
                 && (forall i, j :: 0 <= i < j < |batch| ==> Agree(batch[i], batch[j]))
                 && (forall i :: 0 <= i < |batch| ==> GivesWay(values, batch[i]))
                 && WellFormed(batch)
                 && |Overlay(values, Prepared(batch))| <= 4_096
                 && bytes(Overlay(values, Prepared(batch))) <= 1_048_576
  {
    hide StateKey, Reserved, Nameable, Overlay, Prepared, GivesWay;
    NamesExactly(batch);
    if WellFormed(batch) {
      AgreesExactly(batch);
      if Consistent(batch) { GivesWayExactly(values, batch); }
    }
  }

  lemma NamesExactly(batch: seq<Observation>)
    ensures (forall i :: 0 <= i < |batch| ==> Nameable(batch[i])) <==> WellFormed(batch)
  {
    hide StateKey, Reserved, Nameable;
    forall i | 0 <= i < |batch|
      ensures Nameable(batch[i]) <==> StateKey(batch[i].identity, batch[i].scope).Some? && !Reserved(batch[i].scope)
    {
      NameableExactly(batch[i]);
    }
  }

  lemma AgreesExactly(batch: seq<Observation>)
    requires WellFormed(batch)
    ensures Consistent(batch)
            <==> forall i, j :: 0 <= i < j < |batch| ==> Agree(batch[i], batch[j])
  {
    hide StateKey, Reserved;
    forall i, j | 0 <= i < j < |batch|
      ensures KeyOf(batch[i]) == KeyOf(batch[j]) && ValueOf(batch[i]) == ValueOf(batch[j]) <==> batch[i] == batch[j]
      ensures KeyOf(batch[i]) == KeyOf(batch[j])
              <==> batch[i].identity == batch[j].identity && batch[i].scope == batch[j].scope
    {
      if KeyOf(batch[i]) == KeyOf(batch[j]) {
        StateKeyInjective(batch[i].identity, batch[i].scope, batch[j].identity, batch[j].scope);
      }
    }
  }

  lemma GivesWayExactly(values: SequenceState, batch: seq<Observation>)
    requires WellFormed(batch) && Consistent(batch)
    ensures AllAdmissible(values, Prepared(batch)) <==> forall i :: 0 <= i < |batch| ==> GivesWay(values, batch[i])
  {
    hide StateKey, Reserved, Prepared;
    forall i | 0 <= i < |batch|
      ensures KeyOf(batch[i]) in Prepared(batch)
      ensures GivesWay(values, batch[i]) <==> Admissible(values, KeyOf(batch[i]), Prepared(batch)[KeyOf(batch[i])])
    {
      PreparedLookup(batch, KeyOf(batch[i]));
      NameableExactly(batch[i]);
    }
    forall k | k in Prepared(batch) ensures exists i :: 0 <= i < |batch| && KeyOf(batch[i]) == k {
      PreparedLookup(batch, k);
    }
  }

  /** What a recorded batch leaves: its own entries, and every other entry as it was. */
  lemma RecordedContents(values: SequenceState, batch: seq<Observation>, bytes: SequenceState -> nat, key: string)
    requires Recorded(values, batch, bytes).Some?
    ensures var next := Recorded(values, batch, bytes).value;
            if exists i :: 0 <= i < |batch| && batch[i].identity + ":" + batch[i].scope == key
            then exists i :: && 0 <= i < |batch| && batch[i].identity + ":" + batch[i].scope == key
                             && key in next && next[key] == Authenticated(batch[i].counter, batch[i].digest)
            else (key in next <==> key in values) && (key in values ==> next[key] == values[key])
  {
    hide StateKey, Reserved, Prepared, AllAdmissible;
    PreparedLookup(batch, key);
    forall i | 0 <= i < |batch| ensures KeyOf(batch[i]) == batch[i].identity + ":" + batch[i].scope {
      NameableExactly(batch[i]);
    }
    if key in Prepared(batch) {
      var i :| 0 <= i < |batch| && KeyOf(batch[i]) == key && ValueOf(batch[i]) == Prepared(batch)[key];
    }
  }

  /** `read_state` accepts an entry exactly if some operation could have written it. */
  lemma EntryValidExactly(key: string, value: Stored)
    ensures EntryValid(key, value)
            <==> match value
                 case Publisher(_) => exists identity, control :: PublisherKey(identity, control) == Some(key)
                 case Authenticated(counter, digest) =>
                   exists identity, scope ::
                     && ValidObservation(Observation(identity, scope, counter, digest))
                     && StateKey(identity, scope) == Some(key)
  {
    hide SplitOnce;
    if EntryValid(key, value) {
      var s := SplitOnce(key, ':').value;
      if value.Publisher? {
        assert s.after == PUBLISHER_PREFIX + s.after[|PUBLISHER_PREFIX|..];
        assert PublisherKey(s.before, s.after[|PUBLISHER_PREFIX|..]) == Some(key);
      } else {
        assert ValidObservation(Observation(s.before, s.after, value.counter, value.digest));
      }
    }
    if value.Publisher? {
      if identity, control :| PublisherKey(identity, control) == Some(key) {
        PublisherEntryValid(identity, control, value.counter);
      }
    } else {
      if identity, scope :| ValidObservation(Observation(identity, scope, value.counter, value.digest))
                            && StateKey(identity, scope) == Some(key) {
        ObservedEntryValid(Observation(identity, scope, value.counter, value.digest));
      }
    }
  }
}
