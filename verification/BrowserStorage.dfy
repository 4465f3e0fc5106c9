/**
  The browser's storage transactions (crates/browser-wasm/js/browser_store.js): device states and
  sequence records. IndexedDB commits each transaction whole or not at all.
*/
module BrowserStorage {
  import opened Base
  import opened Text
  import opened SequenceKeys
  import opened Collections
  import B = BrowserSequences

  /** The two object stores: the current control key of each account's device, and the sequence records. */
  datatype Db = Db(devices: map<string, string>, sequences: B.Store)

  datatype Failure = InvalidPubky | DeviceStateExists | StorageKeyMissing | StorageTampered | SequenceRefused

  // ---------------------------------------------------------------- specification of each transaction

  function CounterKey(account: string, owner: string, control: string): string {
    B.SequenceKey(account, owner, PUBLISHER_PREFIX + control)
  }

  function Counter(account: string, owner: string, control: string, counter: int): B.SequenceRecord {
    B.SequenceRecord(
      CounterKey(account, owner, control), account, owner, PUBLISHER_PREFIX + control, B.PublisherKind, counter, None)
  }

  /** `validateSequenceCandidate`. */
  predicate CandidateFits(store: B.Store, r: B.SequenceRecord, bytes: B.Store -> nat) {
    && |store| < B.MAX_SEQUENCE_ENTRIES
    && B.AllValid(store)
    && B.StoredValid(r)
    && bytes(store[r.key := r]) <= B.MAX_SEQUENCE_BYTES
  }

  predicate HasPublisher(store: B.Store, account: string) {
    exists k | k in store :: store[k].accountId == account && store[k].kind == B.PublisherKind
  }

  /** `updateSequences` around the change of one record. */
  predicate ChangeFits(store: B.Store, r: B.SequenceRecord, bytes: B.Store -> nat) {
    |store| <= B.MAX_SEQUENCE_ENTRIES && B.AllValid(store) && B.Fits(store[r.key := r], bytes)
  }

  function Without(store: B.Store, account: string): B.Store {
    map k | k in store && store[k].accountId != account :: store[k]
  }

  datatype Transaction =
    | SaveNew(account: string, control: string)
    | Replace(account: string, previous: string, control: string)
    | Remove(account: string)
    | Initialize(account: string, owner: string, control: string)
    | Next(account: string, owner: string, control: string)
    | Record(account: string, inputs: seq<B.Input>)

  /** The committed state and, for `Next`, the number handed out. */
  datatype Outcome = Outcome(db: Db, number: Option<int>)

  /** What a transaction commits, or `None` if it aborts. */
  function Committed(db: Db, t: Transaction, bytes: B.Store -> nat): Option<Outcome> {
    match t
    case SaveNew(account, control) =>
      var made := Counter(account, account, control, 0);
      if && CanonicalKey(account) && CanonicalKey(control)
         && account !in db.devices
         && made.key !in db.sequences
         && !HasPublisher(db.sequences, account)
         && CandidateFits(db.sequences, made, bytes)
      then Some(Outcome(Db(db.devices[account := control], db.sequences[made.key := made]), None))
      else None
    case Replace(account, previous, control) =>
      var made := Counter(account, account, control, 0);
      if && CanonicalKey(account) && CanonicalKey(previous) && CanonicalKey(control)
         && previous != control
         && account in db.devices && db.devices[account] == previous
         && made.key !in db.sequences
         && CandidateFits(db.sequences, made, bytes)
      then Some(Outcome(Db(db.devices[account := control], db.sequences[made.key := made]), None))
      else None
    case Remove(account) =>
      if CanonicalKey(account)
      then Some(Outcome(Db(db.devices - {account}, Without(db.sequences, account)), None))
      else None
    case Initialize(account, owner, control) =>
      var made := Counter(account, owner, control, 0);
      if && CanonicalKey(account) && CanonicalKey(owner) && CanonicalKey(control)
         && made.key !in db.sequences
         && ChangeFits(db.sequences, made, bytes)
      then Some(Outcome(db.(sequences := db.sequences[made.key := made]), None))
      else None
    case Next(account, owner, control) =>
      var key := CounterKey(account, owner, control);
      if !(&& CanonicalKey(account) && CanonicalKey(owner) && CanonicalKey(control)
           && key in db.sequences && db.sequences[key].kind == B.PublisherKind) then None else
      var next := db.sequences[key].counter + 1;
      var updated := db.sequences[key].(counter := next);
      if B.SafeCounter(next, 1) && db.sequences[key].key == key && ChangeFits(db.sequences, updated, bytes)
      then Some(Outcome(db.(sequences := db.sequences[key := updated]), Some(next)))
      else None
    case Record(account, inputs) =>
      var recorded := B.BatchRecorded(db.sequences, account, inputs, bytes);
      if recorded.Some? then Some(Outcome(db.(sequences := recorded.value), None)) else None
  }

  // ---------------------------------------------------------------- the transactions

  /** The cursor loop of `__p2pRemoveIdentity`. */
  method DeleteAccount(store: B.Store, account: string) returns (r: B.Store)
    ensures r == Without(store, account)
  {
    r := store;
    var cursor := store.Keys;
    while cursor != {}
      invariant cursor <= store.Keys
      invariant r == map k | k in store && (k in cursor || store[k].accountId != account) :: store[k]
      decreases |cursor|
    {
      var key :| key in cursor;
      if store[key].accountId == account { r := r - {key}; }
      cursor := cursor - {key};
    }
  }

  class BrowserDatabase {
    var devices: map<string, string>
    var sequences: B.Store

    ghost function View(): Db
      reads this
    {
      Db(devices, sequences)
    }

    constructor ()
      ensures View() == Db(map[], map[])
    {
      devices, sequences := map[], map[];
    }

    /** `__p2pSaveNewDeviceState`: a first device and its counter. */
    method SaveNewDeviceState(account: string, control: string, bytes: B.Store -> nat) returns (r: Result<(), Failure>)
      modifies this
      ensures r.Ok? <==> Committed(old(View()), SaveNew(account, control), bytes).Some?
      ensures View() == if r.Ok? then Committed(old(View()), SaveNew(account, control), bytes).value.db else old(View())
    {
      hide CanonicalKey, CandidateFits;
      if !CanonicalKey(account) || !CanonicalKey(control) { return Err(InvalidPubky); }
      var publisher := Counter(account, account, control, 0);
      if account in devices || publisher.key in sequences { return Err(DeviceStateExists); }
      if exists k | k in sequences :: sequences[k].accountId == account && sequences[k].kind == B.PublisherKind {
        return Err(StorageKeyMissing);
      }
      if !CandidateFits(sequences, publisher, bytes) { return Err(SequenceRefused); }
      devices := devices[account := control];
      sequences := sequences[publisher.key := publisher];
      r := Ok(());
    }

    /** `__p2pReplaceDeviceState`: rotation to a new control key with a counter of its own. */
    method ReplaceDeviceState(account: string, oldControl: string, newControl: string, bytes: B.Store -> nat)
      returns (r: Result<(), Failure>)
      modifies this
      ensures r.Ok? <==> Committed(old(View()), Replace(account, oldControl, newControl), bytes).Some?
      ensures View() == if r.Ok? then Committed(old(View()), Replace(account, oldControl, newControl), bytes).value.db
                        else old(View())
    {
      hide CanonicalKey, CandidateFits;
      if !CanonicalKey(account) || !CanonicalKey(oldControl) || !CanonicalKey(newControl) {
        return Err(InvalidPubky);
      }
      if oldControl == newControl { return Err(StorageTampered); }
      var publisher := Counter(account, account, newControl, 0);
      if account !in devices || devices[account] != oldControl || publisher.key in sequences {
        return Err(StorageTampered);
      }
      if !CandidateFits(sequences, publisher, bytes) { return Err(SequenceRefused); }
      devices := devices[account := newControl];
      sequences := sequences[publisher.key := publisher];
      r := Ok(());
    }

    /** The deleting transaction of `__p2pRemoveIdentity`. */
    method RemoveIdentity(account: string, bytes: B.Store -> nat) returns (r: Result<(), Failure>)
      modifies this
      ensures r.Ok? <==> Committed(old(View()), Remove(account), bytes).Some?
      ensures View() == if r.Ok? then Committed(old(View()), Remove(account), bytes).value.db else old(View())
    {
      if !CanonicalKey(account) { return Err(InvalidPubky); }
      devices := devices - {account};
      var kept := DeleteAccount(sequences, account);
      sequences := kept;
      r := Ok(());
    }

    /** `__p2pInitializePublisher`. */
    method InitializePublisher(account: string, owner: string, control: string, bytes: B.Store -> nat)
      returns (r: Result<(), Failure>)
      modifies this
      ensures r.Ok? <==> Committed(old(View()), Initialize(account, owner, control), bytes).Some?
      ensures View() == if r.Ok? then Committed(old(View()), Initialize(account, owner, control), bytes).value.db
                        else old(View())
    {
      hide CanonicalKey, ChangeFits;
      if !CanonicalKey(account) || !CanonicalKey(owner) || !CanonicalKey(control) { return Err(InvalidPubky); }
      var record := Counter(account, owner, control, 0);
      if record.key in sequences { return Err(DeviceStateExists); }
      if !ChangeFits(sequences, record, bytes) { return Err(SequenceRefused); }
      sequences := sequences[record.key := record];
      r := Ok(());
    }

    /** `__p2pNextPublisherSequence`. */
    method NextPublisherSequence(account: string, owner: string, control: string, bytes: B.Store -> nat)
      returns (r: Result<int, Failure>)
      modifies this
      ensures r.Ok? <==> Committed(old(View()), Next(account, owner, control), bytes).Some?
      ensures r.Ok? ==> Committed(old(View()), Next(account, owner, control), bytes)
                        == Some(Outcome(View(), Some(r.value)))
      ensures r.Err? ==> View() == old(View())
    {
      hide CanonicalKey;
      if !CanonicalKey(account) || !CanonicalKey(owner) || !CanonicalKey(control) { return Err(InvalidPubky); }
      var key := CounterKey(account, owner, control);
      if key !in sequences || sequences[key].kind != B.PublisherKind { return Err(StorageKeyMissing); }
      var next := sequences[key].counter + 1;
      if !B.SafeCounter(next, 1) { return Err(SequenceRefused); }
      var updated := sequences[key].(counter := next);
      if !ChangeFits(sequences, updated, bytes) { return Err(SequenceRefused); }
      sequences := sequences[key := updated];
      r := Ok(next);
    }

    /** `__p2pRecordSequenceBatch`. */
    method RecordBatch(account: string, inputs: seq<B.Input>, bytes: B.Store -> nat) returns (r: Result<(), B.Error>)
      modifies this
      ensures r.Ok? <==> Committed(old(View()), Record(account, inputs), bytes).Some?
      ensures View() == if r.Ok? then Committed(old(View()), Record(account, inputs), bytes).value.db else old(View())
    {
      hide B.BatchRecorded;
      var recorded := B.RecordSequenceBatch(sequences, account, inputs, bytes);
      if recorded.Err? { return Err(recorded.error); }
      sequences := recorded.value;
      r := Ok(());
    }
  }

  // ---------------------------------------------------------------- runs

  datatype Entry = Numbered(key: string, number: int) | Removed(account: string)

  datatype Run = Run(db: Db, log: seq<Entry>)

  function Logged(t: Transaction, outcome: Outcome): seq<Entry> {
    match t
    case Remove(account) => [Removed(account)]
    case Next(account, owner, control) =>
      if outcome.number.Some? then [Numbered(CounterKey(account, owner, control), outcome.number.value)] else []
    case _ => []
  }

  /** An aborted transaction leaves everything as it was. */
  function Step(run: Run, t: Transaction, bytes: B.Store -> nat): Run {
    match Committed(run.db, t, bytes)
    case None => run
    case Some(outcome) => Run(outcome.db, run.log + Logged(t, outcome))
  }

  function Execute(transactions: seq<Transaction>, bytes: B.Store -> nat): Run
    decreases |transactions|
  {
    if transactions == [] then Run(Db(map[], map[]), []) else
    Step(Execute(transactions[..|transactions| - 1], bytes), transactions[|transactions| - 1], bytes)
  }

  function Extended(numbers: seq<int>, e: Entry, account: string, key: string): seq<int> {
    match e
    case Removed(a) => if a == account then [] else numbers
    case Numbered(k, n) => if k == key then numbers + [n] else numbers
  }

  /** The numbers handed out for one counter since its account was last removed. */
  function Numbers(log: seq<Entry>, account: string, key: string): seq<int>
    decreases |log|
  {
    if log == [] then [] else Extended(Numbers(log[..|log| - 1], account, key), log[|log| - 1], account, key)
  }

  /** 1, 2, ..., n. */
  function UpTo(n: int): seq<int>
    requires 0 <= n
  {
    seq(n, i => i + 1)
  }

  /** The device of an account has a counter for its current control key. */
  predicate DeviceHasCounter(db: Db, account: string)
    requires account in db.devices
  {
    && CanonicalKey(account)
    && CanonicalKey(db.devices[account])
    && CounterKey(account, account, db.devices[account]) in db.sequences
  }

  /** A counter stands exactly where the numbers handed out since the last removal put it. */
  predicate CounterExact(run: Run, account: string, owner: string, control: string) {
    var key := CounterKey(account, owner, control);
    if key in run.db.sequences
    then
      && run.db.sequences[key].counter >= 0
      && Numbers(run.log, account, key) == UpTo(run.db.sequences[key].counter)
    else Numbers(run.log, account, key) == []
  }

  predicate Named(account: string, owner: string, control: string) {
    CanonicalKey(account) && CanonicalKey(owner) && CanonicalKey(control)
  }

  ghost predicate Inv(run: Run) {
    && B.AllValid(run.db.sequences)
    && (forall a | a in run.db.devices :: DeviceHasCounter(run.db, a))
    && (forall a, o, c | Named(a, o, c) :: CounterExact(run, a, o, c))
  }

  lemma NumbersStep(log: seq<Entry>, e: Entry, account: string, key: string)
    ensures Numbers(log + [e], account, key) == Extended(Numbers(log, account, key), e, account, key)
  {
    assert (log + [e])[..|log|] == log;
  }

  /** The key of a counter says whose it is. */
  lemma CounterKeyNames(a: string, o: string, c: string, a': string, o': string, c': string)
    requires Named(a, o, c) && Named(a', o', c')
    requires CounterKey(a, o, c) == CounterKey(a', o', c')
    ensures a == a' && o == o' && c == c'
  {
    B.SequenceKeyInjective(a, o, PUBLISHER_PREFIX + c, a', o', PUBLISHER_PREFIX + c');
    assert c == (PUBLISHER_PREFIX + c)[|PUBLISHER_PREFIX|..];
    assert c' == (PUBLISHER_PREFIX + c')[|PUBLISHER_PREFIX|..];
  }

  /** A valid record under a counter's key is that account's, and a counter. */
  lemma StoredCounter(store: B.Store, a: string, o: string, c: string)
    requires B.AllValid(store) && Named(a, o, c) && CounterKey(a, o, c) in store
    ensures var r := store[CounterKey(a, o, c)];
            r.accountId == a && r.kind == B.PublisherKind && r.counter >= 0
  {
    var r := store[CounterKey(a, o, c)];
    B.SequenceKeyInjective(r.accountId, r.identity, r.scope, a, o, PUBLISHER_PREFIX + c);
    assert PUBLISHER_PREFIX <= PUBLISHER_PREFIX + c;
  }

  lemma PublisherScopeValid(c: string)
    requires CanonicalKey(c)
    ensures B.ValidScopeText(PUBLISHER_PREFIX + c) && Reserved(PUBLISHER_PREFIX + c)
  {
    hide ScopeChar;
    PrefixesValid();
    PrefixedKeyIsScope(PUBLISHER_PREFIX, c);
    assert (PUBLISHER_PREFIX + c)[|PUBLISHER_PREFIX|..] == c;
  }

  lemma CounterValid(a: string, o: string, c: string, n: int)
    requires Named(a, o, c) && 0 <= n <= B.MAX_SAFE_INTEGER
    ensures B.StoredValid(Counter(a, o, c, n))
  {
    hide CanonicalKey, B.ValidScopeText, Reserved;
    PublisherScopeValid(c);
  }

  /** Adding a counter at zero where there was none. */
  lemma AddedExact(run: Run, db: Db, r: B.SequenceRecord, account: string, owner: string, control: string)
    requires Inv(run) && Named(account, owner, control) && r == Counter(account, owner, control, 0)
    requires r.key !in run.db.sequences && db.sequences == run.db.sequences[r.key := r]
    ensures B.AllValid(db.sequences)
    ensures forall a, o, c | Named(a, o, c) :: CounterExact(Run(db, run.log), a, o, c)
  {
    hide B.StoredValid, B.SequenceKey, Named, Numbers;
    CounterValid(account, owner, control, 0);
    forall a, o, c | Named(a, o, c) ensures CounterExact(Run(db, run.log), a, o, c) {
      assert CounterExact(run, a, o, c);
      if CounterKey(a, o, c) == r.key { CounterKeyNames(a, o, c, account, owner, control); }
    }
  }

  lemma RemoveKeeps(run: Run, account: string, bytes: B.Store -> nat)
    requires Inv(run) && CanonicalKey(account)
    ensures Inv(Step(run, Remove(account), bytes))
  {
    hide B.StoredValid, B.SequenceKey, CanonicalKey, CounterKey, Numbers;
    var t := Step(run, Remove(account), bytes);
    assert t.log == run.log + [Removed(account)];
    forall a, o, c | Named(a, o, c) ensures CounterExact(t, a, o, c) {
      assert CounterExact(run, a, o, c);
      NumbersStep(run.log, Removed(account), a, CounterKey(a, o, c));
      if CounterKey(a, o, c) in run.db.sequences { StoredCounter(run.db.sequences, a, o, c); }
    }
    forall a | a in t.db.devices ensures DeviceHasCounter(t.db, a) {
      assert DeviceHasCounter(run.db, a);
      StoredCounter(run.db.sequences, a, a, run.db.devices[a]);
    }
  }

  lemma NextKeeps(run: Run, account: string, owner: string, control: string, bytes: B.Store -> nat)
    requires Inv(run) && Committed(run.db, Next(account, owner, control), bytes).Some?
    ensures Inv(Step(run, Next(account, owner, control), bytes))
  {
    hide B.SequenceKey, CanonicalKey, CounterKey, Numbers, ChangeFits, B.ValidScopeText;
    var t := Step(run, Next(account, owner, control), bytes);
    var key := CounterKey(account, owner, control);
    var n := run.db.sequences[key].counter;
    assert t.log == run.log + [Numbered(key, n + 1)];
    StoredCounter(run.db.sequences, account, owner, control);
    assert CounterExact(run, account, owner, control);
    assert UpTo(n) + [n + 1] == UpTo(n + 1);
    forall a, o, c | Named(a, o, c) ensures CounterExact(t, a, o, c) {
      assert CounterExact(run, a, o, c);
      NumbersStep(run.log, Numbered(key, n + 1), a, CounterKey(a, o, c));
      if CounterKey(a, o, c) == key { CounterKeyNames(a, o, c, account, owner, control); }
    }
  }

  /** A committed batch keeps every record valid and touches no counter. */
  lemma RecordedValid(store: B.Store, account: string, inputs: seq<B.Input>, bytes: B.Store -> nat, next: B.Store)
    requires B.AllValid(store) && B.BatchRecorded(store, account, inputs, bytes) == Some(next)
    ensures B.AllValid(next)
    ensures forall k | k in store :: k in next && (store[k].kind == B.PublisherKind ==> next[k] == store[k])
    ensures forall k | k in next && k !in store :: next[k].kind == B.AuthenticatedKind
  {
    hide B.StoredValid, B.ObservedRecord, B.Keyed, CanonicalKey, B.Agreeing;
    var records := B.Observed(account, inputs);
    forall k | k in B.Keyed(records)
      ensures B.Keyed(records)[k].key == k && B.StoredValid(B.Keyed(records)[k])
      ensures B.Keyed(records)[k].kind == B.AuthenticatedKind
    {
      B.KeyedLookup(records, k);
      var i :| 0 <= i < |records| && records[i] == B.Keyed(records)[k];
      B.ObservedValid(account, inputs[i]);
    }
  }

  lemma RecordKeeps(run: Run, account: string, inputs: seq<B.Input>, bytes: B.Store -> nat)
    requires Inv(run) && Committed(run.db, Record(account, inputs), bytes).Some?
    ensures Inv(Step(run, Record(account, inputs), bytes))
  {
    hide B.StoredValid, B.SequenceKey, CanonicalKey, CounterKey, Numbers, B.BatchRecorded;
    var t := Step(run, Record(account, inputs), bytes);
    RecordedValid(run.db.sequences, account, inputs, bytes, t.db.sequences);
    assert t.log == run.log;
    forall a, o, c | Named(a, o, c) ensures CounterExact(t, a, o, c) {
      assert CounterExact(run, a, o, c);
      if CounterKey(a, o, c) in run.db.sequences { StoredCounter(run.db.sequences, a, o, c); }
      if CounterKey(a, o, c) in t.db.sequences { StoredCounter(t.db.sequences, a, o, c); }
    }
  }

  lemma AddKeeps(run: Run, t: Transaction, bytes: B.Store -> nat)
    requires Inv(run) && Committed(run.db, t, bytes).Some?
    requires t.SaveNew? || t.Replace? || t.Initialize?
    ensures Inv(Step(run, t, bytes))
  {
    hide B.StoredValid, B.SequenceKey, CanonicalKey, Numbers, CandidateFits, ChangeFits, B.AllValid;
    var after := Step(run, t, bytes);
    assert after.log == run.log;
    var owner := if t.Initialize? then t.owner else t.account;
    AddedExact(run, after.db, Counter(t.account, owner, t.control, 0), t.account, owner, t.control);
    forall a | a in after.db.devices ensures DeviceHasCounter(after.db, a) {
      if a in run.db.devices { assert DeviceHasCounter(run.db, a); }
    }
  }

  lemma StepKeeps(run: Run, t: Transaction, bytes: B.Store -> nat)
    requires Inv(run)
    ensures Inv(Step(run, t, bytes))
  {
    hide Inv;
    hide B.StoredValid, B.SequenceKey, CanonicalKey, Numbers, CandidateFits, ChangeFits, B.AllValid, B.BatchRecorded;
    if Committed(run.db, t, bytes).Some? {
      match t
      case Remove(account) => RemoveKeeps(run, account, bytes);
      case Next(account, owner, control) => NextKeeps(run, account, owner, control, bytes);
      case Record(account, inputs) => RecordKeeps(run, account, inputs, bytes);
      case _ => AddKeeps(run, t, bytes);
    }
  }

  lemma {:induction false} RunKeeps(transactions: seq<Transaction>, bytes: B.Store -> nat)
    ensures Inv(Execute(transactions, bytes))
    decreases |transactions|
  {
    hide Step;
    if transactions != [] {
      RunKeeps(transactions[..|transactions| - 1], bytes);
      StepKeeps(Execute(transactions[..|transactions| - 1], bytes), transactions[|transactions| - 1], bytes);
    }
  }

  // ---------------------------------------------------------------- what the transactions promise

  /** The counters an account holds. */
  function CountersOf(db: Db, account: string): set<string> {
    set k | k in db.sequences && db.sequences[k].accountId == account && db.sequences[k].kind == B.PublisherKind
  }

  /**
    A first device is saved exactly if the account has no device and no counter at all and the new counter fits;
    it then holds exactly that counter, at zero, and every other record is as it was.
  */
  lemma FirstDeviceExactly(transactions: seq<Transaction>, bytes: B.Store -> nat, account: string, control: string)
    ensures var db := Execute(transactions, bytes).db;
            var after := Committed(db, SaveNew(account, control), bytes);
            var counter := Counter(account, account, control, 0);
            && (after.Some? <==>
                  && CanonicalKey(account) && CanonicalKey(control)
                  && account !in db.devices.Keys && CountersOf(db, account) == {}
                  && |db.sequences| < 4_096
                  && bytes(db.sequences[counter.key := counter]) <= 1_048_576)
            && (after.Some? ==>
                  && CountersOf(after.value.db, account) == {counter.key}
                  && after.value.db.devices == db.devices[account := control]
                  && after.value.db.sequences == db.sequences[counter.key := counter])
  {
    hide Execute, B.StoredValid, CanonicalKey, Numbers, CounterKey;
    RunKeeps(transactions, bytes);
    var db := Execute(transactions, bytes).db;
    if CanonicalKey(account) && CanonicalKey(control) {
      CounterValid(account, account, control, 0);
      if CounterKey(account, account, control) in db.sequences {
        StoredCounter(db.sequences, account, account, control);
        assert CounterKey(account, account, control) in CountersOf(db, account);
      }
    }
    assert CountersOf(db, account) == {} <==> !HasPublisher(db.sequences, account) by {
      if HasPublisher(db.sequences, account) {
        var k :| k in db.sequences && db.sequences[k].accountId == account && db.sequences[k].kind == B.PublisherKind;
        assert k in CountersOf(db, account);
      }
    }
  }

  /**
    A counter is made exactly for well-formed names where there is none and it fits; a number is handed out exactly
    if there is a counter below 2^53 - 1 and the changed store fits.
  */
  lemma CountersExactly(
    transactions: seq<Transaction>, bytes: B.Store -> nat, account: string, owner: string, control: string)
    ensures var db := Execute(transactions, bytes).db;
            var key := CounterKey(account, owner, control);
            var made := Committed(db, Initialize(account, owner, control), bytes);
            var used := Committed(db, Next(account, owner, control), bytes);
            && (made.Some? <==>
                  && Named(account, owner, control) && key !in db.sequences.Keys && |db.sequences| < 4_096
                  && bytes(db.sequences[key := Counter(account, owner, control, 0)]) <= 1_048_576)
            && (made.Some? ==>
                  made.value
                  == Outcome(Db(db.devices, db.sequences[key := Counter(account, owner, control, 0)]), None))
            && (used.Some? <==>
                  && Named(account, owner, control) && key in db.sequences.Keys
                  && db.sequences[key].counter < 9_007_199_254_740_991
                  && bytes(db.sequences[key := Counter(account, owner, control, db.sequences[key].counter + 1)])
                     <= 1_048_576)
            && (used.Some? ==>
                  var next := db.sequences[key].counter + 1;
                  used.value == Outcome(
                    Db(db.devices, db.sequences[key := Counter(account, owner, control, next)]), Some(next)))
  {
    hide Execute, B.StoredValid, CanonicalKey, Numbers, CounterKey;
    RunKeeps(transactions, bytes);
    RunFits(transactions, bytes);
    var db := Execute(transactions, bytes).db;
    var key := CounterKey(account, owner, control);
    InsertSize(db.sequences, key, Counter(account, owner, control, 0));
    if Named(account, owner, control) && key in db.sequences {
      CounterIs(db.sequences, account, owner, control);
      InsertSize(db.sequences, key, Counter(account, owner, control, db.sequences[key].counter + 1));
    }
  }

  /** The record under a counter's key is that counter. */
  lemma CounterIs(store: B.Store, a: string, o: string, c: string)
    requires B.AllValid(store) && Named(a, o, c) && CounterKey(a, o, c) in store
    ensures store[CounterKey(a, o, c)] == Counter(a, o, c, store[CounterKey(a, o, c)].counter)
  {
    var r := store[CounterKey(a, o, c)];
    B.SequenceKeyInjective(r.accountId, r.identity, r.scope, a, o, PUBLISHER_PREFIX + c);
    assert PUBLISHER_PREFIX <= PUBLISHER_PREFIX + c;
  }

  /** A device is rotated exactly if it is the one named, to a key without a counter, for which one fits. */
  lemma RotationExactly(
    transactions: seq<Transaction>, bytes: B.Store -> nat, account: string, previous: string, control: string)
    ensures var db := Execute(transactions, bytes).db;
            var counter := Counter(account, account, control, 0);
            Committed(db, Replace(account, previous, control), bytes).Some?
            <==> && CanonicalKey(account) && CanonicalKey(previous) && CanonicalKey(control) && previous != control
                 && account in db.devices.Keys && db.devices[account] == previous
                 && counter.key !in db.sequences.Keys && |db.sequences| < 4_096
                 && bytes(db.sequences[counter.key := counter]) <= 1_048_576
  {
    hide Execute, B.StoredValid, CanonicalKey, Numbers, CounterKey;
    RunKeeps(transactions, bytes);
    if CanonicalKey(account) && CanonicalKey(control) { CounterValid(account, account, control, 0); }
  }

  /** Whatever was tampered with: a record the reader would not accept, or too many, stop every change but a removal. */
  lemma TamperedStoreIsRefused(db: Db, t: Transaction, bytes: B.Store -> nat)
    requires || |db.sequences| > 4_096
             || exists k | k in db.sequences :: db.sequences[k].key != k || !B.StoredValid(db.sequences[k])
    requires !t.Remove? && (t.Record? ==> t.inputs != [])
    ensures Committed(db, t, bytes).None?
  {
    hide B.StoredValid, CanonicalKey, CounterKey, HasPublisher, B.AllReplace, B.Agreeing, B.InputsValid, B.Observed,
      B.Keyed, B.Over;
    if t.Record? {
      B.BatchExactly(db.sequences, t.account, t.inputs, bytes);
    }
  }

  /** A device is never rotated to the key it has, nor given a malformed one. */
  lemma RotationChangesKey(db: Db, account: string, previous: string, control: string, bytes: B.Store -> nat)
    requires previous == control || !CanonicalKey(control)
    ensures Committed(db, Replace(account, previous, control), bytes).None?
    ensures !CanonicalKey(control) ==> Committed(db, SaveNew(account, control), bytes).None?
  {
  }

  /** A removal takes exactly what is the account's: its device and all its records, and nothing of any other. */
  lemma RemovalExactly(db: Db, account: string, bytes: B.Store -> nat)
    requires Committed(db, Remove(account), bytes).Some?
    ensures var after := Committed(db, Remove(account), bytes).value.db;
            && account !in after.devices.Keys
            && (forall a | a in db.devices && a != account :: a in after.devices && after.devices[a] == db.devices[a])
            && (forall k :: k in after.sequences <==> k in db.sequences && db.sequences[k].accountId != account)
            && (forall k | k in after.sequences :: after.sequences[k] == db.sequences[k])
  {
  }

  /** What every record of every run looks like. */
  lemma EveryRecordIsSound(transactions: seq<Transaction>, bytes: B.Store -> nat, key: string)
    requires key in Execute(transactions, bytes).db.sequences
    ensures |Execute(transactions, bytes).db.sequences| <= 4_096
    ensures var r := Execute(transactions, bytes).db.sequences[key];
            && r.key == key && key == r.accountId + "\0" + r.identity + "\0" + r.scope
            && CanonicalKey(r.accountId) && CanonicalKey(r.identity)
            && 1 <= |r.scope| <= 128 && (forall x | x in r.scope :: ScopeChar(x))
            && (r.kind == B.PublisherKind <==> PUBLISHER_PREFIX <= r.scope)
            && (r.kind == B.PublisherKind ==>
                  CanonicalKey(r.scope[|PUBLISHER_PREFIX|..]) && 0 <= r.counter && r.digest.None?)
            && (r.kind == B.AuthenticatedKind ==>
                  && 0 < r.counter && r.digest.Some? && |r.digest.value| == 43
                  && forall x | x in r.digest.value :: B.DigestChar(x))
            && r.counter <= 9_007_199_254_740_991
  {
    hide Execute, CanonicalKey, Numbers, ScopeChar;
    RunKeeps(transactions, bytes);
    RunFits(transactions, bytes);
    var r := Execute(transactions, bytes).db.sequences[key];
    assert B.StoredValid(r);
  }

  lemma {:induction false} RunFits(transactions: seq<Transaction>, bytes: B.Store -> nat)
    ensures |Execute(transactions, bytes).db.sequences| <= B.MAX_SEQUENCE_ENTRIES
    decreases |transactions|
  {
    if transactions != [] {
      RunFits(transactions[..|transactions| - 1], bytes);
      StepFits(Execute(transactions[..|transactions| - 1], bytes), transactions[|transactions| - 1], bytes);
    }
  }

  lemma StepFits(run: Run, t: Transaction, bytes: B.Store -> nat)
    requires |run.db.sequences| <= B.MAX_SEQUENCE_ENTRIES
    ensures |Step(run, t, bytes).db.sequences| <= B.MAX_SEQUENCE_ENTRIES
  {
    hide B.AllValid, B.StoredValid, CanonicalKey, CounterKey, HasPublisher, B.AllReplace, B.Agreeing, B.InputsValid,
      B.Observed, B.Keyed, B.Over;
    var store := run.db.sequences;
    match t
    case SaveNew(account, control) =>
      var made := Counter(account, account, control, 0);
      InsertSize(store, made.key, made);
    case Replace(account, _, control) =>
      var made := Counter(account, account, control, 0);
      InsertSize(store, made.key, made);
    case Remove(account) => SubsetSize(Without(store, account).Keys, store.Keys);
    case _ =>
  }

  /** In every run, a stored device has a counter for its current control key. */
  lemma EveryDeviceHasCounter(transactions: seq<Transaction>, bytes: B.Store -> nat, account: string)
    requires account in Execute(transactions, bytes).db.devices
    ensures var db := Execute(transactions, bytes).db;
            var key := CounterKey(account, account, db.devices[account]);
            key in db.sequences && db.sequences[key].kind == B.PublisherKind
  {
    hide Execute, B.StoredValid, CanonicalKey;
    RunKeeps(transactions, bytes);
    var db := Execute(transactions, bytes).db;
    assert DeviceHasCounter(db, account);
    StoredCounter(db.sequences, account, account, db.devices[account]);
  }

  /** In every run, the numbers handed out for a counter since its account was last removed are exactly 1, 2, 3, ... */
  lemma NumbersAreConsecutive(
    transactions: seq<Transaction>, bytes: B.Store -> nat, account: string, owner: string, control: string)
    requires Named(account, owner, control)
    ensures var numbers := Numbers(Execute(transactions, bytes).log, account, CounterKey(account, owner, control));
            numbers == UpTo(|numbers|)
  {
    hide Execute, B.StoredValid, CanonicalKey, Numbers;
    RunKeeps(transactions, bytes);
    assert CounterExact(Execute(transactions, bytes), account, owner, control);
  }

  /**
    In every run, rotation replaces the device and adds its counter together, keeping every earlier
    counter, or changes nothing at all; and it never brings back a control key that still has a counter.
  */
  lemma RotationIsAtomic(
    transactions: seq<Transaction>, bytes: B.Store -> nat, account: string, previous: string, control: string)
    ensures var before := Execute(transactions, bytes);
            var after := Step(before, Replace(account, previous, control), bytes);
            var key := CounterKey(account, account, control);
            || after == before
            || (&& account in before.db.devices
                && after.db.devices == before.db.devices[account := control]
                && key !in before.db.sequences
                && after.db.sequences == before.db.sequences[key := Counter(account, account, control, 0)]
                && CounterKey(account, account, previous) in after.db.sequences
                && Numbers(after.log, account, key) == [])
  {
    hide Execute, B.StoredValid, B.SequenceKey, CanonicalKey, Numbers, CandidateFits;
    RunKeeps(transactions, bytes);
    var before := Execute(transactions, bytes);
    if Committed(before.db, Replace(account, previous, control), bytes).Some? {
      assert DeviceHasCounter(before.db, account);
      assert CounterExact(before, account, account, control);
      assert Step(before, Replace(account, previous, control), bytes).log == before.log;
    }
  }
}
