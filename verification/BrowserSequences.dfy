/**
  The browser's sequence records (crates/browser-wasm/js/browser_store.js): validation, and the
  check-all-then-write batch that IndexedDB runs as one transaction.
*/
module BrowserSequences {
  import opened Base
  import opened Text
  import opened SequenceKeys

  const MAX_SAFE_INTEGER: int := 0x1F_FFFF_FFFF_FFFF
  const MAX_SEQUENCE_ENTRIES: int := 4_096
  const MAX_SEQUENCE_BYTES: int := 1024 * 1024
  const MAX_BATCH: int := 128
  const NUL: char := '\0'

  datatype Kind = PublisherKind | AuthenticatedKind

  datatype SequenceRecord = SequenceRecord(
    key: string, accountId: string, identity: string, scope: string, kind: Kind, counter: int,
    digest: Option<string>)

  /** An object store whose key path is `key`. */
  type Store = map<string, SequenceRecord>

  datatype Input = Input(identity: string, scope: string, counter: int, digest: string)

  datatype Error =
    | InvalidPubky
    | SequenceInvalid
    | BatchConflict
    | Rollback
    | Equivocation
    | Limit
    | Tampered

  // ---------------------------------------------------------------- validation

  predicate DigestChar(c: char) {
    'a' <= c <= 'z' || 'A' <= c <= 'Z' || '0' <= c <= '9' || c == '-' || c == '_'
  }

  predicate ValidDigestText(digest: string) {
    |digest| == 43 && forall i :: 0 <= i < |digest| ==> DigestChar(digest[i])
  }

  /** `validateScope`. */
  predicate ValidScopeText(scope: string) {
    ValidScope(scope) && (Reserved(scope) ==> ValidPublisherScope(scope))
  }

  predicate SafeCounter(counter: int, least: int) {
    least <= counter <= MAX_SAFE_INTEGER
  }

  /** `sequenceKey`, after its parts were validated. */
  function SequenceKey(account: string, identity: string, scope: string): string {
    account + [NUL] + (identity + [NUL] + scope)
  }

  /** `validateObservation`. */
  function ObservedRecord(account: string, o: Input): Option<SequenceRecord> {
    if && CanonicalKey(o.identity)
       && ValidScopeText(o.scope)
       && !Reserved(o.scope)
       && SafeCounter(o.counter, 1)
       && ValidDigestText(o.digest)
    then Some(SequenceRecord(
                SequenceKey(account, o.identity, o.scope), account, o.identity, o.scope, AuthenticatedKind,
                o.counter, Some(o.digest)))
    else None
  }

  /** `validateStoredSequence`. */
  predicate StoredValid(r: SequenceRecord) {
    && CanonicalKey(r.accountId)
    && CanonicalKey(r.identity)
    && ValidScopeText(r.scope)
    && (r.kind == PublisherKind <==> Reserved(r.scope))
    && SafeCounter(r.counter, if r.kind == PublisherKind then 0 else 1)
    && (r.kind == AuthenticatedKind ==> r.digest.Some? && ValidDigestText(r.digest.value))
    && (r.kind == PublisherKind ==> r.digest.None?)
    && r.key == SequenceKey(r.accountId, r.identity, r.scope)
  }

  /** Every record lies under its own key and passes `validateStoredSequence`. */
  predicate AllValid(store: Store) {
    forall k | k in store :: store[k].key == k && StoredValid(store[k])
  }

  lemma SequenceKeySplits(account: string, identity: string, scope: string)
    requires CanonicalKey(account) && CanonicalKey(identity)
    ensures SplitOnce(SequenceKey(account, identity, scope), NUL) == Some(Split(account, identity + [NUL] + scope))
    ensures SplitOnce(identity + [NUL] + scope, NUL) == Some(Split(identity, scope))
  {
    assert NUL !in Z32_ALPHABET;
    assert forall i :: 0 <= i < |account| ==> account[i] in Z32_ALPHABET;
    assert forall i :: 0 <= i < |identity| ==> identity[i] in Z32_ALPHABET;
    SplitOnceJoin(account, NUL, identity + [NUL] + scope);
    SplitOnceJoin(identity, NUL, scope);
  }

  /** Different (account, identity, scope) triples never share a key. */
  lemma SequenceKeyInjective(
    account: string, identity: string, scope: string, account': string, identity': string, scope': string)
    requires CanonicalKey(account) && CanonicalKey(identity) && CanonicalKey(account') && CanonicalKey(identity')
    requires SequenceKey(account, identity, scope) == SequenceKey(account', identity', scope')
    ensures account == account' && identity == identity' && scope == scope'
  {
    SequenceKeySplits(account, identity, scope);
    SequenceKeySplits(account', identity', scope');
  }

  // ---------------------------------------------------------------- specification of a batch

  predicate InputsValid(account: string, inputs: seq<Input>) {
    forall i :: 0 <= i < |inputs| ==> ObservedRecord(account, inputs[i]).Some?
  }

  function Observed(account: string, inputs: seq<Input>): seq<SequenceRecord>
    requires InputsValid(account, inputs)
  {
    seq(|inputs|, i requires 0 <= i < |inputs| => ObservedRecord(account, inputs[i]).value)
  }

  predicate Agreeing(records: seq<SequenceRecord>) {
    forall i, j :: 0 <= i < j < |records| && records[i].key == records[j].key ==> records[i] == records[j]
  }

  /** The records by their keys. */
  function Keyed(records: seq<SequenceRecord>): Store {
    if records == [] then map[] else
    var last := records[|records| - 1];
    Keyed(records[..|records| - 1])[last.key := last]
  }

  /** A record may replace what is stored: nothing, a lower counter, or itself. */
  predicate Replaces(store: Store, r: SequenceRecord) {
    r.key in store ==>
      && store[r.key].kind == AuthenticatedKind
      && (store[r.key].counter < r.counter || store[r.key] == r)
  }

  predicate AllReplace(store: Store, prepared: Store) {
    forall k | k in prepared :: Replaces(store, prepared[k])
  }

  predicate Fits(store: Store, bytes: Store -> nat) {
    |store| <= MAX_SEQUENCE_ENTRIES && bytes(store) <= MAX_SEQUENCE_BYTES
  }

  /** The store with every changed record put. */
  function Over(store: Store, changes: Store): Store {
    store + changes
  }

  /** `__p2pRecordSequenceBatch` as one transaction: the whole batch or nothing of it. */
  function BatchRecorded(store: Store, account: string, inputs: seq<Input>, bytes: Store -> nat): Option<Store> {
    if !CanonicalKey(account) || |inputs| > MAX_BATCH || !InputsValid(account, inputs) then None else
    var records := Observed(account, inputs);
    if !Agreeing(records) then None else
    if records == [] then Some(store) else
    var next := Over(store, Keyed(records));
    if && |store| <= MAX_SEQUENCE_ENTRIES
       && AllValid(store)
       && AllReplace(store, Keyed(records))
       && Fits(next, bytes)
    then Some(next)
    else None
  }

  /** Exactly the keys of the records, each with a record that has it. */
  lemma {:induction false} KeyedLookup(records: seq<SequenceRecord>, key: string)
    ensures key in Keyed(records) <==> exists i :: 0 <= i < |records| && records[i].key == key
    ensures key in Keyed(records) ==> Keyed(records)[key].key == key && Keyed(records)[key] in records
    ensures Agreeing(records) ==>
              forall i :: 0 <= i < |records| && records[i].key == key ==> Keyed(records)[key] == records[i]
  {
    if records != [] {
      var rest := records[..|records| - 1];
      KeyedLookup(rest, key);
      assert forall i :: 0 <= i < |rest| ==> rest[i] == records[i];
    }
  }

  // ---------------------------------------------------------------- the loops

  /** Valid records under one key differ only in counter, digest and kind. */
  lemma SameKeySameRecord(a: SequenceRecord, b: SequenceRecord)
    requires StoredValid(a) && StoredValid(b)
    requires a.key == b.key && a.kind == b.kind
    ensures a == b <==> a.counter == b.counter && a.digest == b.digest
  {
    SequenceKeyInjective(a.accountId, a.identity, a.scope, b.accountId, b.identity, b.scope);
  }

  lemma ObservedValid(account: string, o: Input)
    requires CanonicalKey(account) && ObservedRecord(account, o).Some?
    ensures var r := ObservedRecord(account, o).value;
            StoredValid(r) && r.kind == AuthenticatedKind && r.accountId == account
  {
  }

  /** What every record of a validated batch is like. */
  predicate Authentic(r: SequenceRecord) {
    StoredValid(r) && r.kind == AuthenticatedKind
  }

  lemma AgreeingStep(records: seq<SequenceRecord>, r: SequenceRecord)
    requires Agreeing(records)
    ensures Agreeing(records + [r]) <==> (r.key in Keyed(records) ==> Keyed(records)[r.key] == r)
    ensures Keyed(records + [r]) == Keyed(records)[r.key := r]
  {
    KeyedLookup(records, r.key);
    assert (records + [r])[..|records|] == records;
    assert forall i :: 0 <= i < |records| ==> (records + [r])[i] == records[i];
  }

  lemma ObservedStep(account: string, inputs: seq<Input>, i: int)
    requires 0 <= i < |inputs| && InputsValid(account, inputs[..i]) && ObservedRecord(account, inputs[i]).Some?
    ensures InputsValid(account, inputs[..i + 1])
    ensures Observed(account, inputs[..i + 1])
            == Observed(account, inputs[..i]) + [ObservedRecord(account, inputs[i]).value]
    ensures InputsValid(account, inputs) && Agreeing(Observed(account, inputs))
            ==> Agreeing(Observed(account, inputs[..i + 1]))
  {
    hide ObservedRecord;
    assert forall j :: 0 <= j < i ==> inputs[..i + 1][j] == inputs[..i][j];
    assert forall j :: 0 <= j < i + 1 ==> inputs[..i + 1][j] == inputs[j];
    if InputsValid(account, inputs) {
      var part, whole := Observed(account, inputs[..i + 1]), Observed(account, inputs);
      assert forall j :: 0 <= j < i + 1 ==> part[j] == whole[j];
      if Agreeing(whole) {
        forall j, k | 0 <= j < k < i + 1 && part[j].key == part[k].key ensures part[j] == part[k] {
          assert whole[j] == whole[k];
        }
      }
    }
  }

  /** The first loop: validate every observation and refuse conflicting duplicates. */
  method PrepareInputs(account: string, inputs: seq<Input>) returns (r: Result<Store, Error>)
    requires CanonicalKey(account)
    ensures r.Ok? <==> InputsValid(account, inputs) && Agreeing(Observed(account, inputs))
    ensures r.Ok? ==> r.value == Keyed(Observed(account, inputs))
    ensures r.Ok? ==> forall k | k in r.value :: r.value[k].key == k && Authentic(r.value[k])
  {
    hide ObservedRecord, StoredValid, Keyed, Observed, Agreeing;
    var prepared: Store := map[];
    var i := 0;
    NothingObserved(account);
    assert inputs[..0] == [];
    while i < |inputs|
      invariant 0 <= i <= |inputs|
      invariant InputsValid(account, inputs[..i]) && Agreeing(Observed(account, inputs[..i]))
      invariant prepared == Keyed(Observed(account, inputs[..i]))
      invariant forall k | k in prepared :: prepared[k].key == k && Authentic(prepared[k])
    {
      var observed := ObservedRecord(account, inputs[i]);
      if observed.None? { return Err(SequenceInvalid); }
      var observation := observed.value;
      ObservedValid(account, inputs[i]);
      ObservedStep(account, inputs, i);
      AgreeingStep(Observed(account, inputs[..i]), observation);
      if observation.key in prepared {
        var duplicate := prepared[observation.key];
        SameKeySameRecord(duplicate, observation);
        if duplicate.counter != observation.counter || duplicate.digest != observation.digest {
          return Err(BatchConflict);
        }
      }
      prepared := prepared[observation.key := observation];
      i := i + 1;
    }
    assert inputs[..i] == inputs;
    r := Ok(prepared);
  }

  lemma NothingObserved(account: string)
    ensures Observed(account, []) == [] && Agreeing([]) && Keyed([]) == map[]
  {
  }

  /** The second loop: every observation is compared with the store before anything is staged. */
  method CheckAll(current: Store, prepared: Store) returns (r: Result<(), Error>)
    requires AllValid(current)
    requires forall k | k in prepared :: prepared[k].key == k && Authentic(prepared[k])
    ensures r.Ok? <==> AllReplace(current, prepared)
  {
    hide StoredValid;
    var remaining := prepared.Keys;
    while remaining != {}
      invariant remaining <= prepared.Keys
      invariant forall k | k in prepared && k !in remaining :: Replaces(current, prepared[k])
      decreases |remaining|
    {
      var key :| key in remaining;
      var observation := prepared[key];
      if key in current {
        var previous := current[key];
        if previous.kind == PublisherKind { return Err(SequenceInvalid); }
        SameKeySameRecord(previous, observation);
        if observation.counter < previous.counter { return Err(Rollback); }
        if observation.counter == previous.counter && observation.digest != previous.digest {
          return Err(Equivocation);
        }
      }
      remaining := remaining - {key};
    }
    r := Ok(());
  }

  datatype Staged = Staged(current: Store, changed: seq<SequenceRecord>)

  /** The staged map once the keys in `done` were visited. */
  function Laid(store: Store, prepared: Store, done: set<string>): Store {
    Over(store, map k | k in prepared && k in done :: prepared[k])
  }

  lemma LaidStep(store: Store, prepared: Store, done: set<string>, key: string)
    requires key in prepared && key !in done
    ensures Laid(store, prepared, done + {key}) == Laid(store, prepared, done)[key := prepared[key]]
    ensures key in Laid(store, prepared, done) <==> key in store
    ensures key in store ==> Laid(store, prepared, done)[key] == store[key]
  {
  }

  lemma LaidEnds(store: Store, prepared: Store)
    ensures Laid(store, prepared, {}) == store && Over(store, map[]) == store
    ensures Laid(store, prepared, prepared.Keys) == Over(store, prepared)
  {
  }

  lemma SameEntry(m: Store, key: string)
    requires key in m
    ensures m[key := m[key]] == m
  {
  }

  /** The third loop: stage what is new, and list it for writing. */
  method StageAll(store: Store, prepared: Store) returns (r: Staged)
    requires AllValid(store)
    requires forall k | k in prepared :: prepared[k].key == k && Authentic(prepared[k])
    ensures r.current == Over(store, prepared)
    ensures r.current == Over(store, Keyed(r.changed))
  {
    hide StoredValid, Keyed, Laid, Over, AllValid, Authentic;
    var current, changed := store, [];
    var remaining := prepared.Keys;
    ghost var done: set<string> := {};
    NothingObserved("");
    LaidEnds(store, prepared);
    while remaining != {}
      invariant remaining + done == prepared.Keys && remaining !! done
      invariant current == Laid(store, prepared, done)
      invariant current == Over(store, Keyed(changed))
      decreases |remaining|
    {
      var key :| key in remaining;
      var observation := prepared[key];
      LaidStep(store, prepared, done, key);
      if key in store {
        SameUnlessChanged(store, key, observation);
        SameEntry(current, key);
      }
      if || key !in current
         || current[key].kind != AuthenticatedKind
         || observation.counter != current[key].counter
         || observation.digest != current[key].digest
      {
        PutStep(store, changed, observation);
        current := current[key := observation];
        changed := changed + [observation];
      }
      remaining := remaining - {key};
      done := done + {key};
    }
    r := Staged(current, changed);
  }

  lemma PutStep(store: Store, changed: seq<SequenceRecord>, r: SequenceRecord)
    ensures Over(store, Keyed(changed + [r])) == Over(store, Keyed(changed))[r.key := r]
  {
    KeyedAppend(changed, r);
  }

  lemma KeyedAppend(records: seq<SequenceRecord>, r: SequenceRecord)
    ensures Keyed(records + [r]) == Keyed(records)[r.key := r]
  {
    assert (records + [r])[..|records|] == records;
  }

  lemma SameUnlessChanged(store: Store, key: string, r: SequenceRecord)
    requires AllValid(store) && key in store && Authentic(r) && r.key == key
    ensures (&& store[key].kind == AuthenticatedKind
             && r.counter == store[key].counter
             && r.digest == store[key].digest) ==> r == store[key]
  {
    hide StoredValid;
    if store[key].kind == AuthenticatedKind { SameKeySameRecord(store[key], r); }
  }

  /** The fourth loop: put every changed record. */
  method PutAll(store: Store, changed: seq<SequenceRecord>) returns (written: Store)
    ensures written == Over(store, Keyed(changed))
  {
    written := store;
    for j := 0 to |changed|
      invariant written == Over(store, Keyed(changed[..j]))
    {
      assert changed[..j + 1] == changed[..j] + [changed[j]];
      PutStep(store, changed[..j], changed[j]);
      written := written[changed[j].key := changed[j]];
    }
    assert changed[..|changed|] == changed;
  }

  /** `__p2pRecordSequenceBatch`: prepare, then check all, stage all, bound and put in one transaction. */
  method RecordSequenceBatch(store: Store, account: string, inputs: seq<Input>, bytes: Store -> nat)
    returns (r: Result<Store, Error>)
    ensures r.Ok? <==> BatchRecorded(store, account, inputs, bytes).Some?
    ensures r.Ok? ==> r.value == BatchRecorded(store, account, inputs, bytes).value
  {
    hide ObservedRecord, StoredValid, CanonicalKey, Keyed, Agreeing, InputsValid, Observed, Authentic, AllReplace,
      AllValid, Over;
    if !CanonicalKey(account) { return Err(InvalidPubky); }
    if |inputs| > MAX_BATCH { return Err(SequenceInvalid); }
    var prepared := PrepareInputs(account, inputs);
    if prepared.Err? { return Err(prepared.error); }
    NothingKeyed(Observed(account, inputs));
    if prepared.value == map[] { return Ok(store); }
    if |store| > MAX_SEQUENCE_ENTRIES || !AllValid(store) { return Err(Tampered); }
    var checked := CheckAll(store, prepared.value);
    if checked.Err? { return Err(checked.error); }
    var staged := StageAll(store, prepared.value);
    if |staged.current| > MAX_SEQUENCE_ENTRIES { return Err(Limit); }
    if bytes(staged.current) > MAX_SEQUENCE_BYTES { return Err(Limit); }
    var written := PutAll(store, staged.changed);
    r := Ok(written);
  }

  lemma NothingKeyed(records: seq<SequenceRecord>)
    ensures Keyed(records) == map[] <==> records == []
  {
    if records != [] { assert records[|records| - 1].key in Keyed(records); }
  }

  /** An observation the browser can record. */
  predicate Recordable(o: Input) {
    && CanonicalKey(o.identity)
    && 1 <= |o.scope| <= 128 && (forall c | c in o.scope :: ScopeChar(c)) && !("v1:publisher:" <= o.scope)
    && 1 <= o.counter <= 9_007_199_254_740_991
    && |o.digest| == 43 && (forall c | c in o.digest :: DigestChar(c))
  }

  /** What is stored under the observation's name gives way to it: nothing, a lower counter, or the same record. */
  predicate GivesWay(store: Store, account: string, o: Input) {
    var key := account + "\0" + (o.identity + "\0" + o.scope);
    key in store ==>
      && store[key].kind == AuthenticatedKind
      && (store[key].counter < o.counter
          || store[key] == SequenceRecord(
               key, account, o.identity, o.scope, AuthenticatedKind, o.counter, Some(o.digest)))
  }

  lemma RecordableExactly(account: string, o: Input)
    ensures Recordable(o) <==> ObservedRecord(account, o).Some?
    ensures Recordable(o) ==>
              ObservedRecord(account, o).value
              == SequenceRecord(account + "\0" + (o.identity + "\0" + o.scope), account, o.identity, o.scope,
                                AuthenticatedKind, o.counter, Some(o.digest))
  {
    hide ScopeChar, DigestChar, CanonicalKey;
    assert forall i :: 0 <= i < |o.scope| ==> o.scope[i] in o.scope;
    assert forall i :: 0 <= i < |o.digest| ==> o.digest[i] in o.digest;
  }

  /** Observations of one name are the same observation. */
  predicate SameNameSame(a: Input, b: Input) {
    a.identity == b.identity && a.scope == b.scope ==> a == b
  }

  lemma AgreeingExactly(account: string, inputs: seq<Input>)
    requires CanonicalKey(account) && InputsValid(account, inputs)
    ensures Agreeing(Observed(account, inputs))
            <==> forall i, j :: 0 <= i < j < |inputs| ==> SameNameSame(inputs[i], inputs[j])
  {
    hide ObservedRecord, SequenceKey, CanonicalKey, Recordable;
    var records := Observed(account, inputs);
    forall i | 0 <= i < |inputs|
      ensures records[i] == SequenceRecord(records[i].key, account, inputs[i].identity, inputs[i].scope,
                                           AuthenticatedKind, inputs[i].counter, Some(inputs[i].digest))
      ensures CanonicalKey(inputs[i].identity)
      ensures records[i].key == SequenceKey(account, inputs[i].identity, inputs[i].scope)
    {
      ObservedIs(account, inputs[i]);
    }
    forall i, j | 0 <= i < j < |inputs|
      ensures records[i].key == records[j].key
              <==> inputs[i].identity == inputs[j].identity && inputs[i].scope == inputs[j].scope
    {
      if records[i].key == records[j].key {
        SequenceKeyInjective(account, inputs[i].identity, inputs[i].scope,
                             account, inputs[j].identity, inputs[j].scope);
      }
    }
  }

  lemma ObservedIs(account: string, o: Input)
    requires ObservedRecord(account, o).Some?
    ensures CanonicalKey(o.identity)
    ensures ObservedRecord(account, o).value
            == SequenceRecord(SequenceKey(account, o.identity, o.scope), account, o.identity, o.scope,
                              AuthenticatedKind, o.counter, Some(o.digest))
  {
  }

  lemma GivesWayExactly(store: Store, account: string, inputs: seq<Input>)
    requires InputsValid(account, inputs) && Agreeing(Observed(account, inputs))
    ensures AllReplace(store, Keyed(Observed(account, inputs)))
            <==> forall i :: 0 <= i < |inputs| ==> GivesWay(store, account, inputs[i])
  {
    hide ObservedRecord, Keyed, Agreeing, Recordable;
    var records := Observed(account, inputs);
    forall i | 0 <= i < |inputs|
      ensures records[i].key in Keyed(records) && Keyed(records)[records[i].key] == records[i]
      ensures Replaces(store, records[i]) <==> GivesWay(store, account, inputs[i])
    {
      KeyedLookup(records, records[i].key);
      RecordableExactly(account, inputs[i]);
    }
    forall k | k in Keyed(records) ensures exists i :: 0 <= i < |inputs| && records[i].key == k {
      KeyedLookup(records, k);
    }
  }

  /**
    A batch is recorded exactly if the account is well-formed, there are at most 128 observations, each can be
    recorded, those of one name agree, and, unless there are none, the store is sound, what it holds gives way to
    each, and the result fits.
  */
  lemma BatchExactly(store: Store, account: string, inputs: seq<Input>, bytes: Store -> nat)
    ensures BatchRecorded(store, account, inputs, bytes).Some?
            <==> && CanonicalKey(account)
                 && |inputs| <= 128
                 && (forall i :: 0 <= i < |inputs| ==> Recordable(inputs[i]))
                 && (forall i, j :: 0 <= i < j < |inputs| ==> SameNameSame(inputs[i], inputs[j]))
                 && InputsValid(account, inputs)
                 && (inputs != [] ==>
                       && |store| <= 4_096
                       && (forall k | k in store :: store[k].key == k && StoredValid(store[k]))
                       && (forall i :: 0 <= i < |inputs| ==> GivesWay(store, account, inputs[i]))
                       && |store + Keyed(Observed(account, inputs))| <= 4_096
                       && bytes(store + Keyed(Observed(account, inputs))) <= 1_048_576)
    ensures BatchRecorded(store, account, inputs, bytes).Some? ==>
              BatchRecorded(store, account, inputs, bytes).value == store + Keyed(Observed(account, inputs))
  {
    hide ObservedRecord, Keyed, Agreeing, Recordable, GivesWay, AllReplace, StoredValid, CanonicalKey, SameNameSame;
    forall i | 0 <= i < |inputs| ensures Recordable(inputs[i]) <==> ObservedRecord(account, inputs[i]).Some? {
      RecordableExactly(account, inputs[i]);
    }
    if CanonicalKey(account) && InputsValid(account, inputs) {
      AgreeingExactly(account, inputs);
      NothingKeyed(Observed(account, inputs));
      if Agreeing(Observed(account, inputs)) { GivesWayExactly(store, account, inputs); }
      if inputs == [] { NothingAdded(store); }
    }
  }

  lemma NothingAdded(store: Store)
    ensures store + map[] == store
  {
  }

  /** More than 128 observations, a malformed one, or two that disagree are refused whatever the store holds. */
  lemma BadBatchIsRefused(store: Store, account: string, inputs: seq<Input>, bytes: Store -> nat)
    requires || |inputs| > 128
             || (exists i :: 0 <= i < |inputs| && !(1 <= inputs[i].counter <= 9_007_199_254_740_991))
             || (exists i :: 0 <= i < |inputs| && |inputs[i].digest| != 43)
             || (exists i, c :: 0 <= i < |inputs| && c in inputs[i].digest && !DigestChar(c))
             || (exists i :: 0 <= i < |inputs| && "v1:publisher:" <= inputs[i].scope)
             || (exists i, j :: && 0 <= i < j < |inputs|
                                && inputs[i].identity == inputs[j].identity && inputs[i].scope == inputs[j].scope
                                && inputs[i] != inputs[j])
    ensures BatchRecorded(store, account, inputs, bytes).None?
  {
    hide CanonicalKey, AllValid, AllReplace, Keyed, SequenceKey;
    if InputsValid(account, inputs) {
      var records := Observed(account, inputs);
      if i, j :| && 0 <= i < j < |inputs|
                 && inputs[i].identity == inputs[j].identity && inputs[i].scope == inputs[j].scope
                 && inputs[i] != inputs[j] {
        assert records[i].key == records[j].key && records[i] != records[j];
      }
    }
  }

  // ---------------------------------------------------------------- order

  lemma {:induction false} SameElementsSameKeyed(a: seq<SequenceRecord>, b: seq<SequenceRecord>)
    requires forall r :: r in a <==> r in b
    requires Agreeing(a)
    ensures Agreeing(b) && Keyed(a) == Keyed(b)
  {
    hide Keyed;
    assert forall i :: 0 <= i < |a| ==> a[i] in b;
    assert forall i :: 0 <= i < |b| ==> b[i] in a;
    forall i, j | 0 <= i < j < |b| && b[i].key == b[j].key ensures b[i] == b[j] {
      var k :| 0 <= k < |a| && a[k] == b[i];
      var l :| 0 <= l < |a| && a[l] == b[j];
    }
    assert forall key :: (key in Keyed(a) <==> key in Keyed(b))
                         && (key in Keyed(a) ==> Keyed(a)[key] == Keyed(b)[key]) by {
      forall key
        ensures key in Keyed(a) <==> key in Keyed(b)
        ensures key in Keyed(a) ==> Keyed(a)[key] == Keyed(b)[key]
      {
        KeyedLookup(a, key);
        KeyedLookup(b, key);
      }
    }
  }

  /** The outcome of a batch does not depend on the order of its observations. */
  lemma InputOrderIrrelevant(store: Store, account: string, a: seq<Input>, b: seq<Input>, bytes: Store -> nat)
    requires multiset(a) == multiset(b)
    ensures BatchRecorded(store, account, a, bytes) == BatchRecorded(store, account, b, bytes)
  {
    hide ObservedRecord, StoredValid, CanonicalKey, Keyed, Agreeing;
    SameSize(a, b);
    assert forall o :: o in a <==> o in b by {
      assert forall o :: o in a <==> o in multiset(a);
      assert forall o :: o in b <==> o in multiset(b);
    }
    assert forall i :: 0 <= i < |a| ==> a[i] in b;
    assert forall i :: 0 <= i < |b| ==> b[i] in a;
    if InputsValid(account, a) {
      SameObserved(account, a, b);
      if Agreeing(Observed(account, a)) {
        SameElementsSameKeyed(Observed(account, a), Observed(account, b));
      }
      if Agreeing(Observed(account, b)) {
        SameElementsSameKeyed(Observed(account, b), Observed(account, a));
      }
    }
  }

  lemma SameSize(a: seq<Input>, b: seq<Input>)
    requires multiset(a) == multiset(b)
    ensures |a| == |b|
  {
    assert |multiset(a)| == |a| && |multiset(b)| == |b|;
  }

  lemma SameObserved(account: string, a: seq<Input>, b: seq<Input>)
    requires forall o :: o in a <==> o in b
    requires InputsValid(account, a)
    ensures InputsValid(account, b)
    ensures forall r :: r in Observed(account, a) <==> r in Observed(account, b)
  {
    hide ObservedRecord;
    assert forall i :: 0 <= i < |b| ==> b[i] in a;
    assert forall i :: 0 <= i < |a| ==> a[i] in b;
    forall r | r in Observed(account, a) ensures r in Observed(account, b) {
      var i :| 0 <= i < |a| && Observed(account, a)[i] == r;
      var j :| 0 <= j < |b| && b[j] == a[i];
      assert Observed(account, b)[j] == r;
    }
    forall r | r in Observed(account, b) ensures r in Observed(account, a) {
      var i :| 0 <= i < |b| && Observed(account, b)[i] == r;
      var j :| 0 <= j < |a| && a[j] == b[i];
      assert Observed(account, a)[j] == r;
    }
  }
}
