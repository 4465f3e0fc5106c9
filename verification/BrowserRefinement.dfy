/**
  Two stores, one specification: the browser's check-all-then-write batch
  (crates/browser-wasm/js/browser_store.js) refines the native staged one
  (crates/client/src/sequence.rs).
*/
module BrowserRefinement {
  import opened Base
  import opened Text
  import opened SequenceKeys
  import N = Sequences
  import opened SequenceTheorems
  import opened BrowserSequences

  /** How the binding spells a 32-byte digest: unpadded base64url in the original, any injective text here. */
  ghost predicate Spelling(text: N.Digest32 -> string) {
    && (forall d: N.Digest32 :: ValidDigestText(text(d)))
    && (forall d: N.Digest32, e: N.Digest32 :: text(d) == text(e) ==> d == e)
  }

  // ---------------------------------------------------------------- keys

  /** The browser key of a native `identity:scope` key. */
  function ToBrowser(account: string, key: string): string {
    match SplitOnce(key, ':')
    case None => ""
    case Some(s) => SequenceKey(account, s.before, s.after)
  }

  function ToNative(key: string): string {
    match SplitOnce(key, NUL)
    case None => ""
    case Some(s) =>
      match SplitOnce(s.after, NUL)
      case None => ""
      case Some(t) => t.before + ":" + t.after
  }

  lemma KeysInverse(account: string, identity: string, scope: string)
    requires CanonicalKey(account) && StateKey(identity, scope).Some?
    ensures var key := StateKey(identity, scope).value;
            ToBrowser(account, key) == SequenceKey(account, identity, scope) && ToNative(ToBrowser(account, key)) == key
  {
    StateKeySplits(identity, scope);
    SequenceKeySplits(account, identity, scope);
  }

  // ---------------------------------------------------------------- equal stores

  function RecordFor(account: string, key: string, value: N.Stored, text: N.Digest32 -> string): SequenceRecord {
    var s := SplitOnce(key, ':').Some?;
    var before := if s then SplitOnce(key, ':').value.before else "";
    var after := if s then SplitOnce(key, ':').value.after else "";
    SequenceRecord(
      ToBrowser(account, key), account, before, after,
      if value.Publisher? then PublisherKind else AuthenticatedKind,
      value.counter,
      if value.Publisher? then None else Some(text(value.digest)))
  }

  /** One native entry that the browser can hold too. */
  predicate Portable(key: string, value: N.Stored) {
    EntryValid(key, value) && value.counter <= MAX_SAFE_INTEGER
  }

  /** The two stores hold the same entries, each in its own spelling. */
  ghost predicate Same(n: N.SequenceState, b: Store, account: string, text: N.Digest32 -> string) {
    && (forall k | k in n ::
          && Portable(k, n[k])
          && ToBrowser(account, k) in b
          && b[ToBrowser(account, k)] == RecordFor(account, k, n[k], text))
    && (forall k | k in b :: ToNative(k) in n && ToBrowser(account, ToNative(k)) == k)
  }

  lemma PortableKey(account: string, key: string, value: N.Stored)
    requires CanonicalKey(account) && Portable(key, value)
    ensures ToNative(ToBrowser(account, key)) == key
  {
    var s := SplitOnce(key, ':').value;
    KeysInverse(account, s.before, s.after);
  }

  lemma RecordForValid(account: string, key: string, value: N.Stored, text: N.Digest32 -> string)
    requires CanonicalKey(account) && Portable(key, value) && Spelling(text)
    ensures StoredValid(RecordFor(account, key, value, text))
    ensures RecordFor(account, key, value, text).key == ToBrowser(account, key)
  {
    var s := SplitOnce(key, ':').value;
    assert StateKey(s.before, s.after) == Some(key);
  }

  lemma SameValid(n: N.SequenceState, b: Store, account: string, text: N.Digest32 -> string)
    requires CanonicalKey(account) && Spelling(text) && Same(n, b, account, text)
    ensures AllValid(b)
  {
    hide StoredValid, ToBrowser, ToNative, RecordFor, Portable, Spelling;
    forall k | k in b ensures b[k].key == k && StoredValid(b[k]) {
      RecordForValid(account, ToNative(k), n[ToNative(k)], text);
    }
  }

  lemma {:induction false} InjectiveSize(a: set<string>, b: set<string>, f: string -> string)
    requires forall x | x in a :: f(x) in b
    requires forall x, y | x in a && y in a && f(x) == f(y) :: x == y
    ensures |a| <= |b|
  {
    if a != {} {
      var x :| x in a;
      InjectiveSize(a - {x}, b - {f(x)}, f);
    }
  }

  lemma SameSize(n: N.SequenceState, b: Store, account: string, text: N.Digest32 -> string)
    requires CanonicalKey(account) && Same(n, b, account, text)
    ensures |n| == |b|
  {
    hide ToBrowser, ToNative, RecordFor, Portable;
    forall k | k in n ensures ToNative(ToBrowser(account, k)) == k { PortableKey(account, k, n[k]); }
    InjectiveSize(n.Keys, b.Keys, k => ToBrowser(account, k));
    InjectiveSize(b.Keys, n.Keys, k => ToNative(k));
    assert |n| == |n.Keys| && |b| == |b.Keys|;
  }

  lemma SameUnion(
    n: N.SequenceState, b: Store, p: N.SequenceState, q: Store, account: string, text: N.Digest32 -> string)
    requires CanonicalKey(account) && Same(n, b, account, text) && Same(p, q, account, text)
    ensures Same(n + p, b + q, account, text)
  {
    hide ToBrowser, ToNative, RecordFor, Portable;
    forall k | k in n + p
      ensures ToBrowser(account, k) in b + q
      ensures (b + q)[ToBrowser(account, k)] == RecordFor(account, k, (n + p)[k], text)
    {
      PortableKey(account, k, (n + p)[k]);
    }
  }

  // ---------------------------------------------------------------- the batch

  function InputOf(o: N.Observation, text: N.Digest32 -> string): Input {
    Input(o.identity, o.scope, o.counter, text(o.digest))
  }

  function Inputs(batch: seq<N.Observation>, text: N.Digest32 -> string): seq<Input> {
    seq(|batch|, i requires 0 <= i < |batch| => InputOf(batch[i], text))
  }

  predicate PortableBatch(batch: seq<N.Observation>) {
    forall i :: 0 <= i < |batch| ==> N.ValidObservation(batch[i]) && batch[i].counter <= MAX_SAFE_INTEGER
  }

  function Entry(v: N.Value): N.Stored {
    N.Authenticated(v.counter, v.digest)
  }

  /** One observation is the same record on both sides. */
  lemma ObservedSame(account: string, o: N.Observation, text: N.Digest32 -> string)
    requires CanonicalKey(account) && Spelling(text)
    requires N.ValidObservation(o) && o.counter <= MAX_SAFE_INTEGER
    ensures ObservedRecord(account, InputOf(o, text)) == Some(RecordFor(account, N.KeyOf(o), Entry(N.ValueOf(o)), text))
    ensures Portable(N.KeyOf(o), Entry(N.ValueOf(o)))
  {
    ObservedEntryValid(o);
    StateKeySplits(o.identity, o.scope);
    KeysInverse(account, o.identity, o.scope);
  }

  /** Records of the same key are equal exactly if their values are. */
  lemma RecordForInjective(
    account: string, key: string, v: N.Stored, key': string, w: N.Stored, text: N.Digest32 -> string)
    requires CanonicalKey(account) && Spelling(text) && Portable(key, v) && Portable(key', w)
    ensures RecordFor(account, key, v, text).key == RecordFor(account, key', w, text).key <==> key == key'
    ensures RecordFor(account, key, v, text) == RecordFor(account, key', w, text) <==> key == key' && v == w
  {
    PortableKey(account, key, v);
    PortableKey(account, key', w);
  }

  lemma InputsSame(account: string, batch: seq<N.Observation>, text: N.Digest32 -> string)
    requires CanonicalKey(account) && Spelling(text) && PortableBatch(batch)
    ensures N.WellFormed(batch) && InputsValid(account, Inputs(batch, text))
    ensures var records := Observed(account, Inputs(batch, text));
            && |records| == |batch|
            && (forall i :: 0 <= i < |batch| ==>
                  && Portable(N.KeyOf(batch[i]), Entry(N.ValueOf(batch[i])))
                  && records[i] == RecordFor(account, N.KeyOf(batch[i]), Entry(N.ValueOf(batch[i])), text))
  {
    hide ObservedRecord, RecordFor, Portable, Spelling, StateKey, Reserved;
    forall i | 0 <= i < |batch|
      ensures Portable(N.KeyOf(batch[i]), Entry(N.ValueOf(batch[i])))
      ensures ObservedRecord(account, Inputs(batch, text)[i])
              == Some(RecordFor(account, N.KeyOf(batch[i]), Entry(N.ValueOf(batch[i])), text))
    {
      ObservedSame(account, batch[i], text);
    }
  }

  lemma AgreeingSame(account: string, batch: seq<N.Observation>, text: N.Digest32 -> string)
    requires CanonicalKey(account) && Spelling(text) && PortableBatch(batch)
    ensures N.WellFormed(batch) && InputsValid(account, Inputs(batch, text))
    ensures N.Consistent(batch) <==> Agreeing(Observed(account, Inputs(batch, text)))
  {
    hide ObservedRecord, RecordFor, Portable, Spelling, StateKey, Reserved, Observed;
    InputsSame(account, batch, text);
    var records := Observed(account, Inputs(batch, text));
    forall i, j | 0 <= i < j < |batch|
      ensures records[i].key == records[j].key <==> N.KeyOf(batch[i]) == N.KeyOf(batch[j])
      ensures records[i] == records[j]
              <==> N.KeyOf(batch[i]) == N.KeyOf(batch[j]) && N.ValueOf(batch[i]) == N.ValueOf(batch[j])
    {
      RecordForInjective(account, N.KeyOf(batch[i]), Entry(N.ValueOf(batch[i])),
                         N.KeyOf(batch[j]), Entry(N.ValueOf(batch[j])), text);
    }
  }

  /** The prepared batch as a state of its own. */
  function Alone(prepared: map<string, N.Value>): N.SequenceState {
    map k | k in prepared :: Entry(prepared[k])
  }

  /** The two prepared maps hold the same entries. */
  lemma PreparedSame(account: string, batch: seq<N.Observation>, text: N.Digest32 -> string)
    requires CanonicalKey(account) && Spelling(text) && PortableBatch(batch)
    requires N.WellFormed(batch) && InputsValid(account, Inputs(batch, text))
    requires N.Consistent(batch) && Agreeing(Observed(account, Inputs(batch, text)))
    ensures Same(Alone(N.Prepared(batch)), Keyed(Observed(account, Inputs(batch, text))), account, text)
  {
    hide ObservedRecord, RecordFor, Portable, Spelling, StateKey, Reserved, Observed, Keyed, N.Prepared,
      ToBrowser, ToNative;
    InputsSame(account, batch, text);
    var records := Observed(account, Inputs(batch, text));
    var p, q := Alone(N.Prepared(batch)), Keyed(records);
    forall k | k in p
      ensures Portable(k, p[k]) && ToBrowser(account, k) in q
      ensures q[ToBrowser(account, k)] == RecordFor(account, k, p[k], text)
    {
      N.PreparedLookup(batch, k);
      var i :| 0 <= i < |batch| && N.KeyOf(batch[i]) == k && N.ValueOf(batch[i]) == N.Prepared(batch)[k];
      RecordForKey(account, k, p[k], text);
      KeyedLookup(records, records[i].key);
    }
    forall k | k in q ensures ToNative(k) in p && ToBrowser(account, ToNative(k)) == k {
      KeyedLookup(records, k);
      var i :| 0 <= i < |records| && records[i].key == k;
      N.PreparedLookup(batch, N.KeyOf(batch[i]));
      RecordForKey(account, N.KeyOf(batch[i]), Entry(N.ValueOf(batch[i])), text);
    }
  }

  lemma RecordForKey(account: string, key: string, value: N.Stored, text: N.Digest32 -> string)
    requires CanonicalKey(account) && Portable(key, value)
    ensures RecordFor(account, key, value, text).key == ToBrowser(account, key)
    ensures ToNative(ToBrowser(account, key)) == key
  {
    PortableKey(account, key, value);
  }

  lemma AdmissibleSame(
    n: N.SequenceState, b: Store, p: map<string, N.Value>, q: Store, account: string, text: N.Digest32 -> string)
    requires CanonicalKey(account) && Spelling(text)
    requires Same(n, b, account, text) && Same(Alone(p), q, account, text)
    ensures N.AllAdmissible(n, p) <==> AllReplace(b, q)
  {
    hide ToBrowser, ToNative, Portable, Spelling, RecordFor;
    forall k | k in p ensures N.Admissible(n, k, p[k]) <==> Replaces(b, q[ToBrowser(account, k)]) {
      assert k in Alone(p);
      OneAdmissible(n, b, k, p[k], account, text);
    }
    forall k | k in q ensures exists l | l in p :: ToBrowser(account, l) == k {
      assert ToNative(k) in p;
    }
  }

  lemma OneAdmissible(
    n: N.SequenceState, b: Store, k: string, v: N.Value, account: string, text: N.Digest32 -> string)
    requires CanonicalKey(account) && Spelling(text) && Same(n, b, account, text) && Portable(k, Entry(v))
    ensures N.Admissible(n, k, v) <==> Replaces(b, RecordFor(account, k, Entry(v), text))
  {
    hide ToBrowser, ToNative, Portable, Spelling, SplitOnce;
    RecordForKey(account, k, Entry(v), text);
    if k in n { RecordForInjective(account, k, n[k], k, Entry(v), text); }
  }

  /** Both sides look at equal maps: the same entries are admissible, and the results are the same size. */
  lemma ResultsSame(
    n: N.SequenceState, b: Store, p: map<string, N.Value>, q: Store, account: string, text: N.Digest32 -> string)
    requires CanonicalKey(account) && Spelling(text)
    requires Same(n, b, account, text) && Same(Alone(p), q, account, text)
    ensures |n| == |b| && AllValid(b)
    ensures N.AllAdmissible(n, p) <==> AllReplace(b, q)
    ensures |N.Overlay(n, p)| == |Over(b, q)| && Same(N.Overlay(n, p), Over(b, q), account, text)
  {
    hide Spelling, Same, N.AllAdmissible, AllReplace, AllValid, Alone, CanonicalKey, N.Overlay, Over;
    AdmissibleSame(n, b, p, q, account, text);
    SameUnion(n, b, Alone(p), q, account, text);
    OverlayIsUnion(n, p);
    OverIsUnion(b, q);
    SameSize(N.Overlay(n, p), Over(b, q), account, text);
    SameSize(n, b, account, text);
    SameValid(n, b, account, text);
  }

  /**
    From equal stores, a batch of at most 128 observations whose counters a JavaScript number can
    hold, and whose result is within both byte limits, is accepted by both stores or by neither, and
    leaves them equal.
  */
  lemma BatchRefines(
    n: N.SequenceState, b: Store, account: string, batch: seq<N.Observation>, text: N.Digest32 -> string,
    nativeBytes: N.SequenceState -> nat, browserBytes: Store -> nat)
    requires CanonicalKey(account) && Spelling(text)
    requires Same(n, b, account, text) && |n| <= N.MAX_ENTRIES
    requires PortableBatch(batch) && |batch| <= 128
    requires N.WellFormed(batch) ==> nativeBytes(N.Overlay(n, N.Prepared(batch))) <= N.MAX_STATE_BYTES
    requires InputsValid(account, Inputs(batch, text)) ==>
               browserBytes(Over(b, Keyed(Observed(account, Inputs(batch, text))))) <= MAX_SEQUENCE_BYTES
    ensures var native := N.Recorded(n, batch, nativeBytes);
            var browser := BatchRecorded(b, account, Inputs(batch, text), browserBytes);
            && (native.Some? <==> browser.Some?)
            && (native.Some? ==> Same(native.value, browser.value, account, text))
  {
    hide Spelling, Observed, Keyed, N.Prepared, Same, N.AllAdmissible, AllReplace, AllValid, N.Consistent, Agreeing,
      PortableBatch, Alone, CanonicalKey, InputsValid, N.WellFormed, N.Overlay, Over, Inputs;
    AgreeingSame(account, batch, text);
    InputsSize(account, batch, text);
    if N.Consistent(batch) {
      var p, records := N.Prepared(batch), Observed(account, Inputs(batch, text));
      PreparedSame(account, batch, text);
      ResultsSame(n, b, p, Keyed(records), account, text);
      if batch == [] { NothingPrepared(n, batch, records, b); }
    }
  }

  lemma OverlayIsUnion(n: N.SequenceState, p: map<string, N.Value>)
    ensures N.Overlay(n, p) == n + Alone(p)
  {
  }

  lemma OverIsUnion(b: Store, q: Store)
    ensures Over(b, q) == b + q
  {
  }

  lemma InputsSize(account: string, batch: seq<N.Observation>, text: N.Digest32 -> string)
    requires InputsValid(account, Inputs(batch, text))
    ensures |Inputs(batch, text)| == |batch| && |Observed(account, Inputs(batch, text))| == |batch|
  {
  }

  lemma NothingPrepared(n: N.SequenceState, batch: seq<N.Observation>, records: seq<SequenceRecord>, b: Store)
    requires batch == [] && records == []
    ensures N.WellFormed(batch) && N.AllAdmissible(n, N.Prepared(batch))
    ensures N.Overlay(n, N.Prepared(batch)) == n && Over(b, Keyed(records)) == b
  {
  }
}
