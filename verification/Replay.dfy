/**
  The replay cache and inbound admission (crates/client/src/v1_peer.rs, `ReplayCache`,
  `reserve_replay`, `pending_deadline` and the admission half of `authenticate_incoming_v1`).
*/
module Replay {
  import opened Base
  import opened Collections
  import opened Wire
  import opened WireTheorems

  /** `control:nonce`, which is injective because a control key has no colon. */
  datatype Key = Key(control: string, nonce: Base64Text)

  datatype Entry = Entry(identity: string, expiresAt: u64)

  type Cache = map<Key, Entry>

  datatype Refusal = Replayed | CacheFull | IdentityLimit

  function KeyOf(h: Hello): Key {
    Key(h.claims.fromControlKey, h.claims.sessionNonce)
  }

  // ---------------------------------------------------------------- the cache

  function Retained(cache: Cache, now: u64): Cache {
    map k | k in cache && cache[k].expiresAt > now :: cache[k]
  }

  function KeysOf(cache: Cache, identity: string): set<Key> {
    set k | k in cache && cache[k].identity == identity
  }

  /** Why an insertion into the retained cache is refused, if it is. */
  function Refused(cache: Cache, key: Key, identity: string, capacity: int, perIdentity: int): Option<Refusal> {
    if key in cache then Some(Replayed)
    else if |cache| >= capacity then Some(CacheFull)
    else if |KeysOf(cache, identity)| >= perIdentity then Some(IdentityLimit)
    else None
  }

  /** `ReplayCache::insert`: expired entries leave even if the insertion is refused. */
  function Inserted(
    cache: Cache, key: Key, identity: string, expiresAt: u64, now: u64, capacity: int, perIdentity: int): Cache
  {
    var live := Retained(cache, now);
    if Refused(live, key, identity, capacity, perIdentity).Some? then live
    else live[key := Entry(identity, expiresAt)]
  }

  class ReplayCache {
    const capacity: int
    const perIdentityCapacity: int
    var entries: Cache

    constructor (capacity: int, perIdentityCapacity: int)
      ensures this.capacity == capacity && this.perIdentityCapacity == perIdentityCapacity && entries == map[]
    {
      this.capacity, this.perIdentityCapacity, entries := capacity, perIdentityCapacity, map[];
    }

    method Retain(now: u64)
      modifies this
      ensures entries == Retained(old(entries), now)
    {
      ghost var before := entries;
      var visit := entries.Keys;
      while visit != {}
        invariant visit <= before.Keys
        invariant entries == map k | k in before && (k in visit || before[k].expiresAt > now) :: before[k]
        decreases |visit|
      {
        var key :| key in visit;
        if entries[key].expiresAt <= now { entries := entries - {key}; }
        visit := visit - {key};
      }
    }

    method CountIdentity(identity: string) returns (count: nat)
      ensures count == |KeysOf(entries, identity)|
    {
      count := 0;
      var visit := entries.Keys;
      ghost var counted: set<Key> := {};
      while visit != {}
        invariant visit <= entries.Keys
        invariant counted == KeysOf(entries, identity) - visit && count == |counted|
        decreases |visit|
      {
        var key :| key in visit;
        visit := visit - {key};
        if entries[key].identity == identity {
          count := count + 1;
          assert KeysOf(entries, identity) - visit == counted + {key};
          counted := counted + {key};
        } else {
          assert KeysOf(entries, identity) - visit == counted;
        }
      }
      assert KeysOf(entries, identity) - {} == KeysOf(entries, identity);
    }

    method Insert(key: Key, identity: string, expiresAt: u64, now: u64) returns (r: Result<(), Refusal>)
      modifies this
      ensures entries == Inserted(old(entries), key, identity, expiresAt, now, capacity, perIdentityCapacity)
      ensures var refused := Refused(Retained(old(entries), now), key, identity, capacity, perIdentityCapacity);
              r == if refused.Some? then Err(refused.value) else Ok(())
    {
      hide Retained, KeysOf;
      Retain(now);
      if key in entries { return Err(Replayed); }
      if |entries| >= capacity { return Err(CacheFull); }
      var count := CountIdentity(identity);
      if count >= perIdentityCapacity { return Err(IdentityLimit); }
      entries := entries[key := Entry(identity, expiresAt)];
      r := Ok(());
    }

    method Remove(key: Key)
      modifies this
      ensures entries == old(entries) - {key}
    {
      entries := entries - {key};
    }
  }

  // ---------------------------------------------------------------- admission

  datatype Setting = Setting(capacity: int, perIdentity: int, policy: Policy)

  /**
    Inbound connections on their way: Hellos that passed the offline check, Hellos whose replay key is
    reserved but which are not yet queued, and those admitted so far.
  */
  datatype Gate = Gate(
    clock: u64, cache: Cache, verified: multiset<Hello>, reserved: multiset<Hello>, admitted: seq<Hello>)

  const CLOSED: Gate := Gate(0, map[], multiset{}, multiset{}, [])

  /**
    The steps of one admission; admissions interleave between them, on a clock that never goes back.
    `Verify` is the offline check and the computation of the consent deadline, each with its own clock
    reading; `Reserve` reads the clock again; then the queue takes the Hello, or the reservation is undone.
  */
  datatype Event =
    | Verify(hello: Hello, target: Record, at: u64, deadlineAt: u64)
    | Reserve(hello: Hello, at: u64)
    | Enqueue(hello: Hello)
    | Undo(hello: Hello, at: u64)
    | Abandon(hello: Hello)

  /** Whether a reservation at `at` succeeds. */
  predicate Reservable(w: Setting, cache: Cache, h: Hello, at: u64) {
    Refused(Retained(cache, at), KeyOf(h), h.claims.fromIdentity, w.capacity, w.perIdentity).None?
  }

  function Apply(w: Setting, g: Gate, e: Event): Option<Gate> {
    match e
    case Verify(h, target, at, deadlineAt) =>
      if && g.clock <= at <= deadlineAt
         && HelloVerify(h, h.claims.fromRecord, target, h.claims.application, at, w.policy)
         && deadlineAt < h.claims.exp
      then Some(g.(clock := deadlineAt, verified := g.verified + multiset{h}))
      else None
    case Reserve(h, at) =>
      if !(g.clock <= at && h in g.verified) then None else
      Some(g.(
             clock := at,
             cache := Inserted(g.cache, KeyOf(h), h.claims.fromIdentity, h.claims.exp, at, w.capacity, w.perIdentity),
             verified := g.verified - multiset{h},
             reserved := if Reservable(w, g.cache, h, at) then g.reserved + multiset{h} else g.reserved))
    case Enqueue(h) =>
      if h !in g.reserved then None else
      Some(g.(reserved := g.reserved - multiset{h}, admitted := g.admitted + [h]))
    case Undo(h, at) =>
      if !(g.clock <= at && h in g.reserved) then None else
      Some(g.(clock := at, cache := g.cache - {KeyOf(h)}, reserved := g.reserved - multiset{h}))
    case Abandon(h) =>
      if h in g.verified then Some(g.(verified := g.verified - multiset{h})) else None
  }

  function Execute(w: Setting, events: seq<Event>): Option<Gate>
    decreases |events|
  {
    if events == [] then Some(CLOSED) else
    var before := Execute(w, events[..|events| - 1]);
    if before.None? then None else Apply(w, before.value, events[|events| - 1])
  }

  // ---------------------------------------------------------------- limits

  ghost predicate WithinLimits(w: Setting, cache: Cache) {
    |cache| <= Max(w.capacity, 0) && forall id :: |KeysOf(cache, id)| <= Max(w.perIdentity, 0)
  }

  /** A smaller cache is within the limits too. */
  lemma SmallerWithin(w: Setting, cache: Cache, fewer: Cache)
    requires WithinLimits(w, cache)
    requires forall k | k in fewer :: k in cache && fewer[k] == cache[k]
    ensures WithinLimits(w, fewer)
  {
    SubsetSize(fewer.Keys, cache.Keys);
    assert |fewer| == |fewer.Keys| && |cache| == |cache.Keys|;
    forall id ensures |KeysOf(fewer, id)| <= Max(w.perIdentity, 0) { SubsetSize(KeysOf(fewer, id), KeysOf(cache, id)); }
  }

  lemma KeysOfAdded(cache: Cache, key: Key, e: Entry, id: string)
    requires key !in cache
    ensures |KeysOf(cache[key := e], id)| == |KeysOf(cache, id)| + (if id == e.identity then 1 else 0)
  {
    var more := cache[key := e];
    if id == e.identity {
      assert KeysOf(more, id) == KeysOf(cache, id) + {key};
    } else {
      assert KeysOf(more, id) == KeysOf(cache, id);
    }
  }

  lemma AddedWithin(w: Setting, cache: Cache, key: Key, e: Entry)
    requires WithinLimits(w, cache)
    requires Refused(cache, key, e.identity, w.capacity, w.perIdentity).None?
    ensures WithinLimits(w, cache[key := e])
  {
    hide KeysOf;
    InsertSize(cache, key, e);
    var more := cache[key := e];
    forall id ensures |KeysOf(more, id)| <= Max(w.perIdentity, 0) { KeysOfAdded(cache, key, e, id); }
  }

  lemma {:induction false} LimitsHold(w: Setting, events: seq<Event>)
    requires Execute(w, events).Some?
    ensures WithinLimits(w, Execute(w, events).value.cache)
    decreases |events|
  {
    hide WithinLimits, HelloVerify;
    if events == [] {
      NothingHeld(w);
    } else {
      var g, e := Execute(w, events[..|events| - 1]).value, events[|events| - 1];
      LimitsHold(w, events[..|events| - 1]);
      if e.Reserve? {
        SmallerWithin(w, g.cache, Retained(g.cache, e.at));
        if Reservable(w, g.cache, e.hello, e.at) {
          AddedWithin(w, Retained(g.cache, e.at), KeyOf(e.hello),
                      Entry(e.hello.claims.fromIdentity, e.hello.claims.exp));
        }
      }
      if e.Undo? { SmallerWithin(w, g.cache, g.cache - {KeyOf(e.hello)}); }
    }
  }

  lemma NothingHeld(w: Setting)
    ensures WithinLimits(w, map[]) && forall id :: KeysOf(map[], id) == {}
  {
    assert forall id :: KeysOf(map[], id) == {};
  }

  // ---------------------------------------------------------------- at most once

  /** Everything that got past the cache and was not undone. */
  function Holders(g: Gate): multiset<Hello> {
    g.reserved + multiset(g.admitted)
  }

  predicate Alive(h: Hello, now: u64) {
    now < h.claims.exp
  }

  /** A holder that has not expired is remembered, and is the only one under its key. */
  ghost predicate HolderOk(g: Gate, h: Hello) {
    h in Holders(g) && Alive(h, g.clock) ==>
      && KeyOf(h) in g.cache
      && g.cache[KeyOf(h)].expiresAt >= h.claims.exp
      && Holders(g)[h] == 1
      && (forall other | other in Holders(g) && KeyOf(other) == KeyOf(h) && Alive(other, g.clock) :: other == h)
  }

  ghost predicate Inv(g: Gate) {
    forall h :: HolderOk(g, h)
  }

  /** An undo is harmless if no other live holder has the key it removes. */
  ghost predicate Harmless(g: Gate, e: Event) {
    e.Undo? ==> forall x | x in Holders(g) - multiset{e.hello} && Alive(x, e.at) :: KeyOf(x) != KeyOf(e.hello)
  }

  /** Every undo of the run is harmless where it happens. */
  ghost predicate HarmlessRun(w: Setting, events: seq<Event>)
    decreases |events|
  {
    events != [] ==>
      var before := events[..|events| - 1];
      && HarmlessRun(w, before)
      && (Execute(w, before).Some? ==> Harmless(Execute(w, before).value, events[|events| - 1]))
  }

  /** What each step does to the holders. */
  lemma HoldersStep(w: Setting, g: Gate, e: Event)
    requires Apply(w, g, e).Some?
    ensures var t := Apply(w, g, e).value;
            && (e.Reserve? ==>
                  && g.clock <= e.at
                  && Holders(t) == if Reservable(w, g.cache, e.hello, e.at)
                                   then Holders(g) + multiset{e.hello} else Holders(g))
            && (e.Undo? ==> Holders(t) == Holders(g) - multiset{e.hello})
            && (!e.Reserve? && !e.Undo? ==> Holders(t) == Holders(g))
  {
    hide HelloVerify, Inserted, Reservable;
  }

  lemma ReserveKeeps(w: Setting, g: Gate, h: Hello, at: u64)
    requires Inv(g) && Apply(w, g, Reserve(h, at)).Some?
    ensures Inv(Apply(w, g, Reserve(h, at)).value)
  {
    hide HelloVerify, KeysOf;
    var t := Apply(w, g, Reserve(h, at)).value;
    assert Holders(t) == if Reservable(w, g.cache, h, at) then Holders(g) + multiset{h} else Holders(g);
    forall x ensures HolderOk(t, x) {
      assert HolderOk(g, x) && HolderOk(g, h);
      forall other | other in Holders(t) && KeyOf(other) == KeyOf(x) && Alive(other, t.clock) && Alive(x, t.clock)
                     && x in Holders(t)
        ensures other == x
      {
        assert HolderOk(g, other);
      }
    }
  }

  /** An undo keeps every live holder remembered if and only if it is harmless. */
  lemma UndoKeepsExactly(w: Setting, g: Gate, h: Hello, at: u64)
    requires Inv(g) && Apply(w, g, Undo(h, at)).Some?
    ensures Inv(Apply(w, g, Undo(h, at)).value) <==> Harmless(g, Undo(h, at))
  {
    hide HelloVerify, KeysOf, HolderOk;
    var t := Apply(w, g, Undo(h, at)).value;
    HoldersStep(w, g, Undo(h, at));
    if Harmless(g, Undo(h, at)) {
      forall x ensures HolderOk(t, x) {
        assert HolderOk(g, x);
        FewerHolders(g, t, h, x);
      }
    }
    if Inv(t) {
      forall x | x in Holders(t) && Alive(x, at) ensures KeyOf(x) != KeyOf(h) {
        assert HolderOk(t, x);
        HolderHasKey(t, x);
      }
    }
  }

  lemma HolderHasKey(g: Gate, x: Hello)
    requires HolderOk(g, x) && x in Holders(g) && Alive(x, g.clock)
    ensures KeyOf(x) in g.cache && g.cache[KeyOf(x)].expiresAt >= x.claims.exp
  {
  }

  /** A holder that the undo does not concern stays as it was. */
  lemma FewerHolders(g: Gate, t: Gate, h: Hello, x: Hello)
    requires HolderOk(g, x) && g.clock <= t.clock
    requires Holders(t) == Holders(g) - multiset{h} && t.cache == g.cache - {KeyOf(h)}
    requires x in Holders(t) && Alive(x, t.clock) ==> KeyOf(x) != KeyOf(h)
    ensures HolderOk(t, x)
  {
  }

  /**
    What a harmful undo costs: among the live holders, exactly those whose key it removed can pass the
    cache again at once, if the cache has room.
  */
  lemma UndoReopensExactly(w: Setting, g: Gate, h: Hello, at: u64, x: Hello)
    requires Inv(g) && Apply(w, g, Undo(h, at)).Some?
    requires x in Holders(Apply(w, g, Undo(h, at)).value) && Alive(x, at)
    ensures var t := Apply(w, g, Undo(h, at)).value;
            var live := Retained(t.cache, at);
            Reservable(w, t.cache, x, at)
            <==> && KeyOf(x) == KeyOf(h)
                 && |live| < w.capacity
                 && |KeysOf(live, x.claims.fromIdentity)| < w.perIdentity
  {
    hide HelloVerify, KeysOf, HolderOk, Holders, Inserted;
    HoldersStep(w, g, Undo(h, at));
    assert HolderOk(g, x);
    HolderHasKey(g, x);
  }

  lemma QuietKeeps(w: Setting, g: Gate, e: Event)
    requires Inv(g) && Apply(w, g, e).Some? && (e.Verify? || e.Enqueue? || e.Abandon?)
    ensures Inv(Apply(w, g, e).value)
  {
    hide HelloVerify;
    var t := Apply(w, g, e).value;
    if e.Enqueue? { assert Holders(t) == Holders(g); }
    forall x ensures HolderOk(t, x) { assert HolderOk(g, x); }
  }

  lemma {:induction false} RunKeeps(w: Setting, events: seq<Event>)
    requires Execute(w, events).Some? && HarmlessRun(w, events)
    ensures Inv(Execute(w, events).value)
    decreases |events|
  {
    hide HolderOk, Apply, Harmless;
    if events == [] {
      NobodyHolds();
    } else {
      var g, e := Execute(w, events[..|events| - 1]).value, events[|events| - 1];
      RunKeeps(w, events[..|events| - 1]);
      if e.Reserve? {
        ReserveKeeps(w, g, e.hello, e.at);
      } else if e.Undo? {
        UndoKeepsExactly(w, g, e.hello, e.at);
      } else {
        QuietKeeps(w, g, e);
      }
    }
  }

  lemma NobodyHolds()
    ensures Inv(CLOSED)
  {
  }

  /**
    After any run with harmless undos, a Hello that was already admitted passes the cache again exactly if
    the reservation reads the clock at or after its expiry, no live entry has its key, and the cache has room.
  */
  lemma AdmittedAgainExactly(w: Setting, events: seq<Event>, h: Hello, at: u64)
    requires Execute(w, events).Some? && HarmlessRun(w, events)
    requires Apply(w, Execute(w, events).value, Reserve(h, at)).Some?
    requires h in Execute(w, events).value.admitted
    ensures var g := Execute(w, events).value;
            var live := Retained(g.cache, at);
            h in Apply(w, g, Reserve(h, at)).value.reserved - g.reserved
            <==> && h.claims.exp <= at
                 && KeyOf(h) !in live
                 && |live| < w.capacity
                 && |KeysOf(live, h.claims.fromIdentity)| < w.perIdentity
  {
    hide Execute, KeysOf, HelloVerify;
    RunKeeps(w, events);
    var g := Execute(w, events).value;
    assert h in multiset(g.admitted);
    assert HolderOk(g, h);
  }

  /** Nothing passed the cache twice. */
  ghost predicate HeldOnce(g: Gate) {
    forall h :: Holders(g)[h] <= 1
  }

  predicate NoRepeats(hellos: seq<Hello>) {
    forall i, j :: 0 <= i < j < |hellos| ==> hellos[i] != hellos[j]
  }

  /** No successful reservation at or after the expiry of a Hello that holds already. */
  ghost predicate Fresh(w: Setting, g: Gate, e: Event) {
    e.Reserve? && Reservable(w, g.cache, e.hello, e.at) && e.hello.claims.exp <= e.at ==> e.hello !in Holders(g)
  }

  ghost predicate FreshRun(w: Setting, events: seq<Event>)
    decreases |events|
  {
    events != [] ==>
      var before := events[..|events| - 1];
      && FreshRun(w, before)
      && (Execute(w, before).Some? ==> Fresh(w, Execute(w, before).value, events[|events| - 1]))
  }

  /** A step lets something pass the cache twice if and only if it is a late reservation of a holder. */
  lemma HeldOnceExactly(w: Setting, g: Gate, e: Event)
    requires Inv(g) && HeldOnce(g) && Apply(w, g, e).Some?
    ensures HeldOnce(Apply(w, g, e).value) <==> Fresh(w, g, e)
  {
    hide Apply, Holders, Reservable, HolderOk;
    HoldersStep(w, g, e);
    var t := Apply(w, g, e).value;
    if e.Reserve? && Reservable(w, g.cache, e.hello, e.at) {
      if e.at < e.hello.claims.exp { ReservedIsNew(w, g, e.hello, e.at); }
      OneMore(Holders(g), e.hello);
    } else if e.Undo? {
      OneLess(Holders(g), e.hello);
    }
  }

  lemma OneMore(held: multiset<Hello>, h: Hello)
    requires forall x :: held[x] <= 1
    ensures (forall x :: (held + multiset{h})[x] <= 1) <==> h !in held
  {
    assert (held + multiset{h})[h] == held[h] + 1;
  }

  lemma OneLess(held: multiset<Hello>, h: Hello)
    requires forall x :: held[x] <= 1
    ensures forall x :: (held - multiset{h})[x] <= 1
  {
  }

  /** A reservation before the expiry succeeds only for a Hello that holds nothing. */
  lemma ReservedIsNew(w: Setting, g: Gate, h: Hello, at: u64)
    requires Inv(g) && g.clock <= at < h.claims.exp && Reservable(w, g.cache, h, at)
    ensures Holders(g)[h] == 0
  {
    hide KeysOf;
    assert HolderOk(g, h);
  }

  lemma {:induction false} FreshRunHoldsOnce(w: Setting, events: seq<Event>)
    requires Execute(w, events).Some? && HarmlessRun(w, events) && FreshRun(w, events)
    ensures HeldOnce(Execute(w, events).value)
    decreases |events|
  {
    hide Apply, HolderOk, Harmless, Fresh;
    if events != [] {
      var before := events[..|events| - 1];
      FreshRunHoldsOnce(w, before);
      RunKeeps(w, before);
      HeldOnceExactly(w, Execute(w, before).value, events[|events| - 1]);
    }
  }

  lemma OnceMeansNoRepeats(s: seq<Hello>)
    requires forall h :: multiset(s)[h] <= 1
    ensures NoRepeats(s)
  {
    forall i, j | 0 <= i < j < |s| ensures s[i] != s[j] {
      assert s == s[..j] + [s[j]] + s[j + 1..];
      assert s[..j][i] in multiset(s[..j]);
      assert multiset(s)[s[j]] <= 1;
    }
  }

  /**
    In every interleaving of inbound admissions, if no undo takes the key of another live holder and no
    holder is reserved again after its expiry, no signed Hello is admitted twice.
  */
  lemma AdmittedAtMostOnce(w: Setting, events: seq<Event>)
    requires Execute(w, events).Some? && HarmlessRun(w, events) && FreshRun(w, events)
    ensures NoRepeats(Execute(w, events).value.admitted)
  {
    hide Execute, HarmlessRun, FreshRun;
    FreshRunHoldsOnce(w, events);
    var g := Execute(w, events).value;
    forall h ensures multiset(g.admitted)[h] <= 1 { assert Holders(g)[h] <= 1; }
    OnceMeansNoRepeats(g.admitted);
  }

  /** An undo is timely if the Hello it concerns has not expired. */
  predicate Timely(e: Event) {
    e.Undo? ==> e.at < e.hello.claims.exp
  }

  /** A reservation is punctual if it is made before the Hello expires. */
  predicate Punctual(e: Event) {
    e.Reserve? ==> e.at < e.hello.claims.exp
  }

  /** Timely undos are harmless: the entry each removes is its own. */
  lemma {:induction false} TimelyIsHarmless(w: Setting, events: seq<Event>)
    requires Execute(w, events).Some? && forall i :: 0 <= i < |events| ==> Timely(events[i])
    ensures HarmlessRun(w, events)
    decreases |events|
  {
    hide Apply, HolderOk, Harmless;
    if events != [] {
      var before := events[..|events| - 1];
      TimelyIsHarmless(w, before);
      RunKeeps(w, before);
      TimelyStep(w, Execute(w, before).value, events[|events| - 1]);
    }
  }

  lemma TimelyStep(w: Setting, g: Gate, e: Event)
    requires Inv(g) && Apply(w, g, e).Some? && Timely(e)
    ensures Harmless(g, e)
  {
    hide HelloVerify, Inserted, Reservable;
    if e.Undo? { assert HolderOk(g, e.hello); }
  }

  lemma {:induction false} PunctualIsFresh(w: Setting, events: seq<Event>)
    requires Execute(w, events).Some? && forall i :: 0 <= i < |events| ==> Punctual(events[i])
    ensures FreshRun(w, events)
    decreases |events|
  {
    hide Apply, Reservable, Holders;
    if events != [] { PunctualIsFresh(w, events[..|events| - 1]); }
  }

  // ---------------------------------------------------------------- nothing unverified is admitted

  /** The Hello verified at a past reading, and its consent deadline was computed while it had time left. */
  ghost predicate WasVerified(w: Setting, clock: u64, h: Hello) {
    exists x :: Passed(w, clock, h, x)
  }

  datatype Check = Check(target: Record, at: u64, deadlineAt: u64)

  predicate Passed(w: Setting, clock: u64, h: Hello, x: Check) {
    && x.at <= x.deadlineAt <= clock && x.deadlineAt < h.claims.exp
    && HelloVerify(h, h.claims.fromRecord, x.target, h.claims.application, x.at, w.policy)
  }

  ghost predicate AllVerified(w: Setting, g: Gate) {
    && (forall h | h in g.verified :: WasVerified(w, g.clock, h))
    && (forall h | h in g.reserved :: WasVerified(w, g.clock, h))
    && (forall h | h in g.admitted :: WasVerified(w, g.clock, h))
  }

  lemma VerifiedLater(w: Setting, now: u64, later: u64, h: Hello)
    requires WasVerified(w, now, h) && now <= later
    ensures WasVerified(w, later, h)
  {
    hide HelloVerify;
    var x :| Passed(w, now, h, x);
    assert Passed(w, later, h, x);
  }

  lemma VerifiedStep(w: Setting, g: Gate, e: Event)
    requires AllVerified(w, g) && Apply(w, g, e).Some?
    ensures AllVerified(w, Apply(w, g, e).value)
  {
    hide HelloVerify, Inserted, Reservable, WasVerified;
    var t := Apply(w, g, e).value;
    if e.Verify? { VerifiedNow(w, e.hello, e.target, e.at, e.deadlineAt); }
    forall h | WasVerified(w, g.clock, h) ensures WasVerified(w, t.clock, h) { VerifiedLater(w, g.clock, t.clock, h); }
  }

  lemma VerifiedNow(w: Setting, h: Hello, target: Record, at: u64, deadlineAt: u64)
    requires at <= deadlineAt < h.claims.exp
    requires HelloVerify(h, h.claims.fromRecord, target, h.claims.application, at, w.policy)
    ensures WasVerified(w, deadlineAt, h)
  {
    hide HelloVerify;
    assert Passed(w, deadlineAt, h, Check(target, at, deadlineAt));
  }

  /** Over every run each admitted Hello verified at a past reading, and was given its deadline before it expired. */
  lemma {:induction false} EveryAdmittedWasVerified(w: Setting, events: seq<Event>)
    requires Execute(w, events).Some?
    ensures AllVerified(w, Execute(w, events).value)
    decreases |events|
  {
    hide Apply, WasVerified;
    if events != [] {
      EveryAdmittedWasVerified(w, events[..|events| - 1]);
      VerifiedStep(w, Execute(w, events[..|events| - 1]).value, events[|events| - 1]);
    }
  }

  // ---------------------------------------------------------------- admission at one clock reading

  datatype Arrival = Arrival(hello: Hello, target: Record, now: u64, room: bool)

  /** A whole admission at one reading: verify, reserve, and enqueue or undo. A refused reservation ends it. */
  function AtOnce(w: Setting, g: Gate, a: Arrival): seq<Event> {
    var verify, reserve := Verify(a.hello, a.target, a.now, a.now), Reserve(a.hello, a.now);
    if !Reservable(w, g.cache, a.hello, a.now) then [verify, reserve]
    else [verify, reserve, if a.room then Enqueue(a.hello) else Undo(a.hello, a.now)]
  }

  /** The run of admissions one after another, or `None` if one does not verify. */
  function Arrivals(w: Setting, arrivals: seq<Arrival>): Option<seq<Event>>
    decreases |arrivals|
  {
    if arrivals == [] then Some([]) else
    var before := Arrivals(w, arrivals[..|arrivals| - 1]);
    if before.None? || Execute(w, before.value).None? then None else
    Some(before.value + AtOnce(w, Execute(w, before.value).value, arrivals[|arrivals| - 1]))
  }

  lemma ExecutePrefix(w: Setting, events: seq<Event>, k: int)
    requires 0 <= k <= |events| && Execute(w, events).Some?
    ensures Execute(w, events[..k]).Some?
    decreases |events|
  {
    hide Apply;
    if k < |events| {
      ExecutePrefix(w, events[..|events| - 1], k);
      assert events[..|events| - 1][..k] == events[..k];
    } else {
      assert events[..k] == events;
    }
  }

  /** If the run goes through, the Hello of its last admission had not expired. */
  lemma ArrivalIsAlive(w: Setting, before: seq<Event>, a: Arrival)
    requires Execute(w, before).Some? && Execute(w, before + AtOnce(w, Execute(w, before).value, a)).Some?
    ensures a.now < a.hello.claims.exp
  {
    hide HelloVerify, Inserted, Reservable;
    var events := before + AtOnce(w, Execute(w, before).value, a);
    ExecutePrefix(w, events, |before| + 1);
    assert events[..|before| + 1][..|before|] == before;
    assert events[..|before| + 1][|before|] == Verify(a.hello, a.target, a.now, a.now);
  }

  lemma {:induction false} ArrivalsPunctual(w: Setting, arrivals: seq<Arrival>)
    requires Arrivals(w, arrivals).Some? && Execute(w, Arrivals(w, arrivals).value).Some?
    ensures forall i :: 0 <= i < |Arrivals(w, arrivals).value| ==>
              Timely(Arrivals(w, arrivals).value[i]) && Punctual(Arrivals(w, arrivals).value[i])
    decreases |arrivals|
  {
    hide Reservable, Execute;
    if arrivals != [] {
      var init := arrivals[..|arrivals| - 1];
      ArrivalsPunctual(w, init);
      ArrivalIsAlive(w, Arrivals(w, init).value, arrivals[|arrivals| - 1]);
    }
  }

  /** With every admission at one clock reading, no signed Hello is ever admitted twice. */
  lemma AtomicAdmissionsOnce(w: Setting, arrivals: seq<Arrival>)
    requires Arrivals(w, arrivals).Some? && Execute(w, Arrivals(w, arrivals).value).Some?
    ensures NoRepeats(Execute(w, Arrivals(w, arrivals).value).value.admitted)
  {
    hide Apply, Timely, Punctual, HarmlessRun, FreshRun;
    ArrivalsPunctual(w, arrivals);
    TimelyIsHarmless(w, Arrivals(w, arrivals).value);
    PunctualIsFresh(w, Arrivals(w, arrivals).value);
    AdmittedAtMostOnce(w, Arrivals(w, arrivals).value);
  }

  // ---------------------------------------------------------------- both conditions are needed

  lemma Follow(w: Setting, events: seq<Event>, e: Event) returns (longer: seq<Event>, g: Gate)
    requires Execute(w, events).Some? && Apply(w, Execute(w, events).value, e).Some?
    ensures Execute(w, longer) == Some(g) && Apply(w, Execute(w, events).value, e) == Some(g)
    ensures longer == events + [e]
  {
    longer, g := events + [e], Apply(w, Execute(w, events).value, e).value;
    assert longer[..|events|] == events;
  }

  /** Verify, reserve and enqueue on a cache that is empty once expired entries have left. */
  lemma AdmitOn(w: Setting, events: seq<Event>, before: Gate, h: Hello, target: Record, at: u64, reserveAt: u64)
    returns (longer: seq<Event>, g: Gate)
    requires Execute(w, events) == Some(before) && before.clock <= at <= reserveAt && at < h.claims.exp
    requires HelloVerify(h, h.claims.fromRecord, target, h.claims.application, at, w.policy)
    requires Retained(before.cache, reserveAt) == map[] && w.capacity > 0 && w.perIdentity > 0
    ensures Execute(w, longer) == Some(g)
    ensures g.admitted == before.admitted + [h] && g.clock == reserveAt && g.reserved == before.reserved
    ensures g.cache == map[KeyOf(h) := Entry(h.claims.fromIdentity, h.claims.exp)]
    ensures events <= longer
    ensures forall i :: |events| <= i < |longer| ==>
              Timely(longer[i]) && (reserveAt < h.claims.exp ==> Punctual(longer[i]))
  {
    hide HelloVerify, Execute;
    NothingHeld(w);
    longer, g := Follow(w, events, Verify(h, target, at, at));
    longer, g := Follow(w, longer, Reserve(h, reserveAt));
    assert g.reserved == before.reserved + multiset{h};
    longer, g := Follow(w, longer, Enqueue(h));
    assert g.reserved == before.reserved;
  }

  /**
    Punctual reservations are needed: a Hello that verifies in the last second before its expiry and is
    reserved a second later is admitted although it was admitted before.
  */
  lemma StraddlingExpiryAdmitsTwice(w: Setting, h: Hello, target: Record, once: u64)
    returns (events: seq<Event>, g: Gate)
    requires HelloVerify(h, h.claims.fromRecord, target, h.claims.application, once, w.policy)
    requires w.capacity > 0 && w.perIdentity > 0
    ensures Execute(w, events) == Some(g) && g.admitted == [h, h]
    ensures forall i :: 0 <= i < |events| ==> Timely(events[i])
  {
    hide HelloVerify, Execute;
    LastSecond(h, target, once, w.policy);
    Nothing(w);
    events, g := AdmitOn(w, [], CLOSED, h, target, once, once);
    assert Retained(g.cache, h.claims.exp) == map[];
    var first := events;
    events, g := AdmitOn(w, events, g, h, target, h.claims.exp - 1, h.claims.exp);
    assert forall i :: 0 <= i < |first| ==> events[i] == first[i];
  }

  /**
    Timely undos are needed: if one sender signs two Hellos with one nonce, undoing the reservation of the
    first after it has expired forgets the second, which is then admitted twice although every
    reservation was punctual.
  */
  lemma LateUndoAdmitsTwice(w: Setting, a: Hello, b: Hello, aTarget: Record, bTarget: Record, early: u64, late: u64)
    returns (events: seq<Event>, g: Gate)
    requires KeyOf(a) == KeyOf(b)
    requires HelloVerify(a, a.claims.fromRecord, aTarget, a.claims.application, early, w.policy)
    requires HelloVerify(b, b.claims.fromRecord, bTarget, b.claims.application, late, w.policy)
    requires early < a.claims.exp <= late < b.claims.exp && w.capacity > 0 && w.perIdentity > 0
    ensures Execute(w, events) == Some(g) && g.admitted == [b, b]
    ensures forall i :: 0 <= i < |events| ==> Punctual(events[i])
  {
    hide HelloVerify, Execute;
    Nothing(w);
    NothingHeld(w);
    events, g := Follow(w, [], Verify(a, aTarget, early, early));
    events, g := Follow(w, events, Reserve(a, early));
    assert g.cache == map[KeyOf(a) := Entry(a.claims.fromIdentity, a.claims.exp)] && g.reserved == multiset{a};
    assert Retained(g.cache, late) == map[];
    var first := events;
    events, g := AdmitOn(w, events, g, b, bTarget, late, late);
    assert forall i :: 0 <= i < |first| ==> events[i] == first[i];
    events, g := Follow(w, events, Undo(a, late));
    assert g.cache == map[] && Retained(g.cache, late) == map[];
    var second := events;
    events, g := AdmitOn(w, events, g, b, bTarget, late, late);
    assert forall i :: 0 <= i < |second| ==> events[i] == second[i];
  }

  lemma Nothing(w: Setting)
    ensures Execute(w, []) == Some(CLOSED)
  {
  }

  lemma LastSecond(h: Hello, target: Record, once: u64, p: Policy)
    requires HelloVerify(h, h.claims.fromRecord, target, h.claims.application, once, p)
    ensures once < h.claims.exp && 1 <= h.claims.exp
    ensures once <= h.claims.exp - 1
    ensures HelloVerify(h, h.claims.fromRecord, target, h.claims.application, h.claims.exp - 1, p)
  {
    hide RecordVerify;
    HelloInterval(h, h.claims.fromRecord, target, h.claims.application, once, once, p);
    HelloInterval(h, h.claims.fromRecord, target, h.claims.application, once, h.claims.exp - 1, p);
  }
}
