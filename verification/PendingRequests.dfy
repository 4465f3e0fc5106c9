/**
  The queue of consent requests (crates/client/src/v1_peer.rs, `PendingQueue`): an arrival order,
  a map of entries and a count per identity, kept in step with each other.

  `Queue` is what the three structures mean: the requests in arrival order. Every method is
  tied to a function on it, and the ledger of a run is kept on those functions.
*/
module PendingRequests {
  import opened Base

  /** A request; `deadline` is absent once it has been taken out for an answer. */
  datatype Incoming = Incoming(identity: string, deadline: Option<int>)

  datatype Item = Item(key: string, incoming: Incoming)

  datatype Queue = Queue(items: seq<Item>, closed: bool)

  datatype Refusal = ChannelClosed | QueueFull | IdentityLimit

  // ---------------------------------------------------------------- specification

  predicate Expired(incoming: Incoming, now: int) {
    incoming.deadline.None? || incoming.deadline.value <= now
  }

  /** The items whose keys are not in `gone`, in the same order. */
  function Except(items: seq<Item>, gone: set<string>): seq<Item> {
    if items == [] then [] else
    var init, last := items[..|items| - 1], items[|items| - 1];
    if last.key in gone then Except(init, gone) else Except(init, gone) + [last]
  }

  function ExpiredKeys(items: seq<Item>, now: int): set<string> {
    set i | 0 <= i < |items| && Expired(items[i].incoming, now) :: items[i].key
  }

  function Live(items: seq<Item>, now: int): seq<Item> {
    Except(items, ExpiredKeys(items, now))
  }

  function CountOf(items: seq<Item>, identity: string): nat {
    if items == [] then 0 else
    CountOf(items[..|items| - 1], identity) + (if items[|items| - 1].incoming.identity == identity then 1 else 0)
  }

  predicate HasKey(items: seq<Item>, key: string) {
    exists i :: 0 <= i < |items| && items[i].key == key
  }

  predicate Distinct(items: seq<Item>) {
    forall i, j :: 0 <= i < j < |items| ==> items[i].key != items[j].key
  }

  /** Why an insertion into the pruned queue is refused, if it is. */
  function Refused(q: Queue, item: Item, capacity: int, perIdentity: int): Option<Refusal> {
    if q.closed then Some(ChannelClosed)
    else if |q.items| >= capacity || HasKey(q.items, item.key) then Some(QueueFull)
    else if CountOf(q.items, item.incoming.identity) >= perIdentity then Some(IdentityLimit)
    else None
  }

  function Pruned(q: Queue, now: int): Queue {
    q.(items := Live(q.items, now))
  }

  function Inserted(q: Queue, item: Item, now: int, capacity: int, perIdentity: int): Queue {
    var p := Pruned(q, now);
    if Refused(p, item, capacity, perIdentity).Some? then p else p.(items := p.items + [item])
  }

  function Forgotten(q: Queue, key: string): Queue {
    q.(items := Except(q.items, {key}))
  }

  /** What one pass of `next` finds. */
  datatype Pass = Returned(incoming: Incoming) | Closed | Wait

  function Found(q: Queue, now: int): Pass {
    var p := Pruned(q, now);
    if p.items != [] then Returned(p.items[0].incoming) else if q.closed then Closed else Wait
  }

  function Taken(q: Queue, now: int): Queue {
    var p := Pruned(q, now);
    if p.items != [] then p.(items := p.items[1..]) else p
  }

  // ---------------------------------------------------------------- the three structures

  predicate Known(order: seq<string>, entries: map<string, Incoming>) {
    forall i :: 0 <= i < |order| ==> order[i] in entries
  }

  /** The items that an order and its entries stand for. */
  function Contents(order: seq<string>, entries: map<string, Incoming>): seq<Item>
    requires Known(order, entries)
  {
    seq(|order|, i requires 0 <= i < |order| => Item(order[i], entries[order[i]]))
  }

  /** `per_identity` holds the exact counts, and no zero. */
  ghost predicate CountsExact(counts: map<string, int>, items: seq<Item>) {
    forall id :: if CountOf(items, id) == 0 then id !in counts else id in counts && counts[id] == CountOf(items, id)
  }

  /** The order is a duplicate-free list of exactly the entries, and the counts are theirs. */
  ghost predicate Agree(order: seq<string>, entries: map<string, Incoming>, counts: map<string, int>) {
    && Known(order, entries)
    && (forall k | k in entries :: k in order)
    && Distinct(Contents(order, entries))
    && CountsExact(counts, Contents(order, entries))
  }

  /** Both capacities hold, and a closed queue is empty. */
  ghost predicate Bounded(q: Queue, capacity: int, perIdentity: int) {
    && |q.items| <= Max(capacity, 0)
    && (forall id :: CountOf(q.items, id) <= Max(perIdentity, 0))
    && (q.closed ==> q.items == [])
  }

  function Drop(order: seq<string>, key: string): seq<string> {
    if order == [] then [] else
    var init, last := order[..|order| - 1], order[|order| - 1];
    if last == key then Drop(init, key) else Drop(init, key) + [last]
  }

  /** The saturating decrement that forgets zero. */
  function Decremented(counts: map<string, int>, identity: string): map<string, int> {
    if identity !in counts then counts else
    var count := Max(counts[identity] - 1, 0);
    if count == 0 then counts - {identity} else counts[identity := count]
  }

  // ---------------------------------------------------------------- lists without some keys

  lemma {:induction false} ExceptMembers(items: seq<Item>, gone: set<string>)
    ensures forall x :: x in Except(items, gone) <==> x in items && x.key !in gone
    ensures |Except(items, gone)| <= |items|
    ensures Distinct(items) ==> Distinct(Except(items, gone))
  {
    if items != [] {
      var init := items[..|items| - 1];
      ExceptMembers(init, gone);
      assert items == init + [items[|items| - 1]];
      if Distinct(items) { DistinctAppend(Except(init, gone), items[|items| - 1], init); }
    }
  }

  lemma DistinctAppend(kept: seq<Item>, last: Item, init: seq<Item>)
    requires forall x :: x in kept ==> x in init
    requires Distinct(init + [last])
    ensures Distinct(kept) ==> Distinct(kept + [last])
  {
    forall i | 0 <= i < |kept| ensures kept[i].key != last.key {
      assert kept[i] in init;
      var j :| 0 <= j < |init| && init[j] == kept[i];
      assert (init + [last])[j] == init[j] && (init + [last])[|init|] == last;
    }
  }

  lemma {:induction false} ExceptTwice(items: seq<Item>, a: set<string>, b: set<string>)
    ensures Except(Except(items, a), b) == Except(items, a + b)
  {
    if items != [] {
      var init, last := items[..|items| - 1], items[|items| - 1];
      ExceptTwice(init, a, b);
      if last.key !in a {
        assert (Except(init, a) + [last])[..|Except(init, a)|] == Except(init, a);
      }
    }
  }

  lemma {:induction false} ExceptNothing(items: seq<Item>, gone: set<string>)
    requires forall i :: 0 <= i < |items| ==> items[i].key !in gone
    ensures Except(items, gone) == items
  {
    if items != [] {
      ExceptNothing(items[..|items| - 1], gone);
    }
  }

  /** Taking out the first of distinct items leaves the rest. */
  lemma {:induction false} ExceptFirst(items: seq<Item>)
    requires Distinct(items) && items != []
    ensures Except(items, {items[0].key}) == items[1..]
  {
    var init, last := items[..|items| - 1], items[|items| - 1];
    if |items| > 1 {
      ExceptFirst(init);
      assert init[1..] + [last] == items[1..];
    }
  }

  lemma {:induction false} CountExcept(items: seq<Item>, i: int, identity: string)
    requires Distinct(items) && 0 <= i < |items|
    ensures CountOf(Except(items, {items[i].key}), identity)
            == CountOf(items, identity) - (if items[i].incoming.identity == identity then 1 else 0)
  {
    var init, last := items[..|items| - 1], items[|items| - 1];
    if i == |items| - 1 {
      ExceptNothing(init, {last.key});
    } else {
      CountExcept(init, i, identity);
      CountAppend(Except(init, {items[i].key}), last, identity);
    }
  }

  lemma CountAppend(items: seq<Item>, last: Item, identity: string)
    ensures CountOf(items + [last], identity)
            == CountOf(items, identity) + (if last.incoming.identity == identity then 1 else 0)
  {
    assert (items + [last])[..|items|] == items;
  }

  lemma {:induction false} CountExceptLess(items: seq<Item>, gone: set<string>, identity: string)
    ensures CountOf(Except(items, gone), identity) <= CountOf(items, identity)
  {
    if items != [] {
      var init, last := items[..|items| - 1], items[|items| - 1];
      CountExceptLess(init, gone, identity);
      if last.key !in gone { CountAppend(Except(init, gone), last, identity); }
    }
  }

  lemma {:induction false} CountPositive(items: seq<Item>, i: int)
    requires 0 <= i < |items|
    ensures CountOf(items, items[i].incoming.identity) > 0
  {
    if i < |items| - 1 { CountPositive(items[..|items| - 1], i); }
  }

  // ---------------------------------------------------------------- removing one key

  lemma {:induction false} DropKnown(order: seq<string>, entries: map<string, Incoming>, key: string)
    requires Known(order, entries)
    ensures Known(Drop(order, key), entries - {key})
    ensures Contents(Drop(order, key), entries - {key}) == Except(Contents(order, entries), {key})
    ensures forall k :: k in Drop(order, key) <==> k in order && k != key
  {
    if order != [] {
      var init := order[..|order| - 1];
      DropKnown(init, entries, key);
      assert Contents(order, entries)[..|order| - 1] == Contents(init, entries);
      assert order == init + [order[|order| - 1]];
    }
  }

  lemma DecrementExact(counts: map<string, int>, items: seq<Item>, i: int)
    requires CountsExact(counts, items) && Distinct(items) && 0 <= i < |items|
    ensures CountsExact(Decremented(counts, items[i].incoming.identity), Except(items, {items[i].key}))
    ensures items[i].incoming.identity in counts && counts[items[i].incoming.identity] >= 1
  {
    hide CountOf, Except, Distinct;
    var rest := Except(items, {items[i].key});
    CountPositive(items, i);
    forall id
      ensures var counts' := Decremented(counts, items[i].incoming.identity);
              if CountOf(rest, id) == 0 then id !in counts' else id in counts' && counts'[id] == CountOf(rest, id)
    {
      CountExcept(items, i, id);
    }
  }

  /** Removing one key from all three structures keeps them agreeing; the decrement never saturates. */
  lemma RemoveAgrees(order: seq<string>, entries: map<string, Incoming>, counts: map<string, int>, key: string)
    requires Agree(order, entries, counts) && key in entries
    ensures Known(Drop(order, key), entries - {key})
    ensures Agree(Drop(order, key), entries - {key}, Decremented(counts, entries[key].identity))
    ensures Contents(Drop(order, key), entries - {key}) == Except(Contents(order, entries), {key})
    ensures entries[key].identity in counts && counts[entries[key].identity] >= 1
  {
    hide CountsExact, Decremented, Except, Drop, Distinct;
    DropKnown(order, entries, key);
    var items := Contents(order, entries);
    var i :| 0 <= i < |order| && order[i] == key;
    DecrementExact(counts, items, i);
    ExceptMembers(items, {key});
  }

  /** Appending one new key keeps them agreeing. */
  lemma AppendAgrees(
    order: seq<string>, entries: map<string, Incoming>, counts: map<string, int>, key: string, incoming: Incoming)
    requires Agree(order, entries, counts) && key !in entries
    ensures Known(order + [key], entries[key := incoming])
    ensures var id := incoming.identity;
            var count := if id in counts then counts[id] else 0;
            && count == CountOf(Contents(order, entries), id)
            && Agree(order + [key], entries[key := incoming], counts[id := count + 1])
            && Contents(order + [key], entries[key := incoming]) == Contents(order, entries) + [Item(key, incoming)]
  {
    hide CountOf;
    var items, item := Contents(order, entries), Item(key, incoming);
    var longer := entries[key := incoming];
    assert Known(order + [key], longer);
    assert Contents(order + [key], longer) == items + [item];
    forall id
      ensures CountOf(items + [item], id) == CountOf(items, id) + (if incoming.identity == id then 1 else 0)
    {
      CountAppend(items, item, id);
    }
  }

  lemma {:induction false} EntriesSize(order: seq<string>, entries: map<string, Incoming>)
    requires Known(order, entries) && Distinct(Contents(order, entries))
    requires forall k | k in entries :: k in order
    ensures |entries| == |order|
  {
    if order == [] {
      assert entries == map[];
    } else {
      var last, init := order[|order| - 1], order[..|order| - 1];
      forall i | 0 <= i < |init| ensures init[i] in entries - {last} {
        assert Contents(order, entries)[i].key == order[i] && Contents(order, entries)[|order| - 1].key == last;
      }
      assert forall i, j :: 0 <= i < j < |order| ==>
          Contents(order, entries)[i].key == order[i] && Contents(order, entries)[j].key == order[j];
      assert Distinct(Contents(init, entries - {last}));
      EntriesSize(init, entries - {last});
      assert |entries| == |entries.Keys| && |entries - {last}| == |(entries - {last}).Keys|;
      assert (entries - {last}).Keys == entries.Keys - {last};
    }
  }

  // ---------------------------------------------------------------- the queue

  class PendingQueue {
    var order: seq<string>
    var entries: map<string, Incoming>
    var perIdentity: map<string, int>
    var closed: bool
    const capacity: int
    const perIdentityCapacity: int

    ghost predicate Valid()
      reads this
    {
      && Known(order, entries)
      && Agree(order, entries, perIdentity)
      && Bounded(View(), capacity, perIdentityCapacity)
    }

    ghost function View(): Queue
      reads this
      requires Known(order, entries)
    {
      Queue(Contents(order, entries), closed)
    }

    constructor (capacity: int, perIdentityCapacity: int)
      ensures Valid() && View() == Queue([], false)
      ensures this.capacity == capacity && this.perIdentityCapacity == perIdentityCapacity
    {
      this.capacity, this.perIdentityCapacity := capacity, perIdentityCapacity;
      order, entries, perIdentity, closed := [], map[], map[], false;
    }

    /** `remove`: out of the entries, the order and the count. */
    method Remove(key: string) returns (r: Option<Incoming>)
      modifies this
      ensures closed == old(closed)
      ensures key !in old(entries) ==>
                r.None? && entries == old(entries) && order == old(order) && perIdentity == old(perIdentity)
      ensures key in old(entries) ==>
                && r == Some(old(entries)[key])
                && entries == old(entries) - {key}
                && order == Drop(old(order), key)
                && perIdentity == Decremented(old(perIdentity), old(entries)[key].identity)
    {
      if key !in entries { return None; }
      var incoming := entries[key];
      entries := entries - {key};
      var kept: seq<string> := [];
      for i := 0 to |order|
        invariant kept == Drop(order[..i], key)
        invariant order == old(order) && entries == old(entries) - {key} && perIdentity == old(perIdentity)
        invariant closed == old(closed)
      {
        assert order[..i + 1][..i] == order[..i];
        if order[i] != key { kept := kept + [order[i]]; }
      }
      assert order[..|order|] == order;
      order := kept;
      var identity := incoming.identity;
      if identity in perIdentity {
        var count := if perIdentity[identity] >= 1 then perIdentity[identity] - 1 else 0;
        perIdentity := perIdentity[identity := count];
        if count == 0 { perIdentity := perIdentity - {identity}; }
      }
      r := Some(incoming);
    }

    /** `prune_expired`: every expired request leaves, whatever order the keys are visited in. */
    method PruneExpired(now: int)
      requires Valid()
      modifies this
      ensures Valid() && View() == Pruned(old(View()), now)
    {
      hide Agree, Except, Drop, Decremented, CountOf, Expired, Known, Bounded, Contents, ExpiredKeys;
      ghost var items := Contents(order, entries);
      var expired := set k | k in entries && Expired(entries[k], now);
      ghost var gone: set<string> := {};
      ExpiredAre(order, entries, perIdentity, now);
      ExceptNone(items);
      while expired != {}
        invariant Valid() && closed == old(closed)
        invariant expired <= entries.Keys
        invariant expired + gone == ExpiredKeys(items, now)
        invariant Contents(order, entries) == Except(items, gone)
        decreases |expired|
      {
        var key :| key in expired;
        RemoveAgrees(order, entries, perIdentity, key);
        RemoveBounds(View(), key, capacity, perIdentityCapacity);
        ExceptTwice(items, gone, {key});
        var _ := Remove(key);
        gone := gone + {key};
        expired := expired - {key};
      }
    }

    /** `insert`: prune, then append unless closed, full, known or over the identity's limit. */
    method Insert(key: string, incoming: Incoming, now: int) returns (r: Result<(), Refusal>)
      requires Valid()
      modifies this
      ensures Valid()
      ensures View() == Inserted(old(View()), Item(key, incoming), now, capacity, perIdentityCapacity)
      ensures var refused := Refused(Pruned(old(View()), now), Item(key, incoming), capacity, perIdentityCapacity);
              r == if refused.Some? then Err(refused.value) else Ok(())
    {
      hide Agree, Except, CountOf, Expired, Known, Bounded, Contents, Live;
      PruneExpired(now);
      SizesAgree(order, entries, perIdentity);
      KeysAgree(order, entries, perIdentity, key);
      if closed { return Err(ChannelClosed); }
      if |entries| >= capacity || key in entries { return Err(QueueFull); }
      var identity := incoming.identity;
      AppendAgrees(order, entries, perIdentity, key, incoming);
      var count := if identity in perIdentity then perIdentity[identity] else 0;
      if count >= perIdentityCapacity { return Err(IdentityLimit); }
      AppendBounds(View(), Item(key, incoming), capacity, perIdentityCapacity);
      perIdentity := perIdentity[identity := count + 1];
      order := order + [key];
      entries := entries[key := incoming];
      r := Ok(());
    }

    /** `expire`: one key leaves, if it is still there. */
    method Expire(key: string)
      requires Valid()
      modifies this
      ensures Valid() && View() == Forgotten(old(View()), key)
    {
      hide Agree, Except, Drop, Decremented, CountOf, Known, Bounded, Contents;
      KeysAgree(order, entries, perIdentity, key);
      if key in entries {
        RemoveAgrees(order, entries, perIdentity, key);
        RemoveBounds(View(), key, capacity, perIdentityCapacity);
      } else {
        ForgetUnknown(Contents(order, entries), key);
      }
      var _ := Remove(key);
    }

    /**
      One pass of `next`. The order lists only known keys, so the first one popped is the request to
      return and the popping loop never takes a second turn.
    */
    method NextPass(now: int) returns (r: Pass)
      requires Valid()
      modifies this
      ensures Valid()
      ensures View() == Taken(old(View()), now) && r == Found(old(View()), now)
    {
      hide Agree, Except, Drop, Decremented, CountOf, Expired, Bounded, Live;
      PruneExpired(now);
      if order != [] {
        var key := order[0];
        FirstLeaves(order, entries, perIdentity);
        RemoveAgrees(order, entries, perIdentity, key);
        RemoveBounds(View(), key, capacity, perIdentityCapacity);
        order := order[1..];
        var incoming := Remove(key);
        return Returned(incoming.value);
      }
      r := if closed then Closed else Wait;
    }

    method Close()
      requires Valid()
      modifies this
      ensures Valid() && View() == Queue([], true)
    {
      closed, order, perIdentity, entries := true, [], map[], map[];
    }
  }

  lemma ExceptNone(items: seq<Item>)
    ensures Except(items, {}) == items
  {
    ExceptNothing(items, {});
  }

  lemma ForgetUnknown(items: seq<Item>, key: string)
    requires !HasKey(items, key)
    ensures Except(items, {key}) == items
  {
    ExceptNothing(items, {key});
  }

  lemma SizesAgree(order: seq<string>, entries: map<string, Incoming>, counts: map<string, int>)
    requires Agree(order, entries, counts)
    ensures |entries| == |order| == |Contents(order, entries)|
  {
    EntriesSize(order, entries);
  }

  lemma KeysAgree(order: seq<string>, entries: map<string, Incoming>, counts: map<string, int>, key: string)
    requires Agree(order, entries, counts)
    ensures key in entries <==> HasKey(Contents(order, entries), key)
  {
    hide CountsExact, Distinct;
    if key in entries {
      var i :| 0 <= i < |order| && order[i] == key;
      assert Contents(order, entries)[i].key == key;
    }
  }

  /** Popping the front before removing it makes no difference. */
  lemma FirstLeaves(order: seq<string>, entries: map<string, Incoming>, counts: map<string, int>)
    requires Agree(order, entries, counts) && order != []
    ensures Drop(order[1..], order[0]) == Drop(order, order[0])
    ensures Except(Contents(order, entries), {order[0]}) == Contents(order, entries)[1..]
  {
    hide CountsExact;
    ExceptFirst(Contents(order, entries));
    DropFront(order);
  }

  lemma {:induction false} DropFront(order: seq<string>)
    requires order != []
    ensures Drop(order[1..], order[0]) == Drop(order, order[0])
  {
    if |order| > 1 {
      DropFront(order[..|order| - 1]);
      assert order[..|order| - 1][1..] == order[1..][..|order| - 2];
    }
  }

  /** The expired entries are the expired items. */
  lemma ExpiredAre(order: seq<string>, entries: map<string, Incoming>, counts: map<string, int>, now: int)
    requires Agree(order, entries, counts)
    ensures (set k | k in entries && Expired(entries[k], now)) == ExpiredKeys(Contents(order, entries), now)
  {
    hide CountsExact, Distinct, Expired;
    var items := Contents(order, entries);
    forall k | k in entries && Expired(entries[k], now) ensures k in ExpiredKeys(items, now) {
      var i :| 0 <= i < |order| && order[i] == k;
      assert items[i] == Item(k, entries[k]);
    }
  }

  lemma RemoveBounds(q: Queue, key: string, capacity: int, perIdentity: int)
    requires Bounded(q, capacity, perIdentity)
    ensures Bounded(Forgotten(q, key), capacity, perIdentity)
  {
    hide CountOf, Except;
    ExceptMembers(q.items, {key});
    forall id ensures CountOf(Except(q.items, {key}), id) <= CountOf(q.items, id) {
      CountExceptLess(q.items, {key}, id);
    }
  }

  lemma AppendBounds(q: Queue, item: Item, capacity: int, perIdentity: int)
    requires Bounded(q, capacity, perIdentity) && Refused(q, item, capacity, perIdentity).None?
    ensures Bounded(q.(items := q.items + [item]), capacity, perIdentity)
  {
    hide CountOf;
    forall id
      ensures CountOf(q.items + [item], id) == CountOf(q.items, id) + (if item.incoming.identity == id then 1 else 0)
    {
      CountAppend(q.items, item, id);
    }
  }

  // ---------------------------------------------------------------- every admitted request leaves once

  /** The request still waits for an answer: its deadline lies ahead. */
  predicate Waits(x: Item, now: int) {
    x.incoming.deadline.Some? && now < x.incoming.deadline.value
  }

  /** `next` returns the oldest unexpired request: everything that arrived before it has expired. */
  lemma NextIsOldest(q: Queue, now: int)
    requires Distinct(q.items) && Found(q, now).Returned?
    ensures exists i :: && 0 <= i < |q.items|
                        && Found(q, now) == Returned(q.items[i].incoming)
                        && Waits(q.items[i], now)
                        && forall j :: 0 <= j < i ==> !Waits(q.items[j], now)
  {
    hide Expired, Except, ExpiredKeys, Distinct;
    var i := FirstKept(q.items, ExpiredKeys(q.items, now));
    KeyTells(q.items, now, i);
    ExpiredMeans(q.items[i], now);
    forall j | 0 <= j < i ensures !Waits(q.items[j], now) {
      KeyTells(q.items, now, j);
      ExpiredMeans(q.items[j], now);
    }
  }

  lemma ExpiredMeans(x: Item, now: int)
    ensures Expired(x.incoming, now) <==> !Waits(x, now)
  {
  }

  lemma KeyTells(items: seq<Item>, now: int, j: int)
    requires Distinct(items) && 0 <= j < |items|
    ensures items[j].key in ExpiredKeys(items, now) <==> Expired(items[j].incoming, now)
  {
    hide Expired;
    if items[j].key in ExpiredKeys(items, now) {
      var i :| 0 <= i < |items| && Expired(items[i].incoming, now) && items[i].key == items[j].key;
    }
  }

  /** The first item that is kept: all before it are gone. */
  lemma {:induction false} FirstKept(items: seq<Item>, gone: set<string>) returns (i: int)
    requires Except(items, gone) != []
    ensures 0 <= i < |items| && Except(items, gone)[0] == items[i] && items[i].key !in gone
    ensures forall j :: 0 <= j < i ==> items[j].key in gone
  {
    var init := items[..|items| - 1];
    if Except(init, gone) != [] {
      i := FirstKept(init, gone);
    } else {
      i := |items| - 1;
      NothingKept(init, gone);
    }
  }

  lemma {:induction false} NothingKept(items: seq<Item>, gone: set<string>)
    requires Except(items, gone) == []
    ensures forall j :: 0 <= j < |items| ==> items[j].key in gone
  {
    if items != [] { NothingKept(items[..|items| - 1], gone); }
  }

  datatype Manner = ByReturn | ByExpiry | ByPruning | ByClosing

  datatype Departure = Departure(item: Item, manner: Manner)

  datatype Ledger = Ledger(queue: Queue, admitted: seq<Item>, departed: seq<Departure>)

  datatype Operation =
    | Insert(item: Item, now: int)
    | Expire(key: string)
    | Next(now: int)
    | Close

  /** The items that are in `gone`, in order: what `Except` leaves out. */
  function Only(items: seq<Item>, gone: set<string>): seq<Item> {
    if items == [] then [] else
    var init, last := items[..|items| - 1], items[|items| - 1];
    if last.key in gone then Only(init, gone) + [last] else Only(init, gone)
  }

  function Leaving(items: seq<Item>, manner: Manner): seq<Departure> {
    seq(|items|, i requires 0 <= i < |items| => Departure(items[i], manner))
  }

  function Prune(l: Ledger, now: int): Ledger {
    l.(queue := Pruned(l.queue, now),
       departed := l.departed + Leaving(Only(l.queue.items, ExpiredKeys(l.queue.items, now)), ByPruning))
  }

  /** The operations of the queue, with what they admit and what they let go. */
  function Apply(l: Ledger, op: Operation, capacity: int, perIdentity: int): Ledger {
    match op
    case Insert(item, now) =>
      var p := Prune(l, now);
      var admitted := Refused(p.queue, item, capacity, perIdentity).None?;
      Ledger(
        Inserted(l.queue, item, now, capacity, perIdentity),
        if admitted then p.admitted + [item] else p.admitted, p.departed)
    case Expire(key) =>
      l.(queue := Forgotten(l.queue, key), departed := l.departed + Leaving(Only(l.queue.items, {key}), ByExpiry))
    case Next(now) =>
      var p := Prune(l, now);
      p.(queue := Taken(l.queue, now),
         departed := if p.queue.items == [] then p.departed
                     else p.departed + [Departure(p.queue.items[0], ByReturn)])
    case Close =>
      l.(queue := Queue([], true), departed := l.departed + Leaving(l.queue.items, ByClosing))
  }

  function Execute(ops: seq<Operation>, capacity: int, perIdentity: int): Ledger
    decreases |ops|
  {
    if ops == [] then Ledger(Queue([], false), [], []) else
    Apply(Execute(ops[..|ops| - 1], capacity, perIdentity), ops[|ops| - 1], capacity, perIdentity)
  }

  function Items(departed: seq<Departure>): seq<Item> {
    seq(|departed|, i requires 0 <= i < |departed| => departed[i].item)
  }

  /** Whatever was admitted is queued or has departed, each as often as it was admitted. */
  predicate Conserved(l: Ledger) {
    multiset(l.admitted) == multiset(l.queue.items) + multiset(Items(l.departed))
  }

  lemma {:induction false} SplitConserves(items: seq<Item>, gone: set<string>)
    ensures multiset(items) == multiset(Except(items, gone)) + multiset(Only(items, gone))
  {
    if items != [] {
      SplitConserves(items[..|items| - 1], gone);
      assert items == items[..|items| - 1] + [items[|items| - 1]];
    }
  }

  lemma ItemsAppend(departed: seq<Departure>, more: seq<Departure>)
    ensures Items(departed + more) == Items(departed) + Items(more)
  {
  }

  lemma ItemsLeaving(items: seq<Item>, manner: Manner)
    ensures Items(Leaving(items, manner)) == items
  {
  }

  /** Letting some items go conserves. */
  lemma ReleaseConserves(l: Ledger, gone: set<string>, manner: Manner)
    requires Conserved(l)
    ensures Conserved(l.(queue := l.queue.(items := Except(l.queue.items, gone)),
                         departed := l.departed + Leaving(Only(l.queue.items, gone), manner)))
  {
    hide Except, Only, Items, Leaving;
    SplitConserves(l.queue.items, gone);
    ItemsAppend(l.departed, Leaving(Only(l.queue.items, gone), manner));
    ItemsLeaving(Only(l.queue.items, gone), manner);
  }

  lemma ApplyConserves(l: Ledger, op: Operation, capacity: int, perIdentity: int)
    requires Conserved(l)
    ensures Conserved(Apply(l, op, capacity, perIdentity))
  {
    hide Except, Only, Items, Leaving, CountOf, HasKey, ExpiredKeys;
    match op
    case Insert(item, now) => ReleaseConserves(l, ExpiredKeys(l.queue.items, now), ByPruning);
    case Expire(key) => ReleaseConserves(l, {key}, ByExpiry);
    case Next(now) =>
      ReleaseConserves(l, ExpiredKeys(l.queue.items, now), ByPruning);
      var p := Prune(l, now);
      if p.queue.items != [] {
        var first := Departure(p.queue.items[0], ByReturn);
        ItemsAppend(p.departed, [first]);
        ItemsOne(first);
        assert p.queue.items == [p.queue.items[0]] + p.queue.items[1..];
      }
    case Close =>
      ItemsAppend(l.departed, Leaving(l.queue.items, ByClosing));
      ItemsLeaving(l.queue.items, ByClosing);
  }

  lemma ItemsOne(d: Departure)
    ensures Items([d]) == [d.item]
  {
  }

  /**
    Over every run, each admitted request is either still queued or left exactly once: returned,
    expired, pruned or closed away.
  */
  lemma {:induction false} EveryRunConserves(ops: seq<Operation>, capacity: int, perIdentity: int)
    ensures Conserved(Execute(ops, capacity, perIdentity))
    decreases |ops|
  {
    hide Apply;
    if ops != [] {
      EveryRunConserves(ops[..|ops| - 1], capacity, perIdentity);
      ApplyConserves(
        Execute(ops[..|ops| - 1], capacity, perIdentity), ops[|ops| - 1], capacity, perIdentity);
    }
  }

  // ---------------------------------------------------------------- who is admitted

  /** How many requests wait, of one identity or of all. */
  function Waiting(items: seq<Item>, now: int, identity: Option<string>): nat {
    if items == [] then 0 else
    var last := items[|items| - 1];
    Waiting(items[..|items| - 1], now, identity)
    + (if Waits(last, now) && (identity.None? || identity.value == last.incoming.identity) then 1 else 0)
  }

  /** The keys that are gone are those of the requests that no longer wait. */
  predicate Separates(items: seq<Item>, gone: set<string>, now: int) {
    forall i :: 0 <= i < |items| ==> (items[i].key !in gone <==> Waits(items[i], now))
  }

  lemma {:induction false} KeptWait(items: seq<Item>, gone: set<string>, now: int)
    requires Separates(items, gone, now)
    ensures |Except(items, gone)| == Waiting(items, now, None)
  {
    hide Waits;
    if items != [] {
      assert Separates(items[..|items| - 1], gone, now);
      KeptWait(items[..|items| - 1], gone, now);
    }
  }

  lemma {:induction false} KeptWaitOf(items: seq<Item>, gone: set<string>, now: int, identity: string)
    requires Separates(items, gone, now)
    ensures CountOf(Except(items, gone), identity) == Waiting(items, now, Some(identity))
  {
    hide Waits;
    if items != [] {
      var init, last := items[..|items| - 1], items[|items| - 1];
      assert Separates(init, gone, now);
      KeptWaitOf(init, gone, now, identity);
      if last.key !in gone { CountAppend(Except(init, gone), last, identity); }
    }
  }

  /** The pruned queue holds exactly the requests that wait. */
  lemma LiveWaits(items: seq<Item>, now: int, identity: string, key: string)
    requires Distinct(items)
    ensures |Live(items, now)| == Waiting(items, now, None)
    ensures CountOf(Live(items, now), identity) == Waiting(items, now, Some(identity))
    ensures HasKey(Live(items, now), key) <==> exists x | x in items :: Waits(x, now) && x.key == key
  {
    hide Waits, Expired, Except, ExpiredKeys, Distinct, CountOf, Waiting;
    var gone := ExpiredKeys(items, now);
    forall i | 0 <= i < |items| ensures items[i].key !in gone <==> Waits(items[i], now) {
      KeyTells(items, now, i);
      ExpiredMeans(items[i], now);
    }
    KeptWait(items, gone, now);
    KeptWaitOf(items, gone, now, identity);
    ExceptMembers(items, gone);
    if x :| x in items && Waits(x, now) && x.key == key { assert x in Live(items, now); }
    if HasKey(Live(items, now), key) {
      var i :| 0 <= i < |Live(items, now)| && Live(items, now)[i].key == key;
      assert Live(items, now)[i] in items;
    }
  }

  lemma {:induction false} RunIsDistinct(ops: seq<Operation>, capacity: int, perIdentity: int)
    ensures Distinct(Execute(ops, capacity, perIdentity).queue.items)
    ensures Execute(ops, capacity, perIdentity).queue.closed <==> Close in ops
    decreases |ops|
  {
    hide Except, Only, Leaving, CountOf, ExpiredKeys;
    if ops != [] {
      var init, last := ops[..|ops| - 1], ops[|ops| - 1];
      RunIsDistinct(init, capacity, perIdentity);
      assert ops == init + [last];
      var items := Execute(init, capacity, perIdentity).queue.items;
      if last.Insert? || last.Next? { ExceptMembers(items, ExpiredKeys(items, last.now)); }
      if last.Expire? { ExceptMembers(items, {last.key}); }
    }
  }

  /**
    A request is admitted exactly if the queue was never closed, fewer than `capacity` requests wait, none of them
    under its key, and fewer than `perIdentity` of them from its identity.
  */
  lemma AdmittedExactly(ops: seq<Operation>, item: Item, now: int, capacity: int, perIdentity: int)
    ensures var before := Execute(ops, capacity, perIdentity);
            var after := Apply(before, Insert(item, now), capacity, perIdentity);
            var items := before.queue.items;
            && (after.admitted == before.admitted + [item]
                <==> && Close !in ops
                     && Waiting(items, now, None) < capacity
                     && (forall x | x in items :: Waits(x, now) ==> x.key != item.key)
                     && Waiting(items, now, Some(item.incoming.identity)) < perIdentity)
            && (after.admitted == before.admitted + [item] || after.admitted == before.admitted)
  {
    hide Execute, Live, Waiting, Waits, CountOf, HasKey, Only, Leaving;
    RunIsDistinct(ops, capacity, perIdentity);
    var before := Execute(ops, capacity, perIdentity);
    LiveWaits(before.queue.items, now, item.incoming.identity, item.key);
    assert |before.admitted + [item]| == |before.admitted| + 1;
  }
}
