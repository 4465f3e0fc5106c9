/**
  The order in which `dial` tries devices (crates/client/src/v1_discovery.rs, `resolve_inner` and the
  static resolver's `resolve_devices`; crates/client/src/v1_peer.rs, `dial_inner`).

  Both resolvers list in an arbitrary order (a listing, a hash map) and sort by path; the
  homeserver resolver then sorts by (device id, control key), and so does `dial`. All sorts are stable.
*/
module DialOrder {
  import opened Base

  const MAX_DEVICES: int := 8
  const MAX_CANDIDATES: int := 8

  datatype Details = Details(deviceId: string, control: string, bytes: nat)

  datatype Device = Device(path: string, details: Details)

  /** What one identity has published: device paths to records. */
  type Storage = map<string, Details>

  datatype Error = TooManyDevices | UnexpectedOwner | InvalidPath | DuplicateEntry | FetchFailed | TooManyBytes

  // ---------------------------------------------------------------- text order

  /** Strict lexicographic order. */
  predicate Less(a: string, b: string) {
    b != "" && (a == "" || a[0] < b[0] || (a[0] == b[0] && Less(a[1..], b[1..])))
  }

  lemma {:induction false} LessTotal(a: string, b: string)
    ensures Less(a, b) || a == b || Less(b, a)
    ensures !(Less(a, b) && Less(b, a))
    ensures !Less(a, a)
  {
    if a != "" { LessTotal(a[1..], a[1..]); }
    if a != "" && b != "" {
      LessTotal(a[1..], b[1..]);
      assert a == [a[0]] + a[1..] && b == [b[0]] + b[1..];
    }
  }

  lemma {:induction false} LessTransitive(a: string, b: string, c: string)
    requires Less(a, b) && Less(b, c)
    ensures Less(a, c)
  {
    if a != "" && a[0] == b[0] && b[0] == c[0] { LessTransitive(a[1..], b[1..], c[1..]); }
  }

  /** The comparison of `sort_by` on devices: device id, then control key. */
  predicate KeyLess(x: Device, y: Device) {
    || Less(x.details.deviceId, y.details.deviceId)
    || (x.details.deviceId == y.details.deviceId && Less(x.details.control, y.details.control))
  }

  predicate KeyLe(x: Device, y: Device) {
    !KeyLess(y, x)
  }

  predicate PathLe(x: Device, y: Device) {
    !Less(y.path, x.path)
  }

  predicate TextLe(x: string, y: string) {
    !Less(y, x)
  }

  /** Lexicographic in (device id, control key, path). */
  predicate Precedes(x: Device, y: Device) {
    || KeyLess(x, y)
    || (x.details.deviceId == y.details.deviceId && x.details.control == y.details.control && Less(x.path, y.path))
  }

  lemma PrecedesStrict(x: Device, y: Device)
    ensures !Precedes(x, x)
    ensures !(Precedes(x, y) && Precedes(y, x))
  {
    LessTotal(x.details.deviceId, y.details.deviceId);
    LessTotal(x.details.control, y.details.control);
    LessTotal(x.path, y.path);
    LessTotal(x.details.deviceId, x.details.deviceId);
    LessTotal(x.details.control, x.details.control);
    LessTotal(x.path, x.path);
  }

  lemma KeyLessTransitive(x: Device, y: Device, z: Device)
    ensures KeyLess(x, y) && KeyLess(y, z) ==> KeyLess(x, z)
    ensures KeyLess(x, y) && KeyLe(y, z) ==> KeyLess(x, z)
    ensures KeyLe(x, y) && KeyLe(y, z) ==> KeyLe(x, z)
    ensures KeyLe(x, y) && KeyLe(y, x) ==>
              x.details.deviceId == y.details.deviceId && x.details.control == y.details.control
  {
    Trichotomy(x, y);
    Trichotomy(y, z);
    Trichotomy(x, z);
    ChainLess(x.details.deviceId, y.details.deviceId, z.details.deviceId);
    ChainLess(x.details.control, y.details.control, z.details.control);
    ChainLess(z.details.deviceId, y.details.deviceId, x.details.deviceId);
    ChainLess(z.details.control, y.details.control, x.details.control);
  }

  lemma Trichotomy(x: Device, y: Device)
    ensures Less(x.details.deviceId, y.details.deviceId) || x.details.deviceId == y.details.deviceId
            || Less(y.details.deviceId, x.details.deviceId)
    ensures Less(x.details.control, y.details.control) || x.details.control == y.details.control
            || Less(y.details.control, x.details.control)
    ensures !(Less(x.details.deviceId, y.details.deviceId) && Less(y.details.deviceId, x.details.deviceId))
    ensures !(Less(x.details.control, y.details.control) && Less(y.details.control, x.details.control))
  {
    LessTotal(x.details.deviceId, y.details.deviceId);
    LessTotal(x.details.control, y.details.control);
  }

  lemma ChainLess(a: string, b: string, c: string)
    ensures Less(a, b) && Less(b, c) ==> Less(a, c)
  {
    if Less(a, b) && Less(b, c) { LessTransitive(a, b, c); }
  }

  // ---------------------------------------------------------------- stable sorting

  /** A stable sort: each element goes before everything it does not follow. */
  function Sort<T>(s: seq<T>, le: (T, T) -> bool): seq<T> {
    if s == [] then [] else Place(s[0], Sort(s[1..], le), le)
  }

  function Place<T>(x: T, s: seq<T>, le: (T, T) -> bool): seq<T> {
    if s == [] || le(x, s[0]) then [x] + s else [s[0]] + Place(x, s[1..], le)
  }

  lemma {:induction false} PlaceMembers<T>(x: T, s: seq<T>, le: (T, T) -> bool)
    ensures multiset(Place(x, s, le)) == multiset{x} + multiset(s)
  {
    if s != [] && !le(x, s[0]) {
      PlaceMembers(x, s[1..], le);
      assert s == [s[0]] + s[1..];
    }
  }

  lemma {:induction false} SortMembers<T>(s: seq<T>, le: (T, T) -> bool)
    ensures multiset(Sort(s, le)) == multiset(s)
  {
    if s != [] {
      SortMembers(s[1..], le);
      PlaceMembers(s[0], Sort(s[1..], le), le);
      assert s == [s[0]] + s[1..];
    }
  }

  lemma SortContains<T>(s: seq<T>, le: (T, T) -> bool)
    ensures forall x :: x in Sort(s, le) <==> x in s
    ensures |Sort(s, le)| == |s|
  {
    SortMembers(s, le);
    assert forall x :: x in Sort(s, le) <==> x in multiset(Sort(s, le));
    assert forall x :: x in s <==> x in multiset(s);
    assert |multiset(Sort(s, le))| == |Sort(s, le)| && |multiset(s)| == |s|;
  }

  predicate Distinct<T(==)>(s: seq<T>) {
    forall i, j :: 0 <= i < j < |s| ==> s[i] != s[j]
  }

  lemma DistinctRest<T>(s: seq<T>)
    requires Distinct(s) && s != []
    ensures Distinct(s[1..]) && s[0] !in s[1..]
  {
  }

  // ---------------------------------------------------------------- sorting by path

  predicate PathSorted(s: seq<Device>) {
    forall i, j :: 0 <= i < j < |s| ==> Less(s[i].path, s[j].path)
  }

  predicate TextSorted(s: seq<string>) {
    forall i, j :: 0 <= i < j < |s| ==> Less(s[i], s[j])
  }

  lemma {:induction false} PlaceText(x: string, s: seq<string>)
    requires TextSorted(s) && x !in s
    ensures TextSorted(Place(x, s, TextLe))
  {
    if s != [] {
      LessTotal(x, s[0]);
      if TextLe(x, s[0]) {
        forall j | 0 <= j < |s| ensures Less(x, s[j]) {
          if j > 0 { LessTransitive(x, s[0], s[j]); }
        }
      } else {
        PlaceText(x, s[1..]);
        PlaceMembers(x, s[1..], TextLe);
        var t := Place(x, s[1..], TextLe);
        forall j | 0 <= j < |t| ensures Less(s[0], t[j]) {
          assert t[j] in multiset(t);
          assert t[j] == x || t[j] in s[1..];
        }
      }
    }
  }

  lemma {:induction false} SortText(s: seq<string>)
    requires Distinct(s)
    ensures TextSorted(Sort(s, TextLe))
  {
    if s != [] {
      DistinctRest(s);
      SortText(s[1..]);
      SortContains(s[1..], TextLe);
      PlaceText(s[0], Sort(s[1..], TextLe));
    }
  }

  function Devices(paths: seq<string>, storage: Storage): seq<Device>
    requires forall p | p in paths :: p in storage
  {
    seq(|paths|, i requires 0 <= i < |paths| => Device(paths[i], storage[paths[i]]))
  }

  /** Sorting paths and fetching, or fetching and sorting by path: the same list. */
  lemma {:induction false} SortCommutes(paths: seq<string>, storage: Storage)
    requires forall p | p in paths :: p in storage
    ensures forall p | p in Sort(paths, TextLe) :: p in storage
    ensures Sort(Devices(paths, storage), PathLe) == Devices(Sort(paths, TextLe), storage)
  {
    SortContains(paths, TextLe);
    if paths != [] {
      assert forall p | p in paths[1..] :: p in paths;
      SortCommutes(paths[1..], storage);
      SortContains(paths[1..], TextLe);
      assert Devices(paths, storage)[1..] == Devices(paths[1..], storage);
      PlaceCommutes(paths[0], Sort(paths[1..], TextLe), storage);
    }
  }

  lemma {:induction false} PlaceCommutes(x: string, paths: seq<string>, storage: Storage)
    requires x in storage && forall p | p in paths :: p in storage
    ensures forall p | p in Place(x, paths, TextLe) :: p in storage
    ensures Place(Device(x, storage[x]), Devices(paths, storage), PathLe) == Devices(Place(x, paths, TextLe), storage)
  {
    if paths != [] && !TextLe(x, paths[0]) {
      assert forall p | p in paths[1..] :: p in paths;
      PlaceCommutes(x, paths[1..], storage);
      assert Devices(paths, storage)[1..] == Devices(paths[1..], storage);
    }
  }

  // ---------------------------------------------------------------- sorting by key

  predicate Ordered(s: seq<Device>) {
    forall i, j :: 0 <= i < j < |s| ==> Precedes(s[i], s[j])
  }

  lemma PlacePrecedes(x: Device, y: Device)
    requires Less(x.path, y.path)
    ensures KeyLe(x, y) ==> Precedes(x, y)
    ensures !KeyLe(x, y) ==> Precedes(y, x)
  {
    KeyLessTransitive(x, y, x);
    Trichotomy(x, y);
  }

  /** Placing an element whose path comes first keeps the full order. */
  lemma {:induction false} PlaceOrdered(x: Device, s: seq<Device>)
    requires Ordered(s) && forall i :: 0 <= i < |s| ==> Less(x.path, s[i].path)
    ensures Ordered(Place(x, s, KeyLe))
  {
    if s != [] {
      PlacePrecedes(x, s[0]);
      if KeyLe(x, s[0]) {
        forall j | 0 <= j < |s| ensures Precedes(x, s[j]) {
          PlacePrecedes(x, s[j]);
          if j > 0 { KeyChain(x, s[0], s[j]); }
        }
      } else {
        PlaceOrdered(x, s[1..]);
        PlaceMembers(x, s[1..], KeyLe);
        var t := Place(x, s[1..], KeyLe);
        forall j | 0 <= j < |t| ensures Precedes(s[0], t[j]) {
          assert t[j] in multiset(t);
          assert t[j] == x || t[j] in s[1..];
        }
      }
    }
  }

  lemma KeyChain(x: Device, y: Device, z: Device)
    requires KeyLe(x, y) && Precedes(y, z)
    ensures KeyLe(x, z)
  {
    KeyLessTransitive(x, y, z);
    KeyLessTransitive(y, z, y);
    PrecedesStrict(y, z);
    Trichotomy(y, z);
    LessTotal(y.details.control, y.details.control);
  }

  /** A stable sort by key of a path-sorted list is sorted by (device id, control key, path). */
  lemma {:induction false} SortOrders(s: seq<Device>)
    requires PathSorted(s)
    ensures Ordered(Sort(s, KeyLe))
  {
    if s != [] {
      SortOrders(s[1..]);
      SortContains(s[1..], KeyLe);
      var t := Sort(s[1..], KeyLe);
      forall i | 0 <= i < |t| ensures Less(s[0].path, t[i].path) { assert t[i] in s[1..]; }
      PlaceOrdered(s[0], t);
    }
  }

  /** Sorting what is already in order changes nothing. */
  lemma {:induction false} SortAgain(s: seq<Device>)
    requires Ordered(s)
    ensures Sort(s, KeyLe) == s
  {
    if s != [] {
      SortAgain(s[1..]);
      if |s| > 1 {
        PrecedesStrict(s[0], s[1]);
        Trichotomy(s[0], s[1]);
        KeyLessTransitive(s[0], s[1], s[0]);
      }
    }
  }

  /** Two lists in full order with the same devices are the same list. */
  lemma {:induction false} OrderedUnique(a: seq<Device>, b: seq<Device>)
    requires Ordered(a) && Ordered(b) && forall x :: x in a <==> x in b
    ensures a == b
  {
    if a == [] {
      FirstIn(b);
    } else {
      assert a[0] in b && b != [] && b[0] in a;
      FirstsAgree(a, b);
      forall x ensures x in a[1..] <==> x in b[1..] {
        RestContains(a, x);
        RestContains(b, x);
      }
      OrderedUnique(a[1..], b[1..]);
      assert a == [a[0]] + a[1..] && b == [b[0]] + b[1..];
    }
  }

  lemma FirstIn(s: seq<Device>)
    ensures s != [] ==> s[0] in s
  {
  }

  lemma FirstsAgree(a: seq<Device>, b: seq<Device>)
    requires Ordered(a) && Ordered(b) && a != [] && b != [] && a[0] in b && b[0] in a
    ensures a[0] == b[0]
  {
    var i :| 0 <= i < |b| && b[i] == a[0];
    var j :| 0 <= j < |a| && a[j] == b[0];
    PrecedesStrict(a[0], b[0]);
  }

  lemma RestContains(s: seq<Device>, x: Device)
    requires Ordered(s) && s != []
    ensures x in s[1..] <==> x in s && x != s[0]
  {
    PrecedesStrict(s[0], s[0]);
  }

  // ---------------------------------------------------------------- the resolvers and the dialler

  /** A listing names every published path once, in any order. */
  ghost predicate Listing(order: seq<string>, storage: Storage) {
    Distinct(order) && forall p :: p in order <==> p in storage
  }

  datatype Listed = Listed(owner: string, path: string)

  /** The loop over listing entries in `resolve_inner`. */
  method CheckListing(identity: string, entries: seq<Listed>, validPath: string -> bool)
    returns (r: Result<seq<string>, Error>)
    ensures r.Ok? <==>
              && |entries| <= 8
              && (forall i :: 0 <= i < |entries| ==> entries[i].owner == identity && validPath(entries[i].path))
              && (forall i, j :: 0 <= i < j < |entries| ==> entries[i].path != entries[j].path)
    ensures r.Ok? ==> Distinct(r.value) && r.value == seq(|entries|, i requires 0 <= i < |entries| => entries[i].path)
  {
    if |entries| > MAX_DEVICES { return Err(TooManyDevices); }
    var paths: seq<string> := [];
    var unique: set<string> := {};
    for k := 0 to |entries|
      invariant |paths| == k && forall i :: 0 <= i < k ==> paths[i] == entries[i].path
      invariant forall p :: p in unique <==> p in paths
      invariant Distinct(paths)
      invariant forall i :: 0 <= i < k ==> entries[i].owner == identity && validPath(entries[i].path)
    {
      var path := entries[k].path;
      if entries[k].owner != identity { return Err(UnexpectedOwner); }
      if !validPath(path) { return Err(InvalidPath); }
      if path in unique {
        ghost var i :| 0 <= i < |paths| && paths[i] == path;
        return Err(DuplicateEntry);
      }
      unique := unique + {path};
      paths := paths + [path];
    }
    r := Ok(paths);
  }

  function TotalBytes(devices: seq<Device>): nat {
    if devices == [] then 0 else TotalBytes(devices[..|devices| - 1]) + devices[|devices| - 1].details.bytes
  }

  lemma {:induction false} TotalGrows(devices: seq<Device>, k: int)
    requires 0 <= k <= |devices|
    ensures TotalBytes(devices[..k]) <= TotalBytes(devices)
  {
    if k < |devices| {
      TotalGrows(devices[..|devices| - 1], k);
      assert devices[..|devices| - 1][..k] == devices[..k];
    } else {
      assert devices[..k] == devices;
    }
  }

  /** The fetching loop of `resolve_inner`, within the aggregate byte limit. */
  method FetchAll(paths: seq<string>, storage: Storage, limit: nat) returns (r: Result<seq<Device>, Error>)
    ensures r.Ok? <==> (forall p | p in paths :: p in storage) && TotalBytes(Devices(paths, storage)) <= limit
    ensures r.Ok? ==> r.value == Devices(paths, storage)
  {
    var devices: seq<Device> := [];
    var total := 0;
    for k := 0 to |paths|
      invariant forall p | p in paths[..k] :: p in storage
      invariant devices == Devices(paths[..k], storage)
      invariant total == TotalBytes(devices) && total <= limit
    {
      if paths[k] !in storage { return Err(FetchFailed); }
      var device := Device(paths[k], storage[paths[k]]);
      assert paths[..k + 1] == paths[..k] + [paths[k]];
      assert (devices + [device])[..k] == devices;
      total := total + device.details.bytes;
      devices := devices + [device];
      if total > limit {
        if forall p | p in paths :: p in storage {
          assert Devices(paths, storage)[..k + 1] == devices;
          TotalGrows(Devices(paths, storage), k + 1);
        }
        return Err(TooManyBytes);
      }
    }
    assert paths[..|paths|] == paths;
    r := Ok(devices);
  }

  /** What `PubkyV1Resolver::resolve_devices` returns for a listing in the given order. */
  function PubkyDevices(order: seq<string>, storage: Storage): seq<Device>
    requires Listing(order, storage)
  {
    SortContains(order, TextLe);
    Sort(Devices(Sort(order, TextLe), storage), KeyLe)
  }

  /** What `StaticV1Resolver::resolve_devices` returns for a hash map in the given order. */
  function StaticDevices(order: seq<string>, storage: Storage): seq<Device>
    requires Listing(order, storage)
  {
    Sort(Devices(order, storage), PathLe)
  }

  function Wanted(devices: seq<Device>, deviceId: Option<string>): seq<Device> {
    if devices == [] then [] else
    (if deviceId.None? || devices[0].details.deviceId == deviceId.value then [devices[0]] else [])
    + Wanted(devices[1..], deviceId)
  }

  /** The candidates of `dial_inner`, in the order they are tried. */
  function Candidates(resolved: seq<Device>, deviceId: Option<string>): seq<Device> {
    var wanted := Wanted(Sort(resolved, KeyLe), deviceId);
    if |wanted| > MAX_CANDIDATES then wanted[..MAX_CANDIDATES] else wanted
  }

  lemma PubkyOrder(order: seq<string>, storage: Storage)
    requires Listing(order, storage)
    ensures Ordered(PubkyDevices(order, storage))
    ensures Sort(PubkyDevices(order, storage), KeyLe) == PubkyDevices(order, storage)
    ensures Sort(StaticDevices(order, storage), KeyLe) == PubkyDevices(order, storage)
    ensures forall x :: x in PubkyDevices(order, storage) <==> x.path in storage && storage[x.path] == x.details
  {
    SortContains(order, TextLe);
    SortText(order);
    SortCommutes(order, storage);
    var sorted := Devices(Sort(order, TextLe), storage);
    assert PathSorted(sorted);
    SortOrders(sorted);
    SortAgain(Sort(sorted, KeyLe));
    SortContains(sorted, KeyLe);
    forall x ensures x in sorted <==> x.path in storage && storage[x.path] == x.details {
      if x.path in storage && storage[x.path] == x.details {
        var i :| 0 <= i < |Sort(order, TextLe)| && Sort(order, TextLe)[i] == x.path;
        assert sorted[i] == x;
      }
    }
  }

  /**
    The order in which `dial` tries devices depends only on the published records: it is the same for
    every listing order, every hash-map order and both resolvers, and it is the one list of the published
    devices that is lexicographic in (device id, control key, path).
  */
  lemma DialOrderIsCanonical(order: seq<string>, order': seq<string>, storage: Storage, deviceId: Option<string>)
    requires Listing(order, storage) && Listing(order', storage)
    ensures Candidates(PubkyDevices(order, storage), deviceId) == Candidates(PubkyDevices(order', storage), deviceId)
    ensures Candidates(PubkyDevices(order, storage), deviceId) == Candidates(StaticDevices(order', storage), deviceId)
    ensures Ordered(Candidates(StaticDevices(order', storage), deviceId))
    ensures Ordered(Sort(StaticDevices(order', storage), KeyLe))
    ensures forall x :: x in Sort(StaticDevices(order', storage), KeyLe)
                        <==> x.path in storage && storage[x.path] == x.details
  {
    PubkyOrder(order, storage);
    PubkyOrder(order', storage);
    OrderedUnique(PubkyDevices(order, storage), PubkyDevices(order', storage));
    WantedOrdered(PubkyDevices(order', storage), deviceId);
  }

  /** The candidates are tried in that order too, and with no device named all are tried. */
  lemma {:induction false} WantedOrdered(devices: seq<Device>, deviceId: Option<string>)
    requires Ordered(devices)
    ensures Ordered(Wanted(devices, deviceId))
    ensures forall x :: x in Wanted(devices, deviceId)
                        <==> x in devices && (deviceId.None? || x.details.deviceId == deviceId.value)
    ensures |Wanted(devices, deviceId)| <= |devices|
    ensures deviceId.None? ==> Wanted(devices, deviceId) == devices
  {
    if devices != [] {
      WantedOrdered(devices[1..], deviceId);
      var rest := Wanted(devices[1..], deviceId);
      assert devices == [devices[0]] + devices[1..];
      forall i | 0 <= i < |rest| ensures Precedes(devices[0], rest[i]) { assert rest[i] in devices[1..]; }
    }
  }

  /** No more than eight devices are tried: the first eight of those wanted, in order. */
  lemma AtMostEightAreTried(resolved: seq<Device>, deviceId: Option<string>)
    ensures |Candidates(resolved, deviceId)| <= 8
    ensures Candidates(resolved, deviceId) <= Wanted(Sort(resolved, KeyLe), deviceId)
    ensures |Candidates(resolved, deviceId)| < 8 ==>
              Candidates(resolved, deviceId) == Wanted(Sort(resolved, KeyLe), deviceId)
  {
  }

  /** A listing the resolver does not refuse for its length leaves no wanted device untried. */
  lemma NoneLeftUntried(order: seq<string>, storage: Storage, deviceId: Option<string>, x: Device)
    requires Listing(order, storage) && |order| <= 8
    ensures x in Candidates(PubkyDevices(order, storage), deviceId)
            <==> && x.path in storage && storage[x.path] == x.details
                 && (deviceId.None? || x.details.deviceId == deviceId.value)
  {
    PubkyOrder(order, storage);
    WantedOrdered(PubkyDevices(order, storage), deviceId);
    SortContains(order, TextLe);
    SortContains(Devices(Sort(order, TextLe), storage), KeyLe);
  }
}
