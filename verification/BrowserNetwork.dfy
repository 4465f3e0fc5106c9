/**
  The network lifecycle of the browser core (crates/browser-wasm/src/lib.rs,
  `publish_and_go_online`, `request_peer`, `accept_inbound`, `activate_peer`, the incoming, expiry,
  renewal and receive loops, `fail_online_endpoint` and `shutdown_network`).

  Each stretch from a borrow of the shared state to the next await is one atomic region: a method of
  `NetworkState`, tied to a function on `Net`. Epochs and request ids are unbounded; the original wraps
  at 2^64.
*/
module BrowserNetwork {
  import opened Base
  import opened Collections

  const MAX_CONNECTED_PEERS: int := 16
  const MAX_PENDING_INBOUND: int := 16
  const MAX_PENDING_PER_IDENTITY: int := 2

  type ClientId = int
  type RecordId = int
  type SessionId = int
  type RequestId = int

  /** The network fields of the shared state. */
  datatype Net = Net(
    client: Option<ClientId>, record: Option<RecordId>, renewal: bool, peers: map<string, SessionId>,
    pending: map<RequestId, string>, dialing: set<string>, goingOnline: bool, epoch: int, lastRequest: RequestId)

  const OFFLINE: Net := Net(None, None, false, map[], map[], {}, false, 0, 0)

  // ---------------------------------------------------------------- regions

  /** `publish_and_go_online` after preparing the device; `allowed` stands for the authentication checks. */
  predicate MayGoOnline(n: Net, allowed: bool) {
    allowed && !n.goingOnline && n.client.None?
  }

  function GoingOnline(n: Net): Net {
    n.(goingOnline := true, epoch := n.epoch + 1)
  }

  function SetupFailed(n: Net, epoch: int): Net {
    if n.epoch == epoch then n.(goingOnline := false) else n
  }

  function Online(n: Net, epoch: int, client: ClientId, record: RecordId): Net {
    if n.epoch != epoch then n else
    n.(goingOnline := false, record := Some(record), client := Some(client), renewal := true)
  }

  predicate MayDial(n: Net, peer: string, own: Option<string>) {
    && own != Some(peer)
    && n.client.Some?
    && |n.peers| + |n.dialing| < MAX_CONNECTED_PEERS
    && peer !in n.peers
    && peer !in n.dialing
  }

  function Dialing(n: Net, peer: string): Net {
    n.(dialing := n.dialing + {peer})
  }

  function DialEnded(n: Net, epoch: int, peer: string): Net {
    if n.epoch == epoch then n.(dialing := n.dialing - {peer}) else n
  }

  predicate MayActivate(n: Net, epoch: int, peer: string) {
    n.epoch == epoch && n.client.Some? && |n.peers| < MAX_CONNECTED_PEERS && peer !in n.peers
  }

  function Activated(n: Net, epoch: int, peer: string, session: SessionId): Net {
    if MayActivate(n, epoch, peer) then n.(peers := n.peers[peer := session]) else n
  }

  function RequestsOf(pending: map<RequestId, string>, identity: string): set<RequestId> {
    set r | r in pending && pending[r] == identity
  }

  predicate MayQueue(n: Net, epoch: int, identity: string) {
    && n.epoch == epoch && n.client.Some?
    && |n.pending| < MAX_PENDING_INBOUND
    && |RequestsOf(n.pending, identity)| < MAX_PENDING_PER_IDENTITY
  }

  function Arrived(n: Net, epoch: int, identity: string): Net {
    if MayQueue(n, epoch, identity)
    then n.(lastRequest := n.lastRequest + 1, pending := n.pending[n.lastRequest + 1 := identity])
    else n
  }

  function Answered(n: Net, request: RequestId): Net {
    n.(pending := n.pending - {request})
  }

  function Expired(n: Net, epoch: int, request: RequestId): Net {
    if n.epoch == epoch then Answered(n, request) else n
  }

  function Renewed(n: Net, epoch: int, record: RecordId): Net {
    if n.epoch == epoch && n.client.Some? then n.(record := Some(record)) else n
  }

  /** Everything that belongs to an endpoint goes, and with it the epoch. */
  function Down(n: Net): Net {
    n.(client := None, record := None, renewal := false, peers := map[], pending := map[], dialing := {},
       goingOnline := false, epoch := n.epoch + 1)
  }

  function EndpointFailed(n: Net, epoch: int): Net {
    if n.epoch == epoch then Down(n) else n
  }

  function PeerGone(n: Net, epoch: int, peer: string, session: SessionId): Net {
    if n.epoch == epoch && peer in n.peers && n.peers[peer] == session then n.(peers := n.peers - {peer}) else n
  }

  // ---------------------------------------------------------------- what every region keeps

  /** Without an endpoint there is nothing that belongs to one; with one, it is published and renewed. */
  predicate EndpointOk(n: Net) {
    && (n.client.None? ==> n.peers == map[] && n.pending == map[] && n.dialing == {} && n.record.None? && !n.renewal)
    && (n.client.Some? ==> n.record.Some? && n.renewal && !n.goingOnline)
  }

  ghost predicate PendingWithin(pending: map<RequestId, string>, lastRequest: RequestId) {
    && |pending| <= MAX_PENDING_INBOUND
    && (forall identity :: |RequestsOf(pending, identity)| <= MAX_PENDING_PER_IDENTITY)
    && (forall r | r in pending :: r <= lastRequest)
  }

  ghost predicate LimitsOk(n: Net) {
    |n.peers| <= MAX_CONNECTED_PEERS && PendingWithin(n.pending, n.lastRequest)
  }

  /** The part of the invariant that speaks of the shared state alone. */
  ghost predicate NetOk(n: Net) {
    EndpointOk(n) && LimitsOk(n)
  }

  /** The network half of the shared `BrowserState`. */
  class NetworkState {
    var client: Option<ClientId>
    var record: Option<RecordId>
    var renewal: bool
    var peers: map<string, SessionId>
    var pending: map<RequestId, string>
    var dialing: set<string>
    var goingOnline: bool
    var epoch: int
    var lastRequest: RequestId

    ghost function View(): Net
      reads this
    {
      Net(client, record, renewal, peers, pending, dialing, goingOnline, epoch, lastRequest)
    }

    ghost predicate Valid()
      reads this
    {
      NetOk(View())
    }

    constructor ()
      ensures Valid() && View() == OFFLINE
    {
      NoRequests();
      client, record, renewal, peers, pending, dialing := None, None, false, map[], map[], {};
      goingOnline, epoch, lastRequest := false, 0, 0;
    }

    method StartGoingOnline(allowed: bool) returns (r: Option<int>)
      requires Valid()
      modifies this
      ensures Valid()
      ensures r == if MayGoOnline(old(View()), allowed) then Some(old(epoch) + 1) else None
      ensures View() == if r.Some? then GoingOnline(old(View())) else old(View())
    {
      hide PendingWithin;
      if !allowed || goingOnline || client.Some? { return None; }
      goingOnline := true;
      epoch := epoch + 1;
      r := Some(epoch);
    }

    method FailSetup(seen: int)
      requires Valid()
      modifies this
      ensures Valid()
      ensures View() == SetupFailed(old(View()), seen)
    {
      hide PendingWithin;
      if epoch == seen { goingOnline := false; }
    }

    method FinishGoingOnline(seen: int, c: ClientId, r: RecordId) returns (stale: bool)
      requires Valid()
      modifies this
      ensures Valid()
      ensures View() == Online(old(View()), seen, c, r)
      ensures stale <==> old(epoch) != seen
    {
      hide PendingWithin;
      if epoch != seen { return true; }
      goingOnline := false;
      record := Some(r);
      client := Some(c);
      renewal := true;
      stale := false;
    }

    method StartDial(peer: string, own: Option<string>) returns (r: Option<int>)
      requires Valid()
      modifies this
      ensures Valid()
      ensures r == if MayDial(old(View()), peer, own) then Some(old(epoch)) else None
      ensures View() == if r.Some? then Dialing(old(View()), peer) else old(View())
    {
      hide PendingWithin;
      if own == Some(peer) || client.None? || |peers| + |dialing| >= MAX_CONNECTED_PEERS || peer in peers {
        return None;
      }
      if peer in dialing { return None; }
      dialing := dialing + {peer};
      r := Some(epoch);
    }

    method EndDial(seen: int, peer: string)
      requires Valid()
      modifies this
      ensures Valid()
      ensures View() == DialEnded(old(View()), seen, peer)
    {
      hide PendingWithin;
      if epoch == seen { dialing := dialing - {peer}; }
    }

    method Activate(seen: int, peer: string, session: SessionId) returns (ok: bool)
      requires Valid()
      modifies this
      ensures Valid()
      ensures View() == Activated(old(View()), seen, peer, session)
      ensures ok <==> MayActivate(old(View()), seen, peer)
    {
      hide NetOk;
      ActivatedOk(View(), seen, peer, session);
      if epoch != seen || client.None? { return false; }
      if |peers| >= MAX_CONNECTED_PEERS || peer in peers { return false; }
      peers := peers[peer := session];
      ok := true;
    }

    /** One turn of the incoming loop. */
    method Arrive(seen: int, identity: string) returns (r: Option<RequestId>)
      requires Valid()
      modifies this
      ensures Valid()
      ensures View() == Arrived(old(View()), seen, identity)
      ensures r == if MayQueue(old(View()), seen, identity) then Some(lastRequest) else None
    {
      hide NetOk, RequestsOf;
      ArrivedOk(View(), seen, identity);
      var pendingForIdentity := |RequestsOf(pending, identity)|;
      if epoch != seen || client.None? { return None; }
      if |pending| >= MAX_PENDING_INBOUND || pendingForIdentity >= MAX_PENDING_PER_IDENTITY { return None; }
      lastRequest := lastRequest + 1;
      pending := pending[lastRequest := identity];
      r := Some(lastRequest);
    }

    /** First region of `accept_inbound`, and all of `reject_inbound`. */
    method Answer(request: RequestId) returns (r: Option<string>)
      requires Valid()
      modifies this
      ensures Valid()
      ensures View() == Answered(old(View()), request)
      ensures r == if request in old(pending) then Some(old(pending)[request]) else None
    {
      hide NetOk;
      AnsweredOk(View(), request);
      if request !in pending { r := None; } else { r := Some(pending[request]); }
      pending := pending - {request};
    }

    method Expire(seen: int, request: RequestId)
      requires Valid()
      modifies this
      ensures Valid()
      ensures View() == Expired(old(View()), seen, request)
    {
      hide NetOk;
      AnsweredOk(View(), request);
      if epoch == seen { pending := pending - {request}; }
    }

    method Renew(seen: int, r: RecordId) returns (active: bool)
      requires Valid()
      modifies this
      ensures Valid()
      ensures View() == Renewed(old(View()), seen, r)
      ensures active <==> old(epoch) == seen && old(client).Some?
    {
      hide NetOk;
      RenewedOk(View(), seen, r);
      active := epoch == seen && client.Some?;
      if active { record := Some(r); }
    }

    method FailEndpoint(seen: int)
      requires Valid()
      modifies this
      ensures Valid()
      ensures View() == EndpointFailed(old(View()), seen)
    {
      hide NetOk;
      DownNetOk(View());
      if epoch != seen { return; }
      epoch := epoch + 1;
      goingOnline := false;
      client := None;
      dialing := {};
      renewal := false;
      record := None;
      peers := map[];
      pending := map[];
    }

    /** The end of a receive loop. */
    method LosePeer(seen: int, peer: string, session: SessionId) returns (removed: bool)
      requires Valid()
      modifies this
      ensures Valid()
      ensures View() == PeerGone(old(View()), seen, peer, session)
      ensures removed <==> old(epoch) == seen && peer in old(peers) && old(peers)[peer] == session
    {
      hide NetOk;
      PeerGoneOk(View(), seen, peer, session);
      removed := epoch == seen && peer in peers && peers[peer] == session;
      if removed { peers := peers - {peer}; }
    }

    method Shutdown()
      requires Valid()
      modifies this
      ensures Valid()
      ensures View() == Down(old(View()))
    {
      hide NetOk;
      DownNetOk(View());
      epoch := epoch + 1;
      goingOnline := false;
      dialing := {};
      pending := map[];
      client := None;
      peers := map[];
      record := None;
      renewal := false;
    }
  }

  // ---------------------------------------------------------------- interleavings

  datatype Dial = Dial(peer: string, epoch: int)

  /** The shared state with the endpoint setups and the dials suspended at an await, and a journal of the run. */
  datatype System = System(net: Net, setups: map<int, int>, dials: map<int, Dial>, log: seq<Mark>)

  const START: System := System(OFFLINE, map[], map[], [])

  datatype Event =
    | GoOnline(task: int, allowed: bool)
    | SetupFails(task: int)
    | SetupDone(task: int, client: ClientId, record: RecordId)
    | RequestPeer(task: int, peer: string, own: Option<string>)
    | DialEnds(task: int)
    | Activate(epoch: int, peer: string, session: SessionId)
    | Arrive(epoch: int, identity: string)
    | Answer(request: RequestId)
    | Expire(epoch: int, request: RequestId)
    | Renew(epoch: int, record: RecordId)
    | FailEndpoint(epoch: int)
    | LosePeer(epoch: int, peer: string, session: SessionId)
    | Shutdown

  /** One region, or `None` if no such operation is suspended. The loops may run with any epoch ever current. */
  function Region(s: System, e: Event): Option<System> {
    var n := s.net;
    match e
    case GoOnline(t, allowed) =>
      if t in s.setups then None else if !MayGoOnline(n, allowed) then Some(s) else
      Some(s.(net := GoingOnline(n), setups := s.setups[t := n.epoch + 1]))
    case SetupFails(t) =>
      if t !in s.setups then None else
      Some(s.(net := SetupFailed(n, s.setups[t]), setups := s.setups - {t}))
    case SetupDone(t, client, record) =>
      if t !in s.setups then None else
      Some(s.(net := Online(n, s.setups[t], client, record), setups := s.setups - {t}))
    case RequestPeer(t, peer, own) =>
      if t in s.dials then None else if !MayDial(n, peer, own) then Some(s) else
      Some(s.(net := Dialing(n, peer), dials := s.dials[t := Dial(peer, n.epoch)]))
    case DialEnds(t) =>
      if t !in s.dials then None else
      Some(s.(net := DialEnded(n, s.dials[t].epoch, s.dials[t].peer), dials := s.dials - {t}))
    case Activate(epoch, peer, session) => Some(s.(net := Activated(n, epoch, peer, session)))
    case Arrive(epoch, identity) => Some(s.(net := Arrived(n, epoch, identity)))
    case Answer(request) => Some(s.(net := Answered(n, request)))
    case Expire(epoch, request) => Some(s.(net := Expired(n, epoch, request)))
    case Renew(epoch, record) => Some(s.(net := Renewed(n, epoch, record)))
    case FailEndpoint(epoch) => Some(s.(net := EndpointFailed(n, epoch)))
    case LosePeer(epoch, peer, session) => Some(s.(net := PeerGone(n, epoch, peer, session)))
    case Shutdown => Some(s.(net := Down(n)))
  }

  // ---------------------------------------------------------------- the journal of a run

  datatype Endpoint = Endpoint(client: ClientId, record: RecordId)

  function EndpointOf(n: Net): Option<Endpoint> {
    if n.client.Some? && n.record.Some? then Some(Endpoint(n.client.value, n.record.value)) else None
  }

  /** What happened to requests, peers and the published record. */
  datatype Mark =
    | Queued(request: RequestId, identity: string)
    | AnsweredMark(request: RequestId)
    | TimedOut(request: RequestId)
    | Joined(peer: string, session: SessionId)
    | Lost(peer: string, session: SessionId)
    | Published(client: ClientId, record: RecordId)
    | EndpointDown

  /**
    What an event means for the journal, read off the state it meets. A request is queued while the endpoint is
    up and fewer than sixteen are waiting, fewer than two of them from its identity; it leaves when it is
    answered, or times out in its own epoch. A peer joins while fewer than sixteen others are connected and none
    goes by its name; it is lost when that very session ends. Every endpoint goes down with all that is its own.
  */
  function Journal(s: System, e: Event): seq<Mark> {
    var n := s.net;
    match e
    case Arrive(epoch, identity) =>
      if && epoch == n.epoch && n.client != None && |n.pending| < 16
         && |set r | r in n.pending && n.pending[r] == identity| < 2
      then [Queued(n.lastRequest + 1, identity)] else []
    case Answer(request) => if request in n.pending then [AnsweredMark(request)] else []
    case Expire(epoch, request) => if epoch == n.epoch && request in n.pending then [TimedOut(request)] else []
    case Activate(epoch, peer, session) =>
      if epoch == n.epoch && n.client != None && |n.peers| < 16 && peer !in n.peers.Keys
      then [Joined(peer, session)] else []
    case LosePeer(epoch, peer, session) =>
      if epoch == n.epoch && peer in n.peers && n.peers[peer] == session then [Lost(peer, session)] else []
    case SetupDone(t, client, record) =>
      if t in s.setups && s.setups[t] == n.epoch then [Published(client, record)] else []
    case Renew(epoch, record) =>
      if epoch == n.epoch && n.client.Some? then [Published(n.client.value, record)] else []
    case FailEndpoint(epoch) => if epoch == n.epoch then [EndpointDown] else []
    case Shutdown => [EndpointDown]
    case _ => []
  }

  /** One region and its entry in the journal. */
  function Apply(s: System, e: Event): Option<System> {
    var t := Region(s, e);
    if t.None? then None else Some(t.value.(log := s.log + Journal(s, e)))
  }

  function Execute(events: seq<Event>): Option<System>
    decreases |events|
  {
    if events == [] then Some(START) else
    var before := Execute(events[..|events| - 1]);
    if before.None? then None else Apply(before.value, events[|events| - 1])
  }

  /** The requests that are waiting, according to the journal. */
  function Waiting(log: seq<Mark>): map<RequestId, string>
    decreases |log|
  {
    if log == [] then map[] else
    var before := Waiting(log[..|log| - 1]);
    match log[|log| - 1]
    case Queued(r, identity) => before[r := identity]
    case AnsweredMark(r) => before - {r}
    case TimedOut(r) => before - {r}
    case EndpointDown => map[]
    case _ => before
  }

  /** The peers that are connected, according to the journal. */
  function Connected(log: seq<Mark>): map<string, SessionId>
    decreases |log|
  {
    if log == [] then map[] else
    var before := Connected(log[..|log| - 1]);
    match log[|log| - 1]
    case Joined(peer, session) => before[peer := session]
    case Lost(peer, _) => before - {peer}
    case EndpointDown => map[]
    case _ => before
  }

  /** The endpoint that is up and the record it published last, according to the journal. */
  function Up(log: seq<Mark>): Option<Endpoint>
    decreases |log|
  {
    if log == [] then None else
    match log[|log| - 1]
    case Published(client, record) => Some(Endpoint(client, record))
    case EndpointDown => None
    case _ => Up(log[..|log| - 1])
  }

  // ---------------------------------------------------------------- the invariant

  /** `goingOnline` is exactly one setup of the current epoch. */
  predicate SetupsOk(s: System) {
    && (forall t | t in s.setups :: s.setups[t] <= s.net.epoch)
    && (forall t | t in s.setups && s.setups[t] == s.net.epoch :: s.net.goingOnline)
    && (forall t, u | t in s.setups && u in s.setups && s.setups[t] == s.net.epoch == s.setups[u] :: t == u)
    && (s.net.goingOnline ==> exists t :: t in s.setups && s.setups[t] == s.net.epoch)
  }

  /** `dialing` is exactly the dials of the current epoch in flight, no peer twice. */
  predicate DialsOk(s: System) {
    && (forall t | t in s.dials :: s.dials[t].epoch <= s.net.epoch)
    && (forall t | t in s.dials && s.dials[t].epoch == s.net.epoch :: s.dials[t].peer in s.net.dialing)
    && (forall p | p in s.net.dialing ::
          exists t :: t in s.dials && s.dials[t].epoch == s.net.epoch && s.dials[t].peer == p)
    && (forall t, u | t in s.dials && u in s.dials && s.dials[t] == s.dials[u] && s.dials[t].epoch == s.net.epoch ::
          t == u)
  }

  ghost predicate Inv(s: System) {
    NetOk(s.net) && SetupsOk(s) && DialsOk(s)
  }

  lemma AnsweredWithin(pending: map<RequestId, string>, last: RequestId, request: RequestId)
    requires PendingWithin(pending, last)
    ensures PendingWithin(pending - {request}, last)
    ensures pending == map[] ==> pending - {request} == map[]
  {
    var fewer := pending - {request};
    RemoveSize(pending, request);
    forall identity ensures |RequestsOf(fewer, identity)| <= MAX_PENDING_PER_IDENTITY {
      SubsetSize(RequestsOf(fewer, identity), RequestsOf(pending, identity));
    }
  }

  lemma RequestsAdded(pending: map<RequestId, string>, r: RequestId, identity: string, id: string)
    requires r !in pending
    ensures |RequestsOf(pending[r := identity], id)| <= |RequestsOf(pending, id)| + (if id == identity then 1 else 0)
  {
    var more := pending[r := identity];
    if id == identity {
      assert RequestsOf(more, id) == RequestsOf(pending, id) + {r};
    } else {
      assert RequestsOf(more, id) == RequestsOf(pending, id);
    }
  }

  lemma ArrivedWithin(pending: map<RequestId, string>, last: RequestId, identity: string)
    requires PendingWithin(pending, last) && |pending| < MAX_PENDING_INBOUND
    requires |RequestsOf(pending, identity)| < MAX_PENDING_PER_IDENTITY
    ensures PendingWithin(pending[last + 1 := identity], last + 1)
  {
    hide RequestsOf;
    var more := pending[last + 1 := identity];
    InsertSize(pending, last + 1, identity);
    forall id ensures |RequestsOf(more, id)| <= MAX_PENDING_PER_IDENTITY {
      RequestsAdded(pending, last + 1, identity, id);
    }
  }

  lemma DownNetOk(n: Net)
    ensures NetOk(Down(n))
  {
    NoRequests();
  }

  lemma DownOk(s: System)
    requires Inv(s)
    ensures Inv(s.(net := Down(s.net)))
  {
    hide NetOk;
    DownNetOk(s.net);
  }

  lemma NoRequests()
    ensures forall identity :: RequestsOf(map[], identity) == {}
  {
  }

  lemma GoOnlineKeeps(s: System, e: Event)
    requires Inv(s) && e.GoOnline? && Region(s, e).Some?
    ensures Inv(Region(s, e).value)
  {
    hide PendingWithin;
    var t := Region(s, e).value;
    if MayGoOnline(s.net, e.allowed) { assert t.setups[e.task] == t.net.epoch; }
  }

  /** A setup that ends, either way: the flag goes exactly if it was the current one. */
  lemma SetupEnds(s: System, t: System, task: int)
    requires SetupsOk(s) && task in s.setups && t.setups == s.setups - {task} && t.net.epoch == s.net.epoch
    requires t.net.goingOnline == (s.net.goingOnline && s.setups[task] != s.net.epoch)
    ensures SetupsOk(t)
  {
    if t.net.goingOnline {
      var u :| u in s.setups && s.setups[u] == s.net.epoch;
      assert u in t.setups;
    }
  }

  lemma SetupEndKeeps(s: System, e: Event)
    requires Inv(s) && (e.SetupFails? || e.SetupDone?) && Region(s, e).Some?
    ensures Inv(Region(s, e).value)
  {
    hide PendingWithin, DialsOk;
    var t := Region(s, e).value;
    SetupEnds(s, t, e.task);
    DialsFrame(s, t);
  }

  /** One more dial of the current epoch, to a peer not yet dialled. */
  lemma DialAdded(s: System, t: System, task: int, peer: string)
    requires DialsOk(s) && task !in s.dials && peer !in s.net.dialing
    requires t.dials == s.dials[task := Dial(peer, s.net.epoch)]
    requires t.net.epoch == s.net.epoch && t.net.dialing == s.net.dialing + {peer}
    ensures DialsOk(t)
  {
    forall p | p in t.net.dialing
      ensures exists d :: d in t.dials && t.dials[d].epoch == t.net.epoch && t.dials[d].peer == p
    {
      if p == peer {
        assert t.dials[task].peer == p;
      } else {
        var d :| d in s.dials && s.dials[d].epoch == s.net.epoch && s.dials[d].peer == p;
        assert t.dials[d] == s.dials[d];
      }
    }
  }

  lemma RequestPeerKeeps(s: System, e: Event)
    requires Inv(s) && e.RequestPeer? && Region(s, e).Some?
    ensures Inv(Region(s, e).value)
  {
    hide PendingWithin, SetupsOk, DialsOk;
    if MayDial(s.net, e.peer, e.own) {
      var t := Region(s, e).value;
      SetupsFrame(s, t);
      DialAdded(s, t, e.task, e.peer);
    }
  }

  lemma DialEndsKeeps(s: System, e: Event)
    requires Inv(s) && e.DialEnds? && Region(s, e).Some?
    ensures Inv(Region(s, e).value)
  {
    hide PendingWithin, SetupsOk;
    var t := Region(s, e).value;
    SetupsFrame(s, t);
    forall p | p in t.net.dialing
      ensures exists d :: d in t.dials && t.dials[d].epoch == t.net.epoch && t.dials[d].peer == p
    {
      var d :| d in s.dials && s.dials[d].epoch == s.net.epoch && s.dials[d].peer == p;
      assert d in t.dials;
    }
  }

  lemma SetupsFrame(s: System, t: System)
    requires SetupsOk(s) && t.setups == s.setups
    requires t.net.epoch == s.net.epoch && t.net.goingOnline == s.net.goingOnline
    ensures SetupsOk(t)
  {
  }

  lemma DialsFrame(s: System, t: System)
    requires DialsOk(s) && t.dials == s.dials && t.net.epoch == s.net.epoch && t.net.dialing == s.net.dialing
    ensures DialsOk(t)
  {
  }

  lemma ActivatedOk(n: Net, epoch: int, peer: string, session: SessionId)
    requires NetOk(n)
    ensures NetOk(Activated(n, epoch, peer, session))
  {
    hide PendingWithin;
    InsertSize(n.peers, peer, session);
  }

  lemma PeerGoneOk(n: Net, epoch: int, peer: string, session: SessionId)
    requires NetOk(n)
    ensures NetOk(PeerGone(n, epoch, peer, session))
  {
    hide PendingWithin;
    RemoveSize(n.peers, peer);
  }

  lemma ArrivedOk(n: Net, epoch: int, identity: string)
    requires NetOk(n)
    ensures NetOk(Arrived(n, epoch, identity))
  {
    hide PendingWithin, RequestsOf;
    if MayQueue(n, epoch, identity) { ArrivedWithin(n.pending, n.lastRequest, identity); }
  }

  lemma AnsweredOk(n: Net, request: RequestId)
    requires NetOk(n)
    ensures NetOk(Answered(n, request))
  {
    hide PendingWithin;
    AnsweredWithin(n.pending, n.lastRequest, request);
  }

  lemma RenewedOk(n: Net, epoch: int, record: RecordId)
    requires NetOk(n)
    ensures NetOk(Renewed(n, epoch, record))
  {
    hide PendingWithin;
  }

  lemma LoopKeeps(s: System, e: Event)
    requires Inv(s) && Region(s, e).Some?
    requires e.Activate? || e.Arrive? || e.Answer? || e.Expire? || e.Renew? || e.LosePeer?
    ensures Inv(Region(s, e).value)
  {
    hide SetupsOk, DialsOk, NetOk, MayQueue, MayActivate;
    var n, t := s.net, Region(s, e).value;
    SetupsFrame(s, t);
    DialsFrame(s, t);
    match e
    case Activate(epoch, peer, session) => ActivatedOk(n, epoch, peer, session);
    case LosePeer(epoch, peer, session) => PeerGoneOk(n, epoch, peer, session);
    case Arrive(epoch, identity) => ArrivedOk(n, epoch, identity);
    case Answer(request) => AnsweredOk(n, request);
    case Expire(_, request) => AnsweredOk(n, request);
    case Renew(epoch, record) => RenewedOk(n, epoch, record);
  }

  lemma RegionKeeps(s: System, e: Event)
    requires Inv(s) && Region(s, e).Some?
    ensures Inv(Region(s, e).value)
  {
    hide Inv;
    match e
    case GoOnline(_, _) => GoOnlineKeeps(s, e);
    case SetupFails(_) => SetupEndKeeps(s, e);
    case SetupDone(_, _, _) => SetupEndKeeps(s, e);
    case RequestPeer(_, _, _) => RequestPeerKeeps(s, e);
    case DialEnds(_) => DialEndsKeeps(s, e);
    case FailEndpoint(_) => DownOk(s);
    case Shutdown => DownOk(s);
    case _ => LoopKeeps(s, e);
  }

  lemma ApplyKeeps(s: System, e: Event)
    requires Inv(s) && Apply(s, e).Some?
    ensures Inv(Apply(s, e).value)
  {
    hide Region, Journal, NetOk;
    RegionKeeps(s, e);
    SetupsFrame(Region(s, e).value, Apply(s, e).value);
    DialsFrame(Region(s, e).value, Apply(s, e).value);
  }

  lemma {:induction false} RunKeeps(events: seq<Event>)
    requires Execute(events).Some?
    ensures Inv(Execute(events).value)
    decreases |events|
  {
    hide Apply;
    if events == [] {
      NoRequests();
    } else {
      RunKeeps(events[..|events| - 1]);
      ApplyKeeps(Execute(events[..|events| - 1]).value, events[|events| - 1]);
    }
  }

  // ---------------------------------------------------------------- the journal is kept

  /** The state holds exactly what the journal says, and the journal is one of things that can happen. */
  ghost predicate Journaled(s: System) {
    && s.net.pending == Waiting(s.log)
    && s.net.peers == Connected(s.log)
    && EndpointOf(s.net) == Up(s.log)
    && Orderly(s.log)
    && (forall i :: 0 <= i < |s.log| && s.log[i].Queued? ==> s.log[i].request <= s.net.lastRequest)
  }

  /** Request ids are new when they are queued, and requests and peers leave only while they are there. */
  predicate Orderly(log: seq<Mark>) {
    && (forall i, j :: 0 <= i < j < |log| && log[i].Queued? && log[j].Queued? ==> log[i].request < log[j].request)
    && (forall j :: 0 <= j < |log| && (log[j].AnsweredMark? || log[j].TimedOut?) ==>
          log[j].request in Waiting(log[..j]))
    && (forall j :: 0 <= j < |log| && log[j].Joined? ==> log[j].peer !in Connected(log[..j]))
    && (forall j :: 0 <= j < |log| && log[j].Lost? ==>
          log[j].peer in Connected(log[..j]) && Connected(log[..j])[log[j].peer] == log[j].session)
  }

  lemma OneMark(log: seq<Mark>, m: Mark)
    requires Orderly(log)
    requires m.Queued? ==> forall i :: 0 <= i < |log| && log[i].Queued? ==> log[i].request < m.request
    requires m.AnsweredMark? || m.TimedOut? ==> m.request in Waiting(log)
    requires m.Joined? ==> m.peer !in Connected(log)
    requires m.Lost? ==> m.peer in Connected(log) && Connected(log)[m.peer] == m.session
    ensures Orderly(log + [m])
  {
    hide Waiting, Connected;
    var longer := log + [m];
    assert longer[..|log|] == log;
    assert forall j :: 0 <= j < |log| ==> longer[j] == log[j] && longer[..j] == log[..j];
  }

  /** What one more mark does to what the journal says. */
  lemma Folds(log: seq<Mark>, m: Mark)
    ensures Waiting(log + [m])
            == (if m.Queued? then Waiting(log)[m.request := m.identity]
                else if m.AnsweredMark? || m.TimedOut? then Waiting(log) - {m.request}
                else if m == EndpointDown then map[] else Waiting(log))
    ensures Connected(log + [m])
            == (if m.Joined? then Connected(log)[m.peer := m.session]
                else if m.Lost? then Connected(log) - {m.peer}
                else if m == EndpointDown then map[] else Connected(log))
    ensures Up(log + [m])
            == (if m.Published? then Some(Endpoint(m.client, m.record))
                else if m == EndpointDown then None else Up(log))
  {
    assert (log + [m])[..|log|] == log && (log + [m])[|log|] == m;
  }

  /** An event whose entry in the journal is `m` brings about what `m` says. */
  lemma EntryKept(s: System, e: Event, m: Mark)
    requires Journaled(s) && Apply(s, e).Some? && Journal(s, e) == [m]
    requires m.Queued? ==> m.request == s.net.lastRequest + 1
    requires m.AnsweredMark? || m.TimedOut? ==> m.request in s.net.pending
    requires m.Joined? ==> m.peer !in s.net.peers
    requires m.Lost? ==> m.peer in s.net.peers && s.net.peers[m.peer] == m.session
    requires var n, t := s.net, Apply(s, e).value.net;
             && t.lastRequest == n.lastRequest + (if m.Queued? then 1 else 0)
             && t.pending == (if m.Queued? then n.pending[m.request := m.identity]
                              else if m.AnsweredMark? || m.TimedOut? then n.pending - {m.request}
                              else if m == EndpointDown then map[] else n.pending)
             && t.peers == (if m.Joined? then n.peers[m.peer := m.session]
                            else if m.Lost? then n.peers - {m.peer}
                            else if m == EndpointDown then map[] else n.peers)
             && EndpointOf(t) == (if m.Published? then Some(Endpoint(m.client, m.record))
                                  else if m == EndpointDown then None else EndpointOf(n))
    ensures Journaled(Apply(s, e).value)
  {
    hide Region, Journal, Orderly, Waiting, Connected, Up;
    Folds(s.log, m);
    OneMark(s.log, m);
  }

  /** An event with no entry leaves requests, peers and record alone. */
  lemma NothingKept(s: System, e: Event)
    requires Journaled(s) && Apply(s, e).Some? && Journal(s, e) == []
    requires var n, t := s.net, Apply(s, e).value.net;
             && t.pending == n.pending && t.peers == n.peers && t.lastRequest == n.lastRequest
             && EndpointOf(t) == EndpointOf(n)
    ensures Journaled(Apply(s, e).value)
  {
    hide Region, Journal, Orderly, Waiting, Connected, Up;
    assert Apply(s, e).value.log == s.log;
  }

  lemma ArriveJournal(s: System, e: Event)
    requires Inv(s) && Journaled(s) && Apply(s, e).Some? && e.Arrive?
    ensures Journaled(Apply(s, e).value)
  {
    hide SetupsOk, DialsOk, NetOk, Journaled;
    if Journal(s, e) == [] { NothingKept(s, e); } else { EntryKept(s, e, Journal(s, e)[0]); }
  }

  lemma NothingToDrop(pending: map<RequestId, string>, request: RequestId)
    requires request !in pending
    ensures pending - {request} == pending
  {
  }

  lemma AnswerJournal(s: System, e: Event)
    requires Inv(s) && Journaled(s) && Apply(s, e).Some? && e.Answer?
    ensures Journaled(Apply(s, e).value)
  {
    hide Inv, Journaled;
    if e.request in s.net.pending {
      EntryKept(s, e, AnsweredMark(e.request));
    } else {
      NothingToDrop(s.net.pending, e.request);
      NothingKept(s, e);
    }
  }

  lemma ExpireJournal(s: System, e: Event)
    requires Inv(s) && Journaled(s) && Apply(s, e).Some? && e.Expire?
    ensures Journaled(Apply(s, e).value)
  {
    hide Inv, Journaled;
    if e.epoch == s.net.epoch && e.request in s.net.pending {
      EntryKept(s, e, TimedOut(e.request));
    } else {
      if e.request !in s.net.pending { NothingToDrop(s.net.pending, e.request); }
      NothingKept(s, e);
    }
  }

  lemma PeerJournal(s: System, e: Event)
    requires Inv(s) && Journaled(s) && Apply(s, e).Some? && (e.Activate? || e.LosePeer?)
    ensures Journaled(Apply(s, e).value)
  {
    hide SetupsOk, DialsOk, LimitsOk, Journaled;
    if Journal(s, e) == [] { NothingKept(s, e); } else { EntryKept(s, e, Journal(s, e)[0]); }
  }

  lemma PublishJournal(s: System, e: Event)
    requires Inv(s) && Journaled(s) && Apply(s, e).Some? && (e.SetupDone? || e.Renew?)
    ensures Journaled(Apply(s, e).value)
  {
    hide SetupsOk, DialsOk, LimitsOk, Journaled;
    if Journal(s, e) == [] { NothingKept(s, e); } else { EntryKept(s, e, Journal(s, e)[0]); }
  }

  lemma DownJournal(s: System, e: Event)
    requires Inv(s) && Journaled(s) && Apply(s, e).Some? && (e.FailEndpoint? || e.Shutdown?)
    ensures Journaled(Apply(s, e).value)
  {
    hide SetupsOk, DialsOk, NetOk, Journaled;
    if Journal(s, e) == [] { NothingKept(s, e); } else { EntryKept(s, e, Journal(s, e)[0]); }
  }

  lemma SetupJournal(s: System, e: Event)
    requires Journaled(s) && Apply(s, e).Some? && (e.GoOnline? || e.SetupFails?)
    ensures Journaled(Apply(s, e).value)
  {
    hide Journaled;
    NothingKept(s, e);
  }

  lemma DialJournal(s: System, e: Event)
    requires Journaled(s) && Apply(s, e).Some? && (e.RequestPeer? || e.DialEnds?)
    ensures Journaled(Apply(s, e).value)
  {
    hide Journaled, MayDial;
    NothingKept(s, e);
  }

  lemma JournalStep(s: System, e: Event)
    requires Inv(s) && Journaled(s) && Apply(s, e).Some?
    ensures Journaled(Apply(s, e).value)
  {
    hide Inv, Journaled, Apply;
    match e
    case Arrive(_, _) => ArriveJournal(s, e);
    case Answer(_) => AnswerJournal(s, e);
    case Expire(_, _) => ExpireJournal(s, e);
    case Activate(_, _, _) => PeerJournal(s, e);
    case LosePeer(_, _, _) => PeerJournal(s, e);
    case SetupDone(_, _, _) => PublishJournal(s, e);
    case Renew(_, _) => PublishJournal(s, e);
    case FailEndpoint(_) => DownJournal(s, e);
    case Shutdown => DownJournal(s, e);
    case GoOnline(_, _) => SetupJournal(s, e);
    case SetupFails(_) => SetupJournal(s, e);
    case _ => DialJournal(s, e);
  }

  lemma {:induction false} RunIsJournaled(events: seq<Event>)
    requires Execute(events).Some?
    ensures Journaled(Execute(events).value)
    decreases |events|
  {
    hide Apply, Inv;
    if events != [] {
      RunIsJournaled(events[..|events| - 1]);
      RunKeeps(events[..|events| - 1]);
      JournalStep(Execute(events[..|events| - 1]).value, events[|events| - 1]);
    }
  }

  // ---------------------------------------------------------------- what every interleaving keeps

  /** No endpoint, nothing of an endpoint; an endpoint and going online exclude each other; all limits hold. */
  lemma EveryInterleavingIsBounded(events: seq<Event>)
    requires Execute(events).Some?
    ensures NetOk(Execute(events).value.net)
  {
    hide Execute, RequestsOf;
    RunKeeps(events);
  }

  /** A mark that ends the wait of a request. */
  predicate Ends(m: Mark, request: RequestId) {
    m == AnsweredMark(request) || m == TimedOut(request) || m == EndpointDown
  }

  /** A request that is gone stays gone: its id is never queued again. */
  lemma {:induction false} GoneStays(log: seq<Mark>, i: int, j: int, k: int)
    requires Orderly(log) && 0 <= i < j <= k <= |log| && log[i].Queued?
    requires log[i].request !in Waiting(log[..j])
    ensures log[i].request !in Waiting(log[..k])
    decreases k
  {
    hide Waiting, Connected;
    if j < k {
      GoneStays(log, i, j, k - 1);
      assert log[..k] == log[..k - 1] + [log[k - 1]];
      Folds(log[..k - 1], log[k - 1]);
    }
  }

  lemma {:induction false} StaysUnlessEnded(log: seq<Mark>, i: int, k: int)
    requires Orderly(log) && 0 <= i < k <= |log| && log[i].Queued?
    ensures log[i].request in Waiting(log[..k]) <==> forall j :: i < j < k ==> !Ends(log[j], log[i].request)
    ensures log[i].request in Waiting(log[..k]) ==> Waiting(log[..k])[log[i].request] == log[i].identity
    decreases k
  {
    hide Waiting, Connected;
    assert log[..k] == log[..k - 1] + [log[k - 1]];
    Folds(log[..k - 1], log[k - 1]);
    if i < k - 1 { StaysUnlessEnded(log, i, k - 1); }
  }

  /**
    Over every run each request that was queued is still pending, under the identity it came from, or its wait
    ended: it was answered or timed out, once and never both, or went down with its endpoint. Nothing else is
    pending, and no id is ever queued twice.
  */
  lemma EveryRequestIsAccountedFor(events: seq<Event>, i: int)
    requires Execute(events).Some?
    requires 0 <= i < |Execute(events).value.log| && Execute(events).value.log[i].Queued?
    ensures var net, log := Execute(events).value.net, Execute(events).value.log;
            var r := log[i].request;
            && (r in net.pending <==> forall j :: i < j < |log| ==> !Ends(log[j], r))
            && (r in net.pending ==> net.pending[r] == log[i].identity)
            && (forall j, k :: i < j < k < |log| && Ends(log[j], r) ==>
                  log[k] != AnsweredMark(r) && log[k] != TimedOut(r))
            && (forall j :: 0 <= j < |log| && j != i && log[j].Queued? ==> log[j].request != r)
  {
    hide Execute, Waiting, Connected;
    RunIsJournaled(events);
    var log := Execute(events).value.log;
    var r := log[i].request;
    assert log[..|log|] == log;
    StaysUnlessEnded(log, i, |log|);
    forall j, k | i < j < k < |log| && Ends(log[j], r) ensures log[k] != AnsweredMark(r) && log[k] != TimedOut(r) {
      StaysUnlessEnded(log, i, k);
    }
  }

  lemma {:induction false} WaitingWasQueued(log: seq<Mark>, r: RequestId)
    requires r in Waiting(log)
    ensures exists i :: 0 <= i < |log| && log[i] == Queued(r, Waiting(log)[r])
    decreases |log|
  {
    var init := log[..|log| - 1];
    if log[|log| - 1] != Queued(r, Waiting(log)[r]) {
      WaitingWasQueued(init, r);
      var i :| 0 <= i < |init| && init[i] == Queued(r, Waiting(init)[r]);
      assert log[i] == init[i];
    }
  }

  /** Only requests that were queued are pending. */
  lemma PendingWasQueued(events: seq<Event>, r: RequestId)
    requires Execute(events).Some? && r in Execute(events).value.net.pending
    ensures var net, log := Execute(events).value.net, Execute(events).value.log;
            exists i :: 0 <= i < |log| && log[i] == Queued(r, net.pending[r])
  {
    hide Execute, Orderly, Connected;
    RunIsJournaled(events);
    WaitingWasQueued(Execute(events).value.log, r);
  }

  lemma {:induction false} ConnectedUnlessLost(log: seq<Mark>, i: int, k: int)
    requires Orderly(log) && 0 <= i < k <= |log| && log[i].Joined?
    ensures (forall j :: i < j < k ==> log[j] != Lost(log[i].peer, log[i].session) && log[j] != EndpointDown) ==>
              log[i].peer in Connected(log[..k]) && Connected(log[..k])[log[i].peer] == log[i].session
    decreases k
  {
    hide Waiting, Connected;
    assert log[..k] == log[..k - 1] + [log[k - 1]];
    Folds(log[..k - 1], log[k - 1]);
    if i < k - 1 { ConnectedUnlessLost(log, i, k - 1); }
  }

  lemma {:induction false} ConnectedHasJoined(log: seq<Mark>, k: int, peer: string) returns (i: int)
    requires Orderly(log) && 0 <= k <= |log| && peer in Connected(log[..k])
    ensures 0 <= i < k && log[i] == Joined(peer, Connected(log[..k])[peer])
    ensures forall j :: i < j < k ==> log[j] != EndpointDown && !(log[j].Lost? && log[j].peer == peer)
    decreases k
  {
    hide Waiting, Connected;
    if k == 0 { NobodyConnected(log); }
    assert log[..k] == log[..k - 1] + [log[k - 1]];
    Folds(log[..k - 1], log[k - 1]);
    if log[k - 1].Joined? && log[k - 1].peer == peer {
      i := k - 1;
    } else {
      i := ConnectedHasJoined(log, k - 1, peer);
    }
  }

  lemma NobodyConnected(log: seq<Mark>)
    ensures log[..0] == [] && Connected(log[..0]) == map[]
  {
  }

  /**
    Over every run a peer is connected with a session if and only if that session joined and was neither lost nor
    taken down with its endpoint since; and the endpoint that is up, with its record, is the last one published.
  */
  lemma EveryPeerIsAccountedFor(events: seq<Event>, peer: string, session: SessionId)
    requires Execute(events).Some?
    ensures var net, log := Execute(events).value.net, Execute(events).value.log;
            && (peer in net.peers && net.peers[peer] == session
                <==> exists i :: && 0 <= i < |log| && log[i] == Joined(peer, session)
                                 && forall j :: i < j < |log| ==>
                                      log[j] != Lost(peer, session) && log[j] != EndpointDown)
            && EndpointOf(net) == Up(log) && (net.client.Some? <==> Up(log).Some?)
  {
    hide Execute, Waiting, Connected, Orderly, LimitsOk;
    RunIsJournaled(events);
    RunKeeps(events);
    var log := Execute(events).value.log;
    assert log[..|log|] == log;
    if i :| 0 <= i < |log| && log[i] == Joined(peer, session)
            && forall j :: i < j < |log| ==> log[j] != Lost(peer, session) && log[j] != EndpointDown {
      ConnectedUnlessLost(log, i, |log|);
    }
    if peer in Connected(log) && Connected(log)[peer] == session { var i := ConnectedHasJoined(log, |log|, peer); }
  }

  /** `dialing` is exactly the peers of the dials in flight that were started in the current epoch. */
  lemma DialingIsExact(events: seq<Event>)
    requires Execute(events).Some?
    ensures var s := Execute(events).value;
            s.net.dialing == set t | t in s.dials && s.dials[t].epoch == s.net.epoch :: s.dials[t].peer
  {
    hide Execute, RequestsOf;
    RunKeeps(events);
  }

  /** The peers of the dials of the current epoch in flight. */
  function Dialled(s: System): set<string> {
    set t | t in s.dials && s.dials[t].epoch == s.net.epoch :: s.dials[t].peer
  }

  /**
    A dial starts exactly if the endpoint is up, the peer is someone else, is not connected and is not being
    dialled in this epoch, and fewer than sixteen peers are connected or being dialled.
  */
  lemma DialStartsExactly(events: seq<Event>, task: int, peer: string, own: Option<string>)
    requires Execute(events).Some? && task !in Execute(events).value.dials
    ensures var s := Execute(events).value;
            Apply(s, RequestPeer(task, peer, own)).Some?
            && (Apply(s, RequestPeer(task, peer, own)).value.dials == s.dials[task := Dial(peer, s.net.epoch)]
                <==> && own != Some(peer) && s.net.client.Some? && peer !in s.net.peers.Keys
                     && peer !in Dialled(s) && |s.net.peers| + |Dialled(s)| < 16)
            && (Apply(s, RequestPeer(task, peer, own)).value.dials == s.dials[task := Dial(peer, s.net.epoch)]
                || Apply(s, RequestPeer(task, peer, own)).value == s)
  {
    hide Execute;
    DialingIsExact(events);
    var s := Execute(events).value;
    assert task in s.dials[task := Dial(peer, s.net.epoch)];
    assert s.log + [] == s.log;
  }

  /** An endpoint is set up exactly if it is allowed, none is up, and no setup of the current epoch is in flight. */
  lemma SetupStartsExactly(events: seq<Event>, task: int, allowed: bool)
    requires Execute(events).Some? && task !in Execute(events).value.setups
    ensures var s := Execute(events).value;
            Apply(s, GoOnline(task, allowed)).Some?
            && (task in Apply(s, GoOnline(task, allowed)).value.setups
                <==> && allowed && s.net.client.None?
                     && forall t | t in s.setups :: s.setups[t] != s.net.epoch)
            && (task in Apply(s, GoOnline(task, allowed)).value.setups ==>
                  Apply(s, GoOnline(task, allowed)).value.setups[task] == s.net.epoch + 1)
  {
    hide Execute, NetOk, DialsOk;
    RunKeeps(events);
  }

  /** The epoch a suspended operation remembers, if it remembers one. */
  function Remembers(s: System, e: Event): Option<int> {
    match e
    case SetupFails(t) => if t in s.setups then Some(s.setups[t]) else None
    case SetupDone(t, _, _) => if t in s.setups then Some(s.setups[t]) else None
    case DialEnds(t) => if t in s.dials then Some(s.dials[t].epoch) else None
    case Activate(epoch, _, _) => Some(epoch)
    case Arrive(epoch, _) => Some(epoch)
    case Expire(epoch, _) => Some(epoch)
    case Renew(epoch, _) => Some(epoch)
    case FailEndpoint(epoch) => Some(epoch)
    case LosePeer(epoch, _, _) => Some(epoch)
    case _ => None
  }

  /** A continuation from another epoch leaves the whole network state as it is. */
  lemma StaleContinuationsAreInert(s: System, e: Event)
    requires Remembers(s, e).Some? && Remembers(s, e).value != s.net.epoch && Apply(s, e).Some?
    ensures Apply(s, e).value.net == s.net && Apply(s, e).value.log == s.log
  {
  }

  lemma EpochStep(s: System, e: Event)
    requires Apply(s, e).Some?
    ensures s.net.epoch <= Apply(s, e).value.net.epoch
  {
    hide MayQueue, MayActivate, MayDial;
  }

  lemma {:induction false} EpochNeverFalls(before: seq<Event>, after: seq<Event>)
    requires Execute(before + after).Some?
    ensures Execute(before).Some? && Execute(before).value.net.epoch <= Execute(before + after).value.net.epoch
    decreases |after|
  {
    hide Apply;
    if after == [] {
      assert before + after == before;
    } else {
      var init := after[..|after| - 1];
      assert (before + after)[..|before + after| - 1] == before + init;
      EpochNeverFalls(before, init);
      EpochStep(Execute(before + init).value, after[|after| - 1]);
    }
  }

  /**
    Once the epoch has moved past the one an operation remembers, that operation never changes the network
    state again, however the run goes on.
  */
  lemma SupersededNeverActs(before: seq<Event>, after: seq<Event>, e: Event)
    requires Execute(before + after).Some? && Apply(Execute(before + after).value, e).Some?
    requires Execute(before).Some? && Remembers(Execute(before + after).value, e).Some?
    requires Remembers(Execute(before + after).value, e).value < Execute(before).value.net.epoch
    ensures Apply(Execute(before + after).value, e).value.net == Execute(before + after).value.net
  {
    hide Execute, Apply;
    EpochNeverFalls(before, after);
    StaleContinuationsAreInert(Execute(before + after).value, e);
  }
}
