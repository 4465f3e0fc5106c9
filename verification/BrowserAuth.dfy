/**
  The authentication lifecycle of the browser core (crates/browser-wasm/src/lib.rs, `begin_auth`,
  `complete_auth`, `cancel_auth`, `restore_identity`, `remove_local_identity` and `drop`).

  The operations share one mutable state and interleave at every await. Each stretch from a borrow to
  the next await is one atomic region: a method of `AuthState` here, tied to a function on `Auth`.
  Epochs are unbounded; the original wraps at 2^64.
*/
module BrowserAuth {
  import opened Base

  /** Names one run of `begin_auth` with the `complete_auth` that continues it, or one `restore_identity`. */
  type FlowId = int

  datatype Session = Session(identity: string, grant: string)

  datatype PendingAuth = PendingAuth(
    flow: FlowId, keyId: string, clientId: string, expected: Option<string>, epoch: int)

  /** The authentication fields of the shared state. */
  datatype Auth = Auth(
    pending: Option<PendingAuth>, busy: bool, epoch: int, abort: bool, identityBusy: bool,
    pubky: bool, session: Option<Session>, keyId: Option<string>, identity: Option<string>,
    clientId: Option<string>, store: Option<string>)

  const SIGNED_OUT: Auth := Auth(None, false, 0, false, false, false, None, None, None, None, None)

  // ---------------------------------------------------------------- regions

  predicate MayStart(a: Auth) {
    !a.busy && !a.identityBusy && a.pending.None? && a.session.None?
  }

  /** `begin_auth` and `restore_identity` up to their first await. */
  function Started(a: Auth, abortable: bool): Auth {
    a.(busy := true, epoch := a.epoch + 1, abort := abortable || a.abort)
  }

  /** `begin_auth` after its setup: a stale flow leaves nothing behind. */
  function Parked(a: Auth, p: PendingAuth): Auth {
    if a.epoch == p.epoch then a.(busy := false, pending := Some(p)) else a.(busy := false)
  }

  /** Any failure of a flow. */
  function Failed(a: Auth): Auth {
    a.(busy := false, abort := false)
  }

  /** A failed setup of `begin_auth`, which has no abort handle to clear. */
  function SetupFailed(a: Auth): Auth {
    a.(busy := false)
  }

  predicate MayComplete(a: Auth) {
    !a.busy && a.pending.Some? && a.pending.value.epoch == a.epoch
  }

  /** `complete_auth` up to its first await; a stale pending flow is discarded. */
  function Completing(a: Auth): Auth {
    if a.busy || a.pending.None? then a
    else if a.pending.value.epoch != a.epoch then a.(pending := None)
    else a.(pending := None, busy := true, abort := true)
  }

  /** The last region of a flow: the final epoch check and the installation, with no await between. */
  function Installed(a: Auth, session: Session, keyId: string, clientId: string): Auth {
    a.(busy := false, abort := false, pubky := true, session := Some(session), keyId := Some(keyId),
       identity := Some(session.identity), clientId := Some(clientId), store := Some(session.identity))
  }

  /** `cancel_auth`. */
  function Cancelled(a: Auth): Auth {
    a.(epoch := a.epoch + 1, pending := None, busy := if a.pending.Some? then false else a.busy, abort := false)
  }

  /** The synchronous part of `drop`. */
  function Dropped(a: Auth): Auth {
    a.(epoch := a.epoch + 1, pending := None, abort := false)
  }

  /** `remove_local_identity` up to its await; `online` says whether the network is active. */
  predicate MayRemove(a: Auth, identity: string, online: bool) {
    && !a.busy && !a.identityBusy && a.pending.None?
    && !(a.identity == Some(identity) && online)
  }

  function Removed(a: Auth, identity: string, ok: bool): Auth {
    if ok && a.identity == Some(identity)
    then a.(identityBusy := false, pubky := false, session := None, keyId := None, identity := None, clientId := None,
            store := None)
    else a.(identityBusy := false)
  }

  datatype Refusal = InvalidState | SessionClosed | IdentityActive | IdentityMismatch

  // ---------------------------------------------------------------- what every region keeps

  /** Session, identity, key id, client id, client and sequence store: all there and about one identity, or none. */
  predicate AllOrNone(a: Auth) {
    if a.session.Some?
    then && a.pubky && a.keyId.Some? && a.clientId.Some?
         && a.identity == Some(a.session.value.identity)
         && a.store == Some(a.session.value.identity)
    else !a.pubky && a.keyId.None? && a.identity.None? && a.clientId.None? && a.store.None?
  }

  predicate AuthOk(a: Auth) {
    && !(a.busy && a.pending.Some?)
    && (a.pending.Some? ==> a.pending.value.epoch == a.epoch)
    && (a.busy || a.pending.Some? ==> a.session.None?)
    && (a.identityBusy ==> !a.busy && a.pending.None?)
    && (a.abort ==> a.busy)
    && AllOrNone(a)
  }

  /** The authentication half of the shared `BrowserState`. */
  class AuthState {
    var pending: Option<PendingAuth>
    var busy: bool
    var epoch: int
    var abort: bool
    var identityBusy: bool
    var pubky: bool
    var session: Option<Session>
    var keyId: Option<string>
    var identity: Option<string>
    var clientId: Option<string>
    var store: Option<string>

    ghost function View(): Auth
      reads this
    {
      Auth(pending, busy, epoch, abort, identityBusy, pubky, session, keyId, identity, clientId, store)
    }

    ghost predicate Valid()
      reads this
    {
      AuthOk(View())
    }

    constructor ()
      ensures Valid() && View() == SIGNED_OUT
    {
      pending, busy, epoch, abort, identityBusy := None, false, 0, false, false;
      pubky, session, keyId, identity, clientId, store := false, None, None, None, None, None;
    }

    /** First region of `begin_auth` (without an abort handle) and of `restore_identity` (with one). */
    method Start(abortable: bool) returns (r: Result<int, Refusal>)
      requires Valid()
      modifies this
      ensures Valid()
      ensures r == if MayStart(old(View())) then Ok(old(epoch) + 1) else Err(InvalidState)
      ensures View() == if r.Ok? then Started(old(View()), abortable) else old(View())
    {
      if busy || identityBusy || pending.Some? || session.Some? { return Err(InvalidState); }
      busy := true;
      epoch := epoch + 1;
      if abortable { abort := true; }
      r := Ok(epoch);
    }

    /** Last region of `begin_auth`. */
    method Park(p: PendingAuth) returns (r: Result<(), Refusal>)
      requires Valid()
      modifies this
      ensures old(busy && !abort) ==> Valid()
      ensures View() == Parked(old(View()), p)
      ensures r.Ok? <==> old(epoch) == p.epoch
    {
      busy := false;
      if epoch != p.epoch { return Err(SessionClosed); }
      pending := Some(p);
      r := Ok(());
    }

    /** First region of `complete_auth`. */
    method Complete() returns (r: Result<PendingAuth, Refusal>)
      requires Valid()
      modifies this
      ensures Valid()
      ensures View() == Completing(old(View()))
      ensures r.Ok? <==> MayComplete(old(View()))
      ensures r.Ok? ==> old(pending) == Some(r.value)
    {
      if busy { return Err(InvalidState); }
      if pending.None? { return Err(InvalidState); }
      var taken := pending.value;
      pending := None;
      if taken.epoch != epoch { return Err(SessionClosed); }
      busy := true;
      abort := true;
      r := Ok(taken);
    }

    /** Last region of a flow that read `flowEpoch` at its start. */
    method Install(flowEpoch: int, s: Session, key: string, client: string) returns (r: Result<(), Refusal>)
      requires Valid()
      modifies this
      ensures old(busy) ==> Valid()
      ensures r.Ok? <==> old(epoch) == flowEpoch
      ensures View() == if r.Ok? then Installed(old(View()), s, key, client) else old(View())
    {
      if epoch != flowEpoch { return Err(SessionClosed); }
      busy := false;
      abort := false;
      pubky := true;
      session := Some(s);
      keyId := Some(key);
      identity := Some(s.identity);
      clientId := Some(client);
      store := Some(s.identity);
      r := Ok(());
    }

    method Fail()
      requires Valid()
      modifies this
      ensures Valid()
      ensures View() == Failed(old(View()))
    {
      busy := false;
      abort := false;
    }

    /** A failed setup of `begin_auth`. */
    method FailSetup()
      requires Valid()
      modifies this
      ensures old(!abort) ==> Valid()
      ensures View() == SetupFailed(old(View()))
    {
      busy := false;
    }

    /** The synchronous part of `drop`. */
    method Drop() returns (discardedKey: Option<string>)
      requires Valid()
      modifies this
      ensures Valid()
      ensures View() == Dropped(old(View()))
      ensures discardedKey == if old(pending).Some? then Some(old(pending).value.keyId) else None
    {
      epoch := epoch + 1;
      discardedKey := if pending.Some? then Some(pending.value.keyId) else None;
      pending := None;
      abort := false;
    }

    method CancelAuth() returns (discardedKey: Option<string>)
      requires Valid()
      modifies this
      ensures Valid()
      ensures View() == Cancelled(old(View()))
      ensures discardedKey == if old(pending).Some? then Some(old(pending).value.keyId) else None
    {
      epoch := epoch + 1;
      discardedKey := if pending.Some? then Some(pending.value.keyId) else None;
      pending := None;
      if discardedKey.Some? { busy := false; }
      abort := false;
    }

    method StartRemoval(account: string, online: bool) returns (r: Result<(), Refusal>)
      requires Valid()
      modifies this
      ensures Valid()
      ensures r.Ok? <==> MayRemove(old(View()), account, online)
      ensures View() == if r.Ok? then old(View()).(identityBusy := true) else old(View())
    {
      if busy || identityBusy || pending.Some? { return Err(InvalidState); }
      if identity == Some(account) && online { return Err(IdentityActive); }
      identityBusy := true;
      r := Ok(());
    }

    method FinishRemoval(account: string, ok: bool)
      requires Valid()
      modifies this
      ensures Valid()
      ensures View() == Removed(old(View()), account, ok)
    {
      identityBusy := false;
      if ok && identity == Some(account) {
        pubky, session, keyId, identity, clientId, store := false, None, None, None, None, None;
      }
    }
  }

  // ---------------------------------------------------------------- interleavings

  /** An operation suspended at an await. */
  datatype Task =
    | BeginTask(epoch: int)
    | CompleteTask(pending: PendingAuth)
    | RestoreTask(epoch: int, identity: string, clientId: string)
    | LosingTask(epoch: int)

  function EpochOf(t: Task): int {
    if t.CompleteTask? then t.pending.epoch else t.epoch
  }

  /** What a restored flow starts from. */
  datatype Stored = Stored(identity: string, clientId: string)

  datatype Mark =
    | Began(flow: FlowId, stored: Option<Stored>)
    | ParkedMark(flow: FlowId, keyId: string, clientId: string, expected: Option<string>)
    | CancelMark
    | InstallMark(flow: FlowId, session: Session, keyId: string, clientId: string)
    | RemovedMark(identity: string)

  /** The shared state, the operations in flight, and what happened so far. */
  datatype System = System(auth: Auth, flows: map<FlowId, Task>, removals: map<int, string>, log: seq<Mark>)

  const START: System := System(SIGNED_OUT, map[], map[], [])

  datatype Event =
    | BeginAuth(flow: FlowId)
    | BeginFails(flow: FlowId)
    | BeginReady(flow: FlowId, keyId: string, clientId: string, expected: Option<string>)
    | CompleteAuth
    | Restore(flow: FlowId, identity: string, clientId: string)
    | Finish(flow: FlowId, session: Session, storedKey: string)
    | FlowFails(flow: FlowId)
    | Cancel
    | DropCore
    | StartRemove(removal: int, identity: string, online: bool)
    | FinishRemove(removal: int, ok: bool)

  predicate Starts(m: Mark, flow: FlowId) {
    m.Began? && m.flow == flow
  }

  predicate NeverUsed(s: System, flow: FlowId) {
    && flow !in s.flows
    && (forall i :: 0 <= i < |s.log| ==> !Starts(s.log[i], flow))
    && (s.auth.pending.Some? ==> s.auth.pending.value.flow != flow)
  }

  /** Whether a finished flow may be installed: its epoch is current, and it is the identity it asked for. */
  predicate MayInstall(a: Auth, t: Task, session: Session) {
    && EpochOf(t) == a.epoch
    && (t.CompleteTask? && t.pending.expected.Some? ==> t.pending.expected.value == session.identity)
    && (t.RestoreTask? ==> t.identity == session.identity)
  }

  /** The key a flow signs in with: the one it was parked with, or the one its stored state names. */
  function KeyOf(t: Task, storedKey: string): string {
    if t.CompleteTask? then t.pending.keyId else storedKey
  }

  function ClientOf(t: Task): string {
    if t.CompleteTask? then t.pending.clientId else if t.RestoreTask? then t.clientId else ""
  }

  /** One region of one operation, or `None` if that operation is not there. A refused call changes nothing. */
  function Apply(s: System, e: Event): Option<System> {
    var a := s.auth;
    match e
    case BeginAuth(f) =>
      if !NeverUsed(s, f) then None else if !MayStart(a) then Some(s) else
      Some(s.(auth := Started(a, false), flows := s.flows[f := BeginTask(a.epoch + 1)],
              log := s.log + [Began(f, None)]))
    case Restore(f, identity, clientId) =>
      if !NeverUsed(s, f) then None else if !MayStart(a) then Some(s) else
      Some(s.(auth := Started(a, true), flows := s.flows[f := RestoreTask(a.epoch + 1, identity, clientId)],
              log := s.log + [Began(f, Some(Stored(identity, clientId)))]))
    case BeginFails(f) =>
      if f !in s.flows || !s.flows[f].BeginTask? then None else
      Some(s.(auth := SetupFailed(a), flows := s.flows - {f}))
    case BeginReady(f, keyId, clientId, expected) =>
      if f !in s.flows || !s.flows[f].BeginTask? then None else
      Some(s.(auth := Parked(a, PendingAuth(f, keyId, clientId, expected, s.flows[f].epoch)), flows := s.flows - {f},
              log := s.log + [ParkedMark(f, keyId, clientId, expected)]))
    case CompleteAuth =>
      if !MayComplete(a) then Some(s.(auth := Completing(a))) else
      Some(s.(auth := Completing(a), flows := s.flows[a.pending.value.flow := CompleteTask(a.pending.value)]))
    case Finish(f, session, storedKey) =>
      if f !in s.flows || !(s.flows[f].CompleteTask? || s.flows[f].RestoreTask?) then None else
      var t := s.flows[f];
      if !MayInstall(a, t, session) then Some(s.(flows := s.flows[f := LosingTask(EpochOf(t))])) else
      Some(s.(auth := Installed(a, session, KeyOf(t, storedKey), ClientOf(t)), flows := s.flows - {f},
              log := s.log + [InstallMark(f, session, KeyOf(t, storedKey), ClientOf(t))]))
    case FlowFails(f) =>
      if f !in s.flows || s.flows[f].BeginTask? then None else
      Some(s.(auth := Failed(a), flows := s.flows - {f}))
    case Cancel => Some(s.(auth := Cancelled(a), log := s.log + [CancelMark]))
    case DropCore => Some(s.(auth := Dropped(a), log := s.log + [CancelMark]))
    case StartRemove(r, identity, online) =>
      if r in s.removals then None else if !MayRemove(a, identity, online) then Some(s) else
      Some(s.(auth := a.(identityBusy := true), removals := s.removals[r := identity]))
    case FinishRemove(r, ok) =>
      if r !in s.removals then None else
      Some(s.(auth := Removed(a, s.removals[r], ok), removals := s.removals - {r},
              log := if ok then s.log + [RemovedMark(s.removals[r])] else s.log))
  }

  function Execute(events: seq<Event>): Option<System>
    decreases |events|
  {
    if events == [] then Some(START) else
    var before := Execute(events[..|events| - 1]);
    if before.None? then None else Apply(before.value, events[|events| - 1])
  }

  // ---------------------------------------------------------------- what the journal says

  /** The flow began, and no cancellation came after. */
  predicate CleanSince(log: seq<Mark>, flow: FlowId)
    decreases |log|
  {
    log != [] &&
    var last := log[|log| - 1];
    Starts(last, flow) || (last != CancelMark && CleanSince(log[..|log| - 1], flow))
  }

  /** Who is signed in, with which key and for which client. */
  datatype SignedIn = SignedIn(session: Session, keyId: string, clientId: string)

  /** The last installation, unless that identity was removed since. */
  function SignedInBy(log: seq<Mark>): Option<SignedIn>
    decreases |log|
  {
    if log == [] then None else
    var before := SignedInBy(log[..|log| - 1]);
    match log[|log| - 1]
    case InstallMark(_, session, keyId, clientId) => Some(SignedIn(session, keyId, clientId))
    case RemovedMark(identity) =>
      if before.Some? && before.value.session.identity == identity then None else before
    case _ => before
  }

  /** The signed-in fields say exactly that. */
  predicate Shows(a: Auth, who: Option<SignedIn>) {
    match who
    case None =>
      a.session.None? && a.keyId.None? && a.identity.None? && a.clientId.None? && a.store.None? && !a.pubky
    case Some(x) =>
      && a.session == Some(x.session) && a.keyId == Some(x.keyId) && a.clientId == Some(x.clientId)
      && a.identity == Some(x.session.identity) && a.store == Some(x.session.identity) && a.pubky
  }

  /**
    An installation carries the key and client its flow was parked with, and the identity it expected, if any; or
    the identity and client it was restored for.
  */
  predicate InstalledOwn(log: seq<Mark>, m: Mark)
    requires m.InstallMark?
  {
    || (exists i :: && 0 <= i < |log| && log[i].ParkedMark? && log[i].flow == m.flow
                    && log[i].keyId == m.keyId && log[i].clientId == m.clientId
                    && (log[i].expected.Some? ==> log[i].expected.value == m.session.identity))
    || (exists i :: 0 <= i < |log| && log[i] == Began(m.flow, Some(Stored(m.session.identity, m.clientId))))
  }

  /** Every installation is of a flow not cancelled since it began, with what is its own. */
  predicate InstallsOk(log: seq<Mark>) {
    forall j :: 0 <= j < |log| && log[j].InstallMark? ==>
      CleanSince(log[..j], log[j].flow) && InstalledOwn(log[..j], log[j])
  }

  predicate BeganOnce(log: seq<Mark>) {
    forall i, j :: 0 <= i < j < |log| && log[i].Began? && log[j].Began? ==> log[i].flow != log[j].flow
  }

  // ---------------------------------------------------------------- the invariant

  /** `busy` is held by exactly one flow in flight, `identityBusy` by exactly one removal. */
  predicate Held<T>(flag: bool, holders: map<int, T>) {
    && (flag <==> holders != map[])
    && (forall f, g | f in holders && g in holders :: f == g)
  }

  predicate ParkedIn(log: seq<Mark>, p: PendingAuth) {
    exists i :: 0 <= i < |log| && log[i] == ParkedMark(p.flow, p.keyId, p.clientId, p.expected)
  }

  predicate RestoredIn(log: seq<Mark>, f: FlowId, stored: Stored) {
    exists i :: 0 <= i < |log| && log[i] == Began(f, Some(stored))
  }

  predicate FlowOk(s: System, f: FlowId, t: Task) {
    && EpochOf(t) <= s.auth.epoch
    && (EpochOf(t) == s.auth.epoch <==> CleanSince(s.log, f))
    && (t.CompleteTask? ==> t.pending.flow == f && ParkedIn(s.log, t.pending))
    && (t.RestoreTask? ==> RestoredIn(s.log, f, Stored(t.identity, t.clientId)))
    && (s.auth.abort <==> !t.BeginTask? && EpochOf(t) == s.auth.epoch)
  }

  predicate FlowsOk(s: System) {
    && (forall f | f in s.flows :: FlowOk(s, f, s.flows[f]))
    && (s.auth.pending.Some? ==>
          CleanSince(s.log, s.auth.pending.value.flow) && ParkedIn(s.log, s.auth.pending.value))
  }

  predicate Inv(s: System) {
    && BeganOnce(s.log)
    && AuthOk(s.auth)
    && Held(s.auth.busy, s.flows)
    && Held(s.auth.identityBusy, s.removals)
    && FlowsOk(s)
    && InstallsOk(s.log)
    && Shows(s.auth, SignedInBy(s.log))
  }

  lemma LogClean(log: seq<Mark>, m: Mark, flow: FlowId)
    ensures CleanSince(log + [m], flow) <==> Starts(m, flow) || (m != CancelMark && CleanSince(log, flow))
  {
    assert (log + [m])[..|log|] == log;
  }

  lemma LogShows(log: seq<Mark>, m: Mark)
    ensures SignedInBy(log + [m])
            == (if m.InstallMark? then Some(SignedIn(m.session, m.keyId, m.clientId))
                else if m.RemovedMark? && SignedInBy(log).Some? && SignedInBy(log).value.session.identity == m.identity
                then None else SignedInBy(log))
  {
    assert (log + [m])[..|log|] == log;
  }

  lemma LogInstalls(log: seq<Mark>, m: Mark)
    requires InstallsOk(log) && (m.InstallMark? ==> CleanSince(log, m.flow) && InstalledOwn(log, m))
    ensures InstallsOk(log + [m])
  {
    hide CleanSince, InstalledOwn;
    var longer := log + [m];
    assert longer[..|log|] == log;
    forall j | 0 <= j < |longer| && longer[j].InstallMark?
      ensures CleanSince(longer[..j], longer[j].flow) && InstalledOwn(longer[..j], longer[j])
    {
      if j < |log| { assert longer[..j] == log[..j]; }
    }
  }

  lemma LogMemory(log: seq<Mark>, m: Mark)
    ensures forall p | ParkedIn(log, p) :: ParkedIn(log + [m], p)
    ensures forall f, stored | RestoredIn(log, f, stored) :: RestoredIn(log + [m], f, stored)
    ensures m.ParkedMark? ==>
              forall epoch :: ParkedIn(log + [m], PendingAuth(m.flow, m.keyId, m.clientId, m.expected, epoch))
    ensures m.Began? && m.stored.Some? ==> RestoredIn(log + [m], m.flow, m.stored.value)
  {
    var longer := log + [m];
    assert longer[|log|] == m;
    assert forall i :: 0 <= i < |log| ==> longer[i] == log[i];
  }

  /** One flow more where there was none, the same flow at another await, one flow less. */
  lemma HeldMoves<T>(flag: bool, holders: map<int, T>, f: int, t: T)
    requires Held(flag, holders)
    ensures !flag || f in holders ==> Held(true, holders[f := t])
    ensures f in holders ==> flag && Held(false, holders - {f})
  {
    assert f in holders[f := t];
    if f in holders {
      assert holders.Keys == {f} by {
        forall g | g in holders.Keys ensures g in {f} { assert g in holders; }
      }
      assert (holders - {f}).Keys == {};
    }
  }

  lemma HeldNone<T>(flag: bool, holders: map<int, T>)
    requires Held(flag, holders)
    ensures !flag ==> holders == map[]
  {
  }

  /** What a mark does to the rest of the journal's rules. */
  lemma Marked(s: System, m: Mark)
    requires Inv(s) && (m.InstallMark? ==> CleanSince(s.log, m.flow) && InstalledOwn(s.log, m))
    requires m.Began? ==> forall i :: 0 <= i < |s.log| ==> !Starts(s.log[i], m.flow)
    ensures InstallsOk(s.log + [m]) && BeganOnce(s.log + [m])
    ensures forall f :: CleanSince(s.log + [m], f) <==> Starts(m, f) || (m != CancelMark && CleanSince(s.log, f))
  {
    hide CleanSince, InstalledOwn, SignedInBy, FlowsOk, Held, AuthOk;
    LogInstalls(s.log, m);
    forall f ensures CleanSince(s.log + [m], f) <==> Starts(m, f) || (m != CancelMark && CleanSince(s.log, f)) {
      LogClean(s.log, m, f);
    }
  }

  lemma StartKeeps(s: System, e: Event)
    requires Inv(s) && (e.BeginAuth? || e.Restore?) && Apply(s, e).Some?
    ensures Inv(Apply(s, e).value)
  {
    hide CleanSince, InstallsOk, Held, SignedInBy, ParkedIn, RestoredIn, BeganOnce;
    if MayStart(s.auth) {
      var t := Apply(s, e).value;
      var m := t.log[|s.log|];
      HeldMoves(s.auth.busy, s.flows, e.flow, t.flows[e.flow]);
      HeldNone(s.auth.busy, s.flows);
      Marked(s, m);
      LogShows(s.log, m);
      LogMemory(s.log, m);
    }
  }

  lemma FinishIsOwn(s: System, f: FlowId, session: Session, storedKey: string)
    requires Inv(s) && f in s.flows && (s.flows[f].CompleteTask? || s.flows[f].RestoreTask?)
    requires MayInstall(s.auth, s.flows[f], session)
    ensures CleanSince(s.log, f)
    ensures InstalledOwn(s.log, InstallMark(f, session, KeyOf(s.flows[f], storedKey), ClientOf(s.flows[f])))
  {
    hide CleanSince, InstallsOk, Held, SignedInBy, BeganOnce;
    assert FlowOk(s, f, s.flows[f]);
  }

  lemma FinishKeeps(s: System, e: Event)
    requires Inv(s) && e.Finish? && Apply(s, e).Some?
    ensures Inv(Apply(s, e).value)
  {
    hide CleanSince, InstallsOk, Held, SignedInBy, ParkedIn, RestoredIn, BeganOnce, InstalledOwn;
    var task := s.flows[e.flow];
    HeldMoves(s.auth.busy, s.flows, e.flow, LosingTask(EpochOf(task)));
    if MayInstall(s.auth, task, e.session) {
      var m := InstallMark(e.flow, e.session, KeyOf(task, e.storedKey), ClientOf(task));
      FinishIsOwn(s, e.flow, e.session, e.storedKey);
      HeldNone(false, s.flows - {e.flow});
      Marked(s, m);
      LogShows(s.log, m);
    } else {
      assert FlowOk(s, e.flow, task);
    }
  }

  lemma CancelKeeps(s: System, e: Event)
    requires Inv(s) && (e.Cancel? || e.DropCore?)
    ensures Inv(Apply(s, e).value)
  {
    hide CleanSince, InstallsOk, Held, SignedInBy, ParkedIn, RestoredIn, BeganOnce;
    var t := Apply(s, e).value;
    Marked(s, CancelMark);
    LogShows(s.log, CancelMark);
    LogMemory(s.log, CancelMark);
    forall f | f in t.flows ensures FlowOk(t, f, t.flows[f]) { assert FlowOk(s, f, s.flows[f]); }
  }

  lemma ReadyKeeps(s: System, e: Event)
    requires Inv(s) && e.BeginReady? && Apply(s, e).Some?
    ensures Inv(Apply(s, e).value)
  {
    hide CleanSince, InstallsOk, Held, SignedInBy, ParkedIn, RestoredIn, BeganOnce;
    var m := ParkedMark(e.flow, e.keyId, e.clientId, e.expected);
    HeldMoves(s.auth.busy, s.flows, e.flow, s.flows[e.flow]);
    HeldNone(false, s.flows - {e.flow});
    assert FlowOk(s, e.flow, s.flows[e.flow]);
    Marked(s, m);
    LogShows(s.log, m);
    LogMemory(s.log, m);
  }

  lemma RemoveKeeps(s: System, e: Event)
    requires Inv(s) && (e.StartRemove? || e.FinishRemove?) && Apply(s, e).Some?
    ensures Inv(Apply(s, e).value)
  {
    hide CleanSince, InstallsOk, Held, SignedInBy, ParkedIn, RestoredIn, BeganOnce, FlowOk;
    HeldNone(s.auth.busy, s.flows);
    if e.StartRemove? {
      HeldMoves(s.auth.identityBusy, s.removals, e.removal, e.identity);
    } else {
      HeldMoves(s.auth.identityBusy, s.removals, e.removal, "");
      var m := RemovedMark(s.removals[e.removal]);
      Marked(s, m);
      LogShows(s.log, m);
    }
  }

  lemma OtherKeeps(s: System, e: Event)
    requires Inv(s) && Apply(s, e).Some? && (e.BeginFails? || e.CompleteAuth? || e.FlowFails?)
    ensures Inv(Apply(s, e).value)
  {
    hide CleanSince, InstallsOk, Held, SignedInBy, ParkedIn, RestoredIn, BeganOnce;
    if e.BeginFails? || e.FlowFails? {
      HeldMoves(s.auth.busy, s.flows, e.flow, s.flows[e.flow]);
      HeldNone(false, s.flows - {e.flow});
      assert FlowOk(s, e.flow, s.flows[e.flow]);
    }
    if e.CompleteAuth? && MayComplete(s.auth) {
      var p := s.auth.pending.value;
      HeldMoves(s.auth.busy, s.flows, p.flow, CompleteTask(p));
      HeldNone(s.auth.busy, s.flows);
    }
  }

  lemma {:induction false} RunKeeps(events: seq<Event>)
    requires Execute(events).Some?
    ensures Inv(Execute(events).value)
    decreases |events|
  {
    hide CleanSince, Apply;
    if events != [] {
      RunKeeps(events[..|events| - 1]);
      var s, e := Execute(events[..|events| - 1]).value, events[|events| - 1];
      match e
      case BeginAuth(_) => StartKeeps(s, e);
      case Restore(_, _, _) => StartKeeps(s, e);
      case Finish(_, _, _) => FinishKeeps(s, e);
      case Cancel => CancelKeeps(s, e);
      case DropCore => CancelKeeps(s, e);
      case BeginReady(_, _, _, _) => ReadyKeeps(s, e);
      case StartRemove(_, _, _) => RemoveKeeps(s, e);
      case FinishRemove(_, _) => RemoveKeeps(s, e);
      case _ => OtherKeeps(s, e);
    }
  }

  // ---------------------------------------------------------------- what every interleaving keeps

  /**
    Busy and pending never hold together, a pending flow is never stale, neither coexists with a session or
    with a removal, and the signed-in fields are all present, about one identity, or all absent.
  */
  lemma EveryInterleavingIsConsistent(events: seq<Event>)
    requires Execute(events).Some?
    ensures AuthOk(Execute(events).value.auth)
  {
    hide Execute, CleanSince;
    RunKeeps(events);
  }

  /**
    Over every interleaving the signed-in fields show the last installation, unless that identity was
    successfully removed since, and then nothing.
  */
  lemma SignedInIsJournaled(events: seq<Event>)
    requires Execute(events).Some?
    ensures Shows(Execute(events).value.auth, SignedInBy(Execute(events).value.log))
  {
    hide Execute, CleanSince;
    RunKeeps(events);
  }

  /** After an identity is removed it is not signed in, until it is installed again. */
  lemma RemovalSignsOut(events: seq<Event>, k: int)
    requires Execute(events).Some?
    requires var log := Execute(events).value.log;
             && 0 <= k < |log| && log[k].RemovedMark?
             && (forall j :: k < j < |log| && log[j].InstallMark? ==> log[j].session.identity != log[k].identity)
    ensures var a, x := Execute(events).value.auth, Execute(events).value.log[k].identity;
            a.identity != Some(x) && a.store != Some(x) && (a.session.Some? ==> a.session.value.identity != x)
  {
    hide Execute, CleanSince, SignedInBy;
    RunKeeps(events);
    var log := Execute(events).value.log;
    assert log[..|log|] == log;
    RemovedIsOut(log, k, |log|);
  }

  lemma {:induction false} RemovedIsOut(log: seq<Mark>, k: int, n: int)
    requires 0 <= k < n <= |log| && log[k].RemovedMark?
    requires forall j :: k < j < n && log[j].InstallMark? ==> log[j].session.identity != log[k].identity
    ensures SignedInBy(log[..n]).Some? ==> SignedInBy(log[..n]).value.session.identity != log[k].identity
    decreases n
  {
    hide SignedInBy;
    assert log[..n] == log[..n - 1] + [log[n - 1]];
    LogShows(log[..n - 1], log[n - 1]);
    if k < n - 1 { RemovedIsOut(log, k, n - 1); }
  }

  /** The removal of another identity, and a removal that fails, leave every signed-in field as it was. */
  lemma RemovalSpares(s: System, removal: int, ok: bool)
    requires Apply(s, FinishRemove(removal, ok)).Some?
    requires !ok || s.auth.identity != Some(s.removals[removal])
    ensures var a, b := s.auth, Apply(s, FinishRemove(removal, ok)).value.auth;
            && b.session == a.session && b.keyId == a.keyId && b.identity == a.identity && b.clientId == a.clientId
            && b.store == a.store && b.pubky == a.pubky
  {
  }

  /** A session is installed only if nothing was cancelled since its flow began. */
  lemma NoSessionAfterCancel(events: seq<Event>, i: int, j: int, k: int, flow: FlowId)
    requires Execute(events).Some?
    requires var log := Execute(events).value.log;
             && 0 <= i < j < k < |log| && Starts(log[i], flow) && log[k].InstallMark? && log[k].flow == flow
    ensures Execute(events).value.log[j] != CancelMark
  {
    hide Execute, InstalledOwn;
    RunKeeps(events);
    var log := Execute(events).value.log;
    CleanMeans(log[..k], flow, i, j);
  }

  /** If the flow began once and is clean, nothing after its beginning is a cancellation. */
  lemma {:induction false} CleanMeans(log: seq<Mark>, flow: FlowId, i: int, j: int)
    requires CleanSince(log, flow) && BeganOnce(log)
    requires 0 <= i < j < |log| && Starts(log[i], flow)
    ensures log[j] != CancelMark
    decreases |log|
  {
    if j < |log| - 1 && !Starts(log[|log| - 1], flow) {
      CleanMeans(log[..|log| - 1], flow, i, j);
    }
  }

  /** What is installed is the flow's own: the key and client it was parked with, or what it was restored for. */
  lemma EveryInstallationIsOwn(events: seq<Event>, k: int)
    requires Execute(events).Some?
    requires 0 <= k < |Execute(events).value.log| && Execute(events).value.log[k].InstallMark?
    ensures InstalledOwn(Execute(events).value.log[..k], Execute(events).value.log[k])
  {
    hide Execute, CleanSince, InstalledOwn;
    RunKeeps(events);
  }

  /** A flow starts exactly if nobody is signed in and no flow is in flight or parked and no removal is under way. */
  lemma FlowStartsExactly(events: seq<Event>, e: Event)
    requires Execute(events).Some? && (e.BeginAuth? || e.Restore?) && NeverUsed(Execute(events).value, e.flow)
    ensures var s := Execute(events).value;
            && Apply(s, e).Some?
            && (e.flow in Apply(s, e).value.flows
                <==> s.auth.session.None? && s.auth.pending.None? && s.flows == map[] && s.removals == map[])
  {
    hide Execute, CleanSince;
    RunKeeps(events);
  }

  /** A set-up flow is parked, with what it was set up with, exactly if nothing was cancelled since it began. */
  lemma FlowParksExactly(events: seq<Event>, e: Event)
    requires Execute(events).Some? && e.BeginReady? && Apply(Execute(events).value, e).Some?
    ensures var s, t := Execute(events).value, Apply(Execute(events).value, e).value;
            if CleanSince(s.log, e.flow)
            then && t.auth.pending.Some? && t.auth.pending.value.flow == e.flow
                 && t.auth.pending.value.keyId == e.keyId && t.auth.pending.value.clientId == e.clientId
                 && t.auth.pending.value.expected == e.expected
            else t.auth.pending.None?
  {
    hide Execute, CleanSince, SignedInBy, InstallsOk, BeganOnce;
    RunKeeps(events);
    var s := Execute(events).value;
    assert FlowOk(s, e.flow, s.flows[e.flow]);
  }

  /** A parked flow can always be completed. */
  lemma ParkedCompletes(events: seq<Event>)
    requires Execute(events).Some? && Execute(events).value.auth.pending.Some?
    ensures var s := Execute(events).value;
            var p := s.auth.pending.value;
            && Apply(s, CompleteAuth).Some?
            && Apply(s, CompleteAuth).value.flows == map[p.flow := CompleteTask(p)]
            && Apply(s, CompleteAuth).value.auth.pending.None?
  {
    hide Execute, CleanSince, SignedInBy, InstallsOk, BeganOnce, FlowOk;
    RunKeeps(events);
  }

  /**
    A flow that finishes is installed exactly if nothing was cancelled since it began and the session is of the
    identity it expects.
  */
  lemma InstallsExactly(events: seq<Event>, e: Event)
    requires Execute(events).Some? && e.Finish? && Apply(Execute(events).value, e).Some?
    ensures var s, t := Execute(events).value, Apply(Execute(events).value, e).value;
            var task := s.flows[e.flow];
            && e.flow in s.flows
            && (if && CleanSince(s.log, e.flow)
                   && (task.CompleteTask? && task.pending.expected.Some? ==>
                         task.pending.expected == Some(e.session.identity))
                   && (task.RestoreTask? ==> task.identity == e.session.identity)
                then && t.auth.session == Some(e.session) && t.auth.identity == Some(e.session.identity)
                     && t.auth.keyId == Some(if task.CompleteTask? then task.pending.keyId else e.storedKey)
                     && !t.auth.busy
                else t.auth == s.auth && t.auth.session.None?)
  {
    hide Execute, CleanSince, SignedInBy, InstallsOk, BeganOnce;
    RunKeeps(events);
    var s := Execute(events).value;
    assert FlowOk(s, e.flow, s.flows[e.flow]);
  }

  /** There is an abort handle exactly while a completing or restoring flow is in flight that nothing has cancelled. */
  lemma AbortHandleIsExact(events: seq<Event>)
    requires Execute(events).Some?
    ensures var s := Execute(events).value;
            s.auth.abort <==> exists f | f in s.flows :: !s.flows[f].BeginTask? && CleanSince(s.log, f)
  {
    hide Execute, CleanSince, SignedInBy, InstallsOk, BeganOnce;
    RunKeeps(events);
    var s := Execute(events).value;
    if s.auth.abort {
      SomeFlow(s.flows);
      var f :| f in s.flows;
      assert FlowOk(s, f, s.flows[f]);
    }
  }

  lemma SomeFlow(flows: map<FlowId, Task>)
    ensures flows == map[] || exists f :: f in flows
  {
    if forall f :: f !in flows { assert flows == map[]; }
  }

  /** A removal starts exactly if no flow or removal is under way or parked, and it is not of oneself while online. */
  lemma RemovalStartsExactly(events: seq<Event>, removal: int, identity: string, online: bool)
    requires Execute(events).Some? && removal !in Execute(events).value.removals
    ensures var s := Execute(events).value;
            && Apply(s, StartRemove(removal, identity, online)).Some?
            && (removal in Apply(s, StartRemove(removal, identity, online)).value.removals
                <==> && s.auth.pending.None? && s.flows == map[] && s.removals == map[]
                     && !(online && s.auth.identity == Some(identity)))
  {
    hide Execute, CleanSince, SignedInBy;
    RunKeeps(events);
  }
}
