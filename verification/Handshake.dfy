/**
  The mutual handshake as a state machine: `finish_outbound_handshake`,
  `outbound_proof_exchange`, `authenticate_incoming_v1` and `accept_pending`
  (crates/client/src/v1_peer.rs), any number of devices and connections at once.

  One event is one stretch of code between awaits. The world is adversarial: storage
  answers with anything, connections can be opened by anyone, keys in `compromised` are
  known to the adversary, and the only limit is that it cannot sign for, or speak on a
  connection as, a key that is not.
*/
module Handshake {
  import opened Base
  import opened Wire

  type Device = int
  type ConnId = int

  /** One device: its credential, its local policy and its inbound application allowlist. */
  datatype DeviceSpec = DeviceSpec(credential: Credential, policy: Policy, accepted: set<string>)

  datatype World = World(devices: map<Device, DeviceSpec>, compromised: set<string>)

  function Control(w: World, d: Device): string
    requires d in w.devices
  {
    w.devices[d].credential.certificate.claims.controlKey
  }

  function Endpoint(w: World, d: Device): string
    requires d in w.devices
  {
    w.devices[d].credential.certificate.claims.irohId
  }

  function Identity(w: World, d: Device): string
    requires d in w.devices
  {
    w.devices[d].credential.certificate.claims.identity
  }

  /** The key is some device's control key and the adversary does not hold it. */
  predicate HonestControl(w: World, key: string) {
    key !in w.compromised && exists d :: d in w.devices && Control(w, d) == key
  }

  predicate HonestEndpoint(w: World, key: string) {
    key !in w.compromised && exists d :: d in w.devices && Endpoint(w, d) == key
  }

  datatype Message =
    | HelloMessage(hello: Hello)
    | AckMessage(ack: Ack)
    | ReadyMessage(version: int, challenge: Base64Text, initiatorPath: Path, responderPath: Path)
    | ConfirmedMessage(version: int, challenge: Base64Text, initiatorPath: Path, responderPath: Path)
    | Junk

  /** What the Ack fixed for one side of an exchange: the Ack, the side's own proof, and the clock reading. */
  datatype Exchange = Exchange(ack: Ack, proof: Proof, at: u64)

  datatype Peer = Peer(session: seq<byte>, identity: string, deviceId: string)

  // Initiator stages, in program order.
  const HELLO_SENT: int := 0
  const PROOF_PUBLISHED: int := 1
  const READY_SENT: int := 2
  const CONFIRMATION_READ: int := 3
  const TARGET_COMMITTED: int := 4
  const INITIATOR_RETURNED: int := 5

  /** A proof that was fetched, and the clock reading at which it verified. */
  datatype Seen = Seen(proof: Proof, at: u64)

  /** `seen` is the responder's proof, once fetched and verified. */
  datatype InitiatorSession = InitiatorSession(
    device: Device, sender: Record, target: Record, application: string, hello: Hello,
    exchange: Option<Exchange>, seen: Option<Seen>, committedAt: Option<u64>, stage: int, failed: bool,
    peer: Option<Peer>)

  // Responder stages, in program order.
  const AWAITING_CONSENT: int := 0
  const CONSENTED: int := 1
  const ACK_SENT: int := 2
  const PROOF_VERIFIED: int := 3
  const SENDER_COMMITTED: int := 4
  const CONFIRMATION_SENT: int := 5
  const RESPONDER_RETURNED: int := 6

  /** `heardAt` is when the Hello verified; `seen` is the initiator's proof, once fetched and verified. */
  datatype ResponderSession = ResponderSession(
    device: Device, sender: Record, target: Record, hello: Hello, heardAt: u64,
    exchange: Option<Exchange>, seen: Option<Seen>, committedAt: Option<u64>, stage: int, failed: bool,
    peer: Option<Peer>)

  /**
    An authenticated QUIC stream: the two endpoint keys, everything ever written each way, and
    the session each end runs. `initiatorHostile`/`responderHostile` say whether the adversary
    wrote on that side.
  */
  datatype Conn = Conn(
    initiatorEnd: string, responderEnd: string, toResponder: seq<Message>, toInitiator: seq<Message>,
    initiatorHostile: bool, responderHostile: bool,
    initiator: Option<InitiatorSession>, responder: Option<ResponderSession>)

  /** A place in public storage. */
  datatype Slot = Slot(owner: string, path: Path)

  /** A record accepted into a device's sequence store, and when it verified for that. */
  datatype Commit = Commit(device: Device, record: Record, at: u64)

  /** A record that a device registered as its own; the ledger keeps when it last did. */
  datatype Registration = Registration(device: Device, record: Record)

  /**
    What all connections share: public storage, and the history of the run. Every signature
    a device made and every challenge it drew is recorded with the connection it was for.
  */
  datatype Ledger = Ledger(
    storage: map<Slot, Proof>,
    signatures: map<Signature, ConnId>,
    nonces: map<Base64Text, ConnId>,
    commits: set<Commit>,
    registered: map<Registration, u64>)

  datatype State = State(clock: u64, active: map<Device, set<Record>>, conns: map<ConnId, Conn>, ledger: Ledger)

  function Start(clock: u64): State {
    State(clock, map[], map[], Ledger(map[], map[], map[], {}, map[]))
  }

  /** A signature the adversary can show: forged only under keys it holds or keys of no device. */
  predicate Showable(w: World, l: Ledger, signature: Signature) {
    signature.Signed? && HonestControl(w, signature.key) ==> signature in l.signatures
  }

  predicate MessageShowable(w: World, l: Ledger, m: Message) {
    && (m.HelloMessage? ==> Showable(w, l, m.hello.signature))
    && (m.AckMessage? ==> Showable(w, l, m.ack.signature))
  }

  // ---------------------------------------------------------------- the code between awaits

  /** The effect of one stretch of code on its own connection and on what is shared. */
  datatype Effect = Blocked | Done(conn: Conn, ledger: Ledger)

  /** What a session can read: the clock and its device's registered records. */
  datatype Local = Local(now: u64, active: set<Record>)

  /** The Hello window of `finish_outbound_handshake`. */
  function HelloExpiry(now: u64, sender: Record, target: Record): u64 {
    Min(SatAdd(now, Min(MAX_HANDSHAKE_LIFETIME, 30)),
        Min(Min(sender.locator.claims.exp, target.locator.claims.exp),
            Min(sender.certificate.claims.exp, target.certificate.claims.exp)))
  }

  /** The greatest sequence among the records that `retain` keeps. */
  predicate Newest(records: set<Record>, now: u64, r: Record) {
    && r in records
    && now < r.locator.claims.exp
    && (forall q | q in records && now < q.locator.claims.exp ::
          q.locator.claims.sequence <= r.locator.claims.sequence)
  }

  function SendHello(
    w: World, local: Local, l: Ledger, c: ConnId, conn: Conn, d: Device, sender: Record, target: Record,
    application: string, nonce: Base64Text): Effect
  {
    if d !in w.devices then Blocked else
    var spec, expiry := w.devices[d], HelloExpiry(local.now, sender, target);
    var signed := SignHello(spec.credential, sender, target, application, nonce, local.now, expiry, spec.policy);
    if && conn.initiator.None?
       && conn.initiatorEnd == Endpoint(w, d)
       && conn.responderEnd == target.certificate.claims.irohId
       && RecordVerify(target, target.certificate.claims.identity, local.now, spec.policy, None)
       && Newest(local.active, local.now, sender)
       && local.now < expiry
       && nonce !in l.nonces
       && signed.Some?
    then
      var hello := signed.value;
      Done(conn.(
             toResponder := conn.toResponder + [HelloMessage(hello)],
             initiator := Some(InitiatorSession(
               d, sender, target, application, hello, None, None, None, HELLO_SENT, false, None))),
           l.(signatures := l.signatures[hello.signature := c], nonces := l.nonces[nonce := c]))
    else Blocked
  }

  function ReceiveHello(w: World, local: Local, l: Ledger, conn: Conn, d: Device, target: Record): Effect {
    if d !in w.devices || |conn.toResponder| == 0 || !conn.toResponder[0].HelloMessage? then Blocked else
    var spec, hello := w.devices[d], conn.toResponder[0].hello;
    var sender := hello.claims.fromRecord;
    if && conn.responder.None?
       && conn.responderEnd == Endpoint(w, d)
       && hello.claims.application in spec.accepted
       && target in local.active
       && local.now < target.locator.claims.exp
       && hello.claims.targetDigest == RecordDigest(target)
       && HelloVerify(hello, sender, target, hello.claims.application, local.now, spec.policy)
       && OwnRecord(spec.credential, target)
       && sender.certificate.claims.irohId == conn.initiatorEnd
    then
      Done(conn.(responder := Some(ResponderSession(
             d, sender, target, hello, local.now, None, None, None, AWAITING_CONSENT, false, None))), l)
    else Blocked
  }

  /** The Ack and proof window of `accept_pending`. */
  function ConsentExpiry(now: u64, hello: Hello): u64 {
    Min(hello.claims.exp, SatAdd(now, MAX_CURRENTNESS_LIFETIME))
  }

  /** A responder session whose device is known and which has not failed. */
  predicate Answering(w: World, conn: Conn, stage: int) {
    && conn.responder.Some?
    && conn.responder.value.device in w.devices
    && !conn.responder.value.failed
    && conn.responder.value.stage == stage
  }

  predicate Dialing(w: World, conn: Conn, stage: int) {
    && conn.initiator.Some?
    && conn.initiator.value.device in w.devices
    && !conn.initiator.value.failed
    && conn.initiator.value.stage == stage
  }

  /** Application consent: draw the challenge, sign Ack and responder proof, publish the proof. */
  function Consent(w: World, local: Local, l: Ledger, c: ConnId, conn: Conn, challenge: Base64Text): Effect {
    if !Answering(w, conn, AWAITING_CONSENT) then Blocked else
    var r, now := conn.responder.value, local.now;
    var spec, expiry := w.devices[r.device], ConsentExpiry(now, r.hello);
    var ack := SignAck(spec.credential, r.hello, r.sender, r.target, challenge, now, expiry, spec.policy);
    var proof := SignProof(
      spec.credential, r.target, r.sender, r.hello, Responder, challenge, now, expiry, spec.policy);
    if now < expiry && challenge !in l.nonces && ack.Some? && proof.Some? then
      Done(conn.(responder := Some(r.(exchange := Some(Exchange(ack.value, proof.value, now)), stage := CONSENTED))),
           l.(storage := l.storage[Slot(Identity(w, r.device), ProofPath(proof.value)) := proof.value],
              signatures := l.signatures[ack.value.signature := c][proof.value.signature := c],
              nonces := l.nonces[challenge := c]))
    else Blocked
  }

  function SendAck(w: World, l: Ledger, conn: Conn): Effect {
    if Answering(w, conn, CONSENTED) && conn.responder.value.exchange.Some? then
      var r := conn.responder.value;
      Done(conn.(toInitiator := conn.toInitiator + [AckMessage(r.exchange.value.ack)],
                 responder := Some(r.(stage := ACK_SENT))), l)
    else Blocked
  }

  /** Verify the Ack, sign the initiator proof over its window, publish the proof. */
  function ReceiveAck(w: World, local: Local, l: Ledger, c: ConnId, conn: Conn): Effect {
    if !Dialing(w, conn, HELLO_SENT) || |conn.toInitiator| == 0 || !conn.toInitiator[0].AckMessage? then Blocked else
    var i, ack := conn.initiator.value, conn.toInitiator[0].ack;
    var spec := w.devices[i.device];
    var proof := SignProof(spec.credential, i.sender, i.target, i.hello, Initiator, ack.claims.responderNonce,
                           ack.claims.iat, ack.claims.exp, spec.policy);
    if AckVerify(ack, i.target, i.sender, i.hello, i.application, local.now, spec.policy) && proof.Some? then
      Done(conn.(initiator := Some(i.(
             exchange := Some(Exchange(ack, proof.value, local.now)), stage := PROOF_PUBLISHED))),
           l.(storage := l.storage[Slot(Identity(w, i.device), ProofPath(proof.value)) := proof.value],
              signatures := l.signatures[proof.value.signature := c]))
    else Blocked
  }

  /** The challenge the initiator took from the Ack. */
  function Taken(i: InitiatorSession): Base64Text
    requires i.exchange.Some?
  {
    i.exchange.value.ack.claims.responderNonce
  }

  /** The slot where the initiator looks for the responder's proof. */
  function ResponderSlot(i: InitiatorSession): Slot
    requires i.exchange.Some?
  {
    Slot(i.target.certificate.claims.identity, DerivedPath(Responder, Taken(i), i.hello, i.target))
  }

  function ReadyFor(i: InitiatorSession): Message
    requires i.exchange.Some?
  {
    ReadyMessage(VERSION, Taken(i), ProofPath(i.exchange.value.proof), ResponderSlot(i).path)
  }

  /** Fetch and verify the responder's proof, then send `ProofReady`. */
  function CheckResponder(w: World, local: Local, l: Ledger, conn: Conn): Effect {
    if !Dialing(w, conn, PROOF_PUBLISHED) || conn.initiator.value.exchange.None? then Blocked else
    var i := conn.initiator.value;
    var slot := ResponderSlot(i);
    if && slot in l.storage
       && ProofVerify(l.storage[slot], i.target, i.sender, i.hello, Responder, Taken(i), local.now,
                      w.devices[i.device].policy)
    then
      Done(conn.(toResponder := conn.toResponder + [ReadyFor(i)],
                 initiator := Some(i.(seen := Some(Seen(l.storage[slot], local.now)), stage := READY_SENT))), l)
    else Blocked
  }

  /** `validate_proof_control`. */
  predicate ProofControlValid(
    version: int, received: Base64Text, expected: Base64Text, initiatorPath: Path, responderPath: Path,
    hello: Hello, initiator: Record, responder: Record)
  {
    && version == VERSION
    && received == expected
    && initiatorPath == DerivedPath(Initiator, expected, hello, initiator)
    && responderPath == DerivedPath(Responder, expected, hello, responder)
  }

  /** The challenge the responder drew. */
  function Drawn(r: ResponderSession): Base64Text
    requires r.exchange.Some?
  {
    r.exchange.value.ack.claims.responderNonce
  }

  /** The slot where the responder looks for the initiator's proof, once `ProofReady` is validated. */
  function InitiatorSlot(r: ResponderSession): Slot
    requires r.exchange.Some?
  {
    Slot(r.hello.claims.fromIdentity, DerivedPath(Initiator, Drawn(r), r.hello, r.sender))
  }

  /** Validate `ProofReady`, then fetch and verify the initiator's proof at the path it named. */
  function CheckInitiator(w: World, local: Local, l: Ledger, conn: Conn): Effect {
    if !Answering(w, conn, ACK_SENT) || conn.responder.value.exchange.None? then Blocked else
    if |conn.toResponder| < 2 || !conn.toResponder[1].ReadyMessage? then Blocked else
    var r, ready := conn.responder.value, conn.toResponder[1];
    var slot := Slot(r.hello.claims.fromIdentity, ready.initiatorPath);
    if && ProofControlValid(ready.version, ready.challenge, Drawn(r), ready.initiatorPath, ready.responderPath,
                            r.hello, r.sender, r.target)
       && slot in l.storage
       && ProofVerify(l.storage[slot], r.sender, r.target, r.hello, Initiator, Drawn(r), local.now,
                      w.devices[r.device].policy)
    then
      Done(conn.(responder := Some(r.(seen := Some(Seen(l.storage[slot], local.now)), stage := PROOF_VERIFIED))), l)
    else Blocked
  }

  function CommitSender(w: World, local: Local, l: Ledger, conn: Conn): Effect {
    if !Answering(w, conn, PROOF_VERIFIED) then Blocked else
    var r := conn.responder.value;
    if RecordVerify(r.sender, r.sender.certificate.claims.identity, local.now, w.devices[r.device].policy, None) then
      Done(conn.(responder := Some(r.(committedAt := Some(local.now), stage := SENDER_COMMITTED))),
           l.(commits := l.commits + {Commit(r.device, r.sender, local.now)}))
    else Blocked
  }

  function ConfirmationFor(r: ResponderSession): Message
    requires r.exchange.Some?
  {
    ConfirmedMessage(VERSION, Drawn(r), InitiatorSlot(r).path, DerivedPath(Responder, Drawn(r), r.hello, r.target))
  }

  function SendConfirmation(w: World, l: Ledger, conn: Conn): Effect {
    if Answering(w, conn, SENDER_COMMITTED) && conn.responder.value.exchange.Some? then
      var r := conn.responder.value;
      Done(conn.(toInitiator := conn.toInitiator + [ConfirmationFor(r)],
                 responder := Some(r.(stage := CONFIRMATION_SENT))), l)
    else Blocked
  }

  /** Delete the own proof and hand the application its peer. */
  function ReturnResponder(w: World, l: Ledger, conn: Conn): Effect {
    if !Answering(w, conn, CONFIRMATION_SENT) || conn.responder.value.exchange.None? then Blocked else
    var r := conn.responder.value;
    var session := SessionId(r.hello.claims.sessionNonce);
    if session.Some? then
      Done(conn.(responder := Some(r.(
             stage := RESPONDER_RETURNED,
             peer := Some(Peer(session.value, r.sender.certificate.claims.identity,
                               r.sender.certificate.claims.deviceId))))),
           l.(storage := l.storage - {Slot(Identity(w, r.device), ProofPath(r.exchange.value.proof))}))
    else Blocked
  }

  function ReceiveConfirmation(w: World, l: Ledger, conn: Conn): Effect {
    if !Dialing(w, conn, READY_SENT) || conn.initiator.value.exchange.None? then Blocked else
    if |conn.toInitiator| < 2 || !conn.toInitiator[1].ConfirmedMessage? then Blocked else
    var i, m := conn.initiator.value, conn.toInitiator[1];
    if && m.version == VERSION
       && m.challenge == Taken(i)
       && m.initiatorPath == ProofPath(i.exchange.value.proof)
       && m.responderPath == ResponderSlot(i).path
    then Done(conn.(initiator := Some(i.(stage := CONFIRMATION_READ))), l)
    else Blocked
  }

  function CommitTarget(w: World, local: Local, l: Ledger, conn: Conn): Effect {
    if !Dialing(w, conn, CONFIRMATION_READ) then Blocked else
    var i := conn.initiator.value;
    if RecordVerify(i.target, i.target.certificate.claims.identity, local.now, w.devices[i.device].policy, None) then
      Done(conn.(initiator := Some(i.(committedAt := Some(local.now), stage := TARGET_COMMITTED))),
           l.(commits := l.commits + {Commit(i.device, i.target, local.now)}))
    else Blocked
  }

  function ReturnInitiator(w: World, l: Ledger, conn: Conn): Effect {
    if !Dialing(w, conn, TARGET_COMMITTED) || conn.initiator.value.exchange.None? then Blocked else
    var i := conn.initiator.value;
    var session := SessionId(i.hello.claims.sessionNonce);
    if session.Some? then
      Done(conn.(initiator := Some(i.(
             stage := INITIATOR_RETURNED,
             peer := Some(Peer(session.value, i.target.certificate.claims.identity,
                               i.target.certificate.claims.deviceId))))),
           l.(storage := l.storage - {Slot(Identity(w, i.device), ProofPath(i.exchange.value.proof))}))
    else Blocked
  }

  // ---------------------------------------------------------------- events and runs

  /** One stretch of code, or one move of the adversary, on one connection. */
  datatype Move =
    | DoSendHello(device: Device, sender: Record, target: Record, application: string, nonce: Base64Text)
    | DoReceiveHello(device: Device, target: Record)
    | DoConsent(challenge: Base64Text)
    | DoSendAck
    | DoReceiveAck
    | DoCheckResponder
    | DoCheckInitiator
    | DoCommitSender
    | DoSendConfirmation
    | DoReturnResponder
    | DoReceiveConfirmation
    | DoCommitTarget
    | DoReturnInitiator
    | FailInitiator
    | FailResponder
    | SpeakAsInitiator(message: Message)
    | SpeakAsResponder(message: Message)

  /** `Register` adds a record and drops those that expired or made room for it. */
  datatype Event =
    | Tick(now: u64)
    | Register(device: Device, record: Record, evicted: set<Record>)
    | Connect(conn: ConnId, initiatorEnd: string, responderEnd: string)
    | Act(conn: ConnId, move: Move)
    | Overwrite(slot: Slot, proof: Proof)
    | Erase(slot: Slot)

  function ActiveRecords(s: State, d: Device): set<Record> {
    if d in s.active then s.active[d] else {}
  }

  function MoveEffect(w: World, s: State, c: ConnId, conn: Conn, m: Move): Effect {
    var l, none := s.ledger, Local(s.clock, {});
    match m
    case DoSendHello(d, sender, target, application, nonce) =>
      SendHello(w, Local(s.clock, ActiveRecords(s, d)), l, c, conn, d, sender, target, application, nonce)
    case DoReceiveHello(d, target) => ReceiveHello(w, Local(s.clock, ActiveRecords(s, d)), l, conn, d, target)
    case DoConsent(challenge) => Consent(w, none, l, c, conn, challenge)
    case DoSendAck => SendAck(w, l, conn)
    case DoReceiveAck => ReceiveAck(w, none, l, c, conn)
    case DoCheckResponder => CheckResponder(w, none, l, conn)
    case DoCheckInitiator => CheckInitiator(w, none, l, conn)
    case DoCommitSender => CommitSender(w, none, l, conn)
    case DoSendConfirmation => SendConfirmation(w, l, conn)
    case DoReturnResponder => ReturnResponder(w, l, conn)
    case DoReceiveConfirmation => ReceiveConfirmation(w, l, conn)
    case DoCommitTarget => CommitTarget(w, none, l, conn)
    case DoReturnInitiator => ReturnInitiator(w, l, conn)
    case FailInitiator =>
      if conn.initiator.Some? then Done(conn.(initiator := Some(conn.initiator.value.(failed := true))), l)
      else Blocked
    case FailResponder =>
      if conn.responder.Some? then Done(conn.(responder := Some(conn.responder.value.(failed := true))), l)
      else Blocked
    case SpeakAsInitiator(message) =>
      if !HonestEndpoint(w, conn.initiatorEnd) && MessageShowable(w, l, message)
      then Done(conn.(toResponder := conn.toResponder + [message], initiatorHostile := true), l)
      else Blocked
    case SpeakAsResponder(message) =>
      if !HonestEndpoint(w, conn.responderEnd) && MessageShowable(w, l, message)
      then Done(conn.(toInitiator := conn.toInitiator + [message], responderHostile := true), l)
      else Blocked
  }

  /** One event; `None` when the code would not get past its checks. */
  function Apply(w: World, s: State, e: Event): Option<State> {
    match e
    case Tick(now) => if s.clock <= now then Some(s.(clock := now)) else None
    case Register(d, record, evicted) =>
      if && d in w.devices
         && OwnRecord(w.devices[d].credential, record)
         && RecordVerify(record, Identity(w, d), s.clock, w.devices[d].policy, None)
      then Some(s.(active := s.active[d := (ActiveRecords(s, d) - evicted) + {record}],
                   ledger := s.ledger.(registered := s.ledger.registered[Registration(d, record) := s.clock])))
      else None
    case Connect(c, initiatorEnd, responderEnd) =>
      if c in s.conns then None
      else Some(s.(conns := s.conns[c := Conn(initiatorEnd, responderEnd, [], [], false, false, None, None)]))
    case Act(c, move) =>
      if c !in s.conns then None else
      var effect := MoveEffect(w, s, c, s.conns[c], move);
      if effect.Blocked? then None
      else Some(s.(conns := s.conns[c := effect.conn], ledger := effect.ledger))
    case Overwrite(slot, proof) =>
      if Showable(w, s.ledger, proof.signature)
      then Some(s.(ledger := s.ledger.(storage := s.ledger.storage[slot := proof])))
      else None
    case Erase(slot) => Some(s.(ledger := s.ledger.(storage := s.ledger.storage - {slot})))
  }

  /** A whole run: the events one after another, `None` if one of them could not happen. */
  function Execute(w: World, s: State, events: seq<Event>): Option<State>
    decreases |events|
  {
    if events == [] then Some(s) else
    var before := Execute(w, s, events[..|events| - 1]);
    if before.None? then None else Apply(w, before.value, events[|events| - 1])
  }
}
