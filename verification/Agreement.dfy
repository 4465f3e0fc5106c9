/** What every run of the handshake guarantees, whatever the adversary does. */
module Agreement {
  import opened Base
  import opened Wire
  import opened WireTheorems
  import opened Handshake

  // ---------------------------------------------------------------- the invariant of one connection

  /** A proof made for this role, challenge, Hello and record, under the record's control key. */
  predicate ProofFor(q: Proof, role: Role, challenge: Base64Text, hello: Hello, record: Record) {
    && q.claims.role == role
    && q.claims.challenge == challenge
    && ProofPath(q) == DerivedPath(role, challenge, hello, record)
    && q.signature == Signed(record.certificate.claims.controlKey, ProofPayload(q.claims))
  }

  predicate AckFor(k: Ack, hello: Hello, responder: Record) {
    && k.claims.helloDigest == HelloDigest(hello)
    && k.signature == Signed(responder.certificate.claims.controlKey, AckPayload(k.claims))
  }

  predicate HelloFor(hello: Hello, sender: Record, target: Record) {
    && hello.claims.fromRecord == sender
    && hello.claims.targetDigest == RecordDigest(target)
    && ValidChallenge(hello.claims.sessionNonce)
    && hello.signature == Signed(sender.certificate.claims.controlKey, HelloPayload(hello.claims))
  }

  function PeerFrom(hello: Hello, remote: Record): Peer
    requires ValidChallenge(hello.claims.sessionNonce)
  {
    Peer(hello.claims.sessionNonce.bytes[..16], remote.certificate.claims.identity,
         remote.certificate.claims.deviceId)
  }

  ghost predicate DrawnFor(l: Ledger, nonce: Base64Text, c: ConnId) {
    nonce in l.nonces && l.nonces[nonce] == c
  }

  ghost predicate InitiatorOk(
    w: World, l: Ledger, c: ConnId, ownEnd: string, peerEnd: string, inbox: seq<Message>, i: InitiatorSession)
  {
    && i.device in w.devices
    && ownEnd == Endpoint(w, i.device)
    && peerEnd == i.target.certificate.claims.irohId
    && OwnRecord(w.devices[i.device].credential, i.sender)
    && HelloFor(i.hello, i.sender, i.target)
    && DrawnFor(l, i.hello.claims.sessionNonce, c)
    && HELLO_SENT <= i.stage <= INITIATOR_RETURNED
    && (i.stage >= PROOF_PUBLISHED <==> i.exchange.Some?)
    && (i.exchange.Some? ==>
          && |inbox| >= 1
          && inbox[0] == AckMessage(i.exchange.value.ack)
          && AckFor(i.exchange.value.ack, i.hello, i.target)
          && ProofFor(i.exchange.value.proof, Initiator, Taken(i), i.hello, i.sender))
    && (i.stage >= READY_SENT ==>
          && i.seen.Some?
          && ProofFor(i.seen.value.proof, Responder, Taken(i), i.hello, i.target)
          && Showable(w, l, i.seen.value.proof.signature))
    && (i.stage >= CONFIRMATION_READ ==> |inbox| >= 2 && inbox[1].ConfirmedMessage?)
    && (i.stage >= TARGET_COMMITTED ==>
          i.committedAt.Some? && Commit(i.device, i.target, i.committedAt.value) in l.commits)
    && (i.peer.Some? <==> i.stage == INITIATOR_RETURNED)
    && (i.peer.Some? ==> i.peer.value == PeerFrom(i.hello, i.target))
  }

  ghost predicate ResponderOk(
    w: World, l: Ledger, c: ConnId, ownEnd: string, peerEnd: string, inbox: seq<Message>, r: ResponderSession)
  {
    && r.device in w.devices
    && ownEnd == Endpoint(w, r.device)
    && peerEnd == r.sender.certificate.claims.irohId
    && |inbox| >= 1
    && inbox[0] == HelloMessage(r.hello)
    && OwnRecord(w.devices[r.device].credential, r.target)
    && HelloFor(r.hello, r.sender, r.target)
    && r.hello.claims.fromIdentity == r.sender.certificate.claims.identity
    && AWAITING_CONSENT <= r.stage <= RESPONDER_RETURNED
    && (r.stage >= CONSENTED <==> r.exchange.Some?)
    && (r.exchange.Some? ==>
          && DrawnFor(l, Drawn(r), c)
          && AckFor(r.exchange.value.ack, r.hello, r.target)
          && Showable(w, l, r.exchange.value.ack.signature)
          && ProofFor(r.exchange.value.proof, Responder, Drawn(r), r.hello, r.target))
    && (r.stage >= PROOF_VERIFIED ==>
          && |inbox| >= 2
          && inbox[1].ReadyMessage?
          && r.seen.Some?
          && ProofFor(r.seen.value.proof, Initiator, Drawn(r), r.hello, r.sender)
          && Showable(w, l, r.seen.value.proof.signature))
    && (r.stage >= SENDER_COMMITTED ==>
          r.committedAt.Some? && Commit(r.device, r.sender, r.committedAt.value) in l.commits)
    && (r.peer.Some? <==> r.stage == RESPONDER_RETURNED)
    && (r.peer.Some? ==> r.peer.value == PeerFrom(r.hello, r.sender))
  }

  /** Everything an undisturbed initiator side has written. */
  ghost function SentByInitiator(conn: Conn): seq<Message> {
    if conn.initiator.None? then [] else
    var i := conn.initiator.value;
    [HelloMessage(i.hello)] + (if i.stage >= READY_SENT && i.exchange.Some? then [ReadyFor(i)] else [])
  }

  ghost function SentByResponder(conn: Conn): seq<Message> {
    if conn.responder.None? || conn.responder.value.exchange.None? then [] else
    var r := conn.responder.value;
    (if r.stage >= ACK_SENT then [AckMessage(r.exchange.value.ack)] else [])
    + (if r.stage >= CONFIRMATION_SENT then [ConfirmationFor(r)] else [])
  }

  /** An end whose key is honest is undisturbed, and an undisturbed end wrote only what it should. */
  ghost predicate ChannelsOk(w: World, conn: Conn) {
    && (HonestEndpoint(w, conn.initiatorEnd) ==> !conn.initiatorHostile)
    && (HonestEndpoint(w, conn.responderEnd) ==> !conn.responderHostile)
    && (!conn.initiatorHostile ==> conn.toResponder == SentByInitiator(conn))
    && (!conn.responderHostile ==> conn.toInitiator == SentByResponder(conn))
  }

  ghost predicate MessagesShowable(w: World, l: Ledger, log: seq<Message>) {
    forall k :: 0 <= k < |log| ==> MessageShowable(w, l, log[k])
  }

  ghost predicate ConnOk(w: World, l: Ledger, c: ConnId, conn: Conn) {
    && (conn.initiator.Some? ==>
          InitiatorOk(w, l, c, conn.initiatorEnd, conn.responderEnd, conn.toInitiator, conn.initiator.value))
    && (conn.responder.Some? ==>
          ResponderOk(w, l, c, conn.responderEnd, conn.initiatorEnd, conn.toResponder, conn.responder.value))
    && ChannelsOk(w, conn)
    && MessagesShowable(w, l, conn.toResponder)
    && MessagesShowable(w, l, conn.toInitiator)
  }

  /** The session of device key `g.key` on this connection made signature `g`. */
  ghost predicate MadeBy(w: World, conn: Conn, g: Signature) {
    && g.Signed?
    && (g.payload.HelloPayload? || (g.payload.ProofPayload? && g.payload.proofClaims.role == Initiator) ==>
          && conn.initiator.Some?
          && conn.initiator.value.device in w.devices
          && Control(w, conn.initiator.value.device) == g.key)
    && (g.payload.HelloPayload? ==> conn.initiator.value.hello.claims == g.payload.helloClaims)
    && (g.payload.ProofPayload? && g.payload.proofClaims.role == Initiator ==>
          && conn.initiator.value.exchange.Some?
          && conn.initiator.value.exchange.value.proof.claims == g.payload.proofClaims)
    && (g.payload.AckPayload? || (g.payload.ProofPayload? && g.payload.proofClaims.role == Responder) ==>
          && conn.responder.Some?
          && conn.responder.value.device in w.devices
          && Control(w, conn.responder.value.device) == g.key
          && conn.responder.value.exchange.Some?)
    && (g.payload.AckPayload? ==> conn.responder.value.exchange.value.ack.claims == g.payload.ackClaims)
    && (g.payload.ProofPayload? && g.payload.proofClaims.role == Responder ==>
          conn.responder.value.exchange.value.proof.claims == g.payload.proofClaims)
  }

  ghost predicate StorageOk(w: World, l: Ledger) {
    forall slot | slot in l.storage :: Showable(w, l, l.storage[slot].signature)
  }

  /** Signatures and nonces are recorded for connections that exist, and by the session that made them. */
  ghost predicate SignaturesOk(w: World, conns: map<ConnId, Conn>, l: Ledger) {
    forall g | g in l.signatures :: l.signatures[g] in conns && MadeBy(w, conns[l.signatures[g]], g)
  }

  /** Device `d` verified this proof in full, at a clock reading that is past. */
  predicate Verified(
    w: World, d: Device, clock: u64, seen: Seen, own: Record, peer: Record, hello: Hello, role: Role,
    challenge: Base64Text)
    requires d in w.devices
  {
    && seen.at <= clock
    && ProofVerify(seen.proof, own, peer, hello, role, challenge, seen.at, w.devices[d].policy)
  }

  /** The earliest of half a minute from now and the ends of both locators and both certificates. */
  function Earliest(now: u64, sender: Record, target: Record): int {
    Min(now + 30, Min(Min(sender.locator.claims.exp, target.locator.claims.exp),
                      Min(sender.certificate.claims.exp, target.certificate.claims.exp)))
  }

  /**
    What an initiator has done: it invited with a record it had registered, for at most half a minute; it took
    an Ack that verified and proved its currentness over the Ack's window; what it saw, it verified; the
    confirmation it read repeats the challenge and both paths; what it committed had verified.
  */
  predicate InitiatorPast(w: World, clock: u64, l: Ledger, inbox: seq<Message>, i: InitiatorSession) {
    && i.device in w.devices
    && var policy := w.devices[i.device].policy;
       && Registration(i.device, i.sender) in l.registered
       && i.hello.claims.iat <= clock
       && i.hello.claims.exp == Earliest(i.hello.claims.iat, i.sender, i.target)
       && HelloVerify(i.hello, i.sender, i.target, i.application, i.hello.claims.iat, policy)
       && (i.stage >= PROOF_PUBLISHED <==> i.exchange.Some?)
       && (i.exchange.Some? ==>
             var x := i.exchange.value;
             && x.at <= clock
             && AckVerify(x.ack, i.target, i.sender, i.hello, i.application, x.at, policy)
             && x.proof.claims.iat == x.ack.claims.iat && x.proof.claims.exp == x.ack.claims.exp
             && ProofVerify(x.proof, i.sender, i.target, i.hello, Initiator, Taken(i), x.ack.claims.iat, policy))
       && (i.seen.Some? <==> i.stage >= READY_SENT)
       && (i.seen.Some? ==>
             && i.exchange.Some?
             && Verified(w, i.device, clock, i.seen.value, i.target, i.sender, i.hello, Responder, Taken(i)))
       && (i.stage >= CONFIRMATION_READ ==>
             && |inbox| >= 2
             && i.exchange.Some?
             && inbox[1] == ConfirmedMessage(
                  VERSION, Taken(i), ProofPath(i.exchange.value.proof),
                  DerivedPath(Responder, Taken(i), i.hello, i.target)))
       && (i.stage >= TARGET_COMMITTED ==> i.committedAt.Some?)
       && (i.committedAt.Some? ==>
             && i.committedAt.value <= clock
             && RecordVerify(i.target, i.target.certificate.claims.identity, i.committedAt.value, policy, None))
  }

  /**
    What a responder has done: it heard a Hello that verified, for an application it accepts and a record it had
    registered; it consented for at most thirty seconds, with one window for Ack and proof; the readiness it read
    names its challenge and both paths; what it saw, it verified; what it committed had verified.
  */
  predicate ResponderPast(w: World, clock: u64, l: Ledger, inbox: seq<Message>, r: ResponderSession) {
    && r.device in w.devices
    && var policy := w.devices[r.device].policy;
       && Registration(r.device, r.target) in l.registered
       && r.hello.claims.application in w.devices[r.device].accepted
       && r.heardAt <= clock
       && r.heardAt < r.target.locator.claims.exp
       && HelloVerify(r.hello, r.sender, r.target, r.hello.claims.application, r.heardAt, policy)
       && (r.stage >= CONSENTED <==> r.exchange.Some?)
       && (r.exchange.Some? ==>
             var x := r.exchange.value;
             && x.at <= clock
             && x.ack.claims.iat == x.at && x.ack.claims.exp == Min(r.hello.claims.exp, x.at + 30)
             && AckVerify(x.ack, r.target, r.sender, r.hello, r.hello.claims.application, x.at, policy)
             && x.proof.claims.iat == x.ack.claims.iat && x.proof.claims.exp == x.ack.claims.exp
             && ProofVerify(x.proof, r.target, r.sender, r.hello, Responder, Drawn(r), x.at, policy))
       && (r.seen.Some? <==> r.stage >= PROOF_VERIFIED)
       && (r.seen.Some? ==>
             && r.exchange.Some?
             && Verified(w, r.device, clock, r.seen.value, r.sender, r.target, r.hello, Initiator, Drawn(r))
             && |inbox| >= 2
             && inbox[1] == ReadyMessage(
                  VERSION, Drawn(r), DerivedPath(Initiator, Drawn(r), r.hello, r.sender),
                  DerivedPath(Responder, Drawn(r), r.hello, r.target)))
       && (r.stage >= SENDER_COMMITTED ==> r.committedAt.Some?)
       && (r.committedAt.Some? ==>
             && r.committedAt.value <= clock
             && RecordVerify(r.sender, r.sender.certificate.claims.identity, r.committedAt.value, policy, None))
  }

  predicate PastOk(w: World, clock: u64, l: Ledger, conn: Conn) {
    && (conn.initiator.Some? ==> InitiatorPast(w, clock, l, conn.toInitiator, conn.initiator.value))
    && (conn.responder.Some? ==> ResponderPast(w, clock, l, conn.toResponder, conn.responder.value))
  }

  /** Devices answer only for records they registered. */
  ghost predicate ActiveOk(s: State) {
    forall d, r | d in s.active && r in s.active[d] :: Registration(d, r) in s.ledger.registered
  }

  /** What a device registered is its own record, and verified when it was registered. */
  predicate RegistrationOk(w: World, clock: u64, l: Ledger, g: Registration)
    requires g in l.registered
  {
    && g.device in w.devices
    && OwnRecord(w.devices[g.device].credential, g.record)
    && l.registered[g] <= clock
    && RecordVerify(g.record, Identity(w, g.device), l.registered[g], w.devices[g.device].policy, None)
  }

  ghost predicate RegisteredOk(w: World, s: State) {
    forall g | g in s.ledger.registered :: RegistrationOk(w, s.clock, s.ledger, g)
  }

  ghost predicate Inv(w: World, s: State) {
    && (forall c | c in s.conns :: ConnOk(w, s.ledger, c, s.conns[c]))
    && (forall c | c in s.conns :: PastOk(w, s.clock, s.ledger, s.conns[c]))
    && ActiveOk(s)
    && RegisteredOk(w, s)
    && SignaturesOk(w, s.conns, s.ledger)
    && StorageOk(w, s.ledger)
  }

  // ---------------------------------------------------------------- nothing recorded is forgotten

  ghost predicate Grows(l: Ledger, m: Ledger) {
    && (forall g | g in l.signatures :: g in m.signatures)
    && (forall n | n in l.nonces :: n in m.nonces && m.nonces[n] == l.nonces[n])
    && l.commits <= m.commits
    && l.registered.Keys <= m.registered.Keys
  }

  /** The sessions keep what they had fixed. */
  ghost predicate Keeps(a: Conn, b: Conn) {
    && (a.initiator.Some? ==>
          && b.initiator.Some?
          && b.initiator.value.device == a.initiator.value.device
          && b.initiator.value.hello == a.initiator.value.hello
          && (a.initiator.value.exchange.Some? ==> b.initiator.value.exchange == a.initiator.value.exchange))
    && (a.responder.Some? ==>
          && b.responder.Some?
          && b.responder.value.device == a.responder.value.device
          && b.responder.value.hello == a.responder.value.hello
          && (a.responder.value.exchange.Some? ==> b.responder.value.exchange == a.responder.value.exchange))
  }

  lemma ShowableFrame(w: World, l: Ledger, m: Ledger, g: Signature)
    requires Grows(l, m) && Showable(w, l, g)
    ensures Showable(w, m, g)
  {
  }

  lemma ConnFrame(w: World, l: Ledger, m: Ledger, c: ConnId, conn: Conn)
    requires Grows(l, m) && ConnOk(w, l, c, conn)
    ensures ConnOk(w, m, c, conn)
  {
    hide ChannelsOk, ProofFor, AckFor, HelloFor, PeerFrom;
  }

  lemma InitiatorFrame(
    w: World, l: Ledger, c: ConnId, ownEnd: string, peerEnd: string, inbox: seq<Message>, more: seq<Message>,
    i: InitiatorSession)
    requires InitiatorOk(w, l, c, ownEnd, peerEnd, inbox, i)
    ensures InitiatorOk(w, l, c, ownEnd, peerEnd, inbox + more, i)
  {
    hide ProofFor, AckFor, HelloFor, PeerFrom, Showable;
  }

  lemma ResponderFrame(
    w: World, l: Ledger, c: ConnId, ownEnd: string, peerEnd: string, inbox: seq<Message>, more: seq<Message>,
    r: ResponderSession)
    requires ResponderOk(w, l, c, ownEnd, peerEnd, inbox, r)
    ensures ResponderOk(w, l, c, ownEnd, peerEnd, inbox + more, r)
  {
    hide ProofFor, AckFor, HelloFor, PeerFrom, Showable;
  }

  lemma MadeFrame(w: World, a: Conn, b: Conn, g: Signature)
    requires Keeps(a, b) && MadeBy(w, a, g)
    ensures MadeBy(w, b, g)
  {
  }

  // ---------------------------------------------------------------- what the signed objects bring

  lemma SignHelloGives(
    d: Credential, sender: Record, target: Record, application: string, nonce: Base64Text, iat: u64, exp: u64,
    p: Policy)
    requires SignHello(d, sender, target, application, nonce, iat, exp, p).Some?
    ensures OwnRecord(d, sender) && ValidChallenge(nonce)
    ensures var h := SignHello(d, sender, target, application, nonce, iat, exp, p).value;
            && h.claims.fromRecord == sender
            && h.claims.targetDigest == RecordDigest(target)
            && h.claims.sessionNonce == nonce
            && h.signature == Signed(d.certificate.claims.controlKey, HelloPayload(h.claims))
  {
    hide RecordVerify;
  }

  lemma HelloVerifyGives(h: Hello, sender: Record, target: Record, application: string, now: u64, p: Policy)
    requires HelloVerify(h, sender, target, application, now, p)
    ensures h.claims.fromRecord == sender
    ensures h.claims.fromIdentity == sender.certificate.claims.identity
    ensures h.claims.targetDigest == RecordDigest(target)
    ensures ValidChallenge(h.claims.sessionNonce)
    ensures h.signature == Signed(sender.certificate.claims.controlKey, HelloPayload(h.claims))
  {
    hide RecordVerify;
  }

  lemma SignAckGives(
    d: Credential, hello: Hello, initiator: Record, responder: Record, nonce: Base64Text, iat: u64, exp: u64,
    p: Policy)
    requires SignAck(d, hello, initiator, responder, nonce, iat, exp, p).Some?
    ensures OwnRecord(d, responder)
    ensures var k := SignAck(d, hello, initiator, responder, nonce, iat, exp, p).value;
            AckFor(k, hello, responder) && k.claims.responderNonce == nonce
  {
    hide HelloVerify;
  }

  lemma AckVerifyGives(
    k: Ack, responder: Record, initiator: Record, hello: Hello, application: string, now: u64, p: Policy)
    requires AckVerify(k, responder, initiator, hello, application, now, p)
    ensures AckFor(k, hello, responder)
  {
    hide HelloVerify;
  }

  lemma SignProofGives(
    d: Credential, own: Record, peer: Record, hello: Hello, role: Role, challenge: Base64Text, iat: u64, exp: u64,
    p: Policy)
    requires SignProof(d, own, peer, hello, role, challenge, iat, exp, p).Some?
    ensures OwnRecord(d, own)
    ensures ProofFor(SignProof(d, own, peer, hello, role, challenge, iat, exp, p).value, role, challenge, hello, own)
  {
    hide HelloVerify;
  }

  lemma ProofVerifyGives(
    q: Proof, own: Record, peer: Record, hello: Hello, role: Role, challenge: Base64Text, now: u64, p: Policy)
    requires ProofVerify(q, own, peer, hello, role, challenge, now, p)
    ensures ProofFor(q, role, challenge, hello, own)
  {
    hide HelloVerify;
  }

  // ---------------------------------------------------------------- every move keeps the invariant

  /** What one move adds to the ledger: only growth, and only what its own session made. */
  ghost predicate LedgerOk(w: World, l: Ledger, c: ConnId, conn: Conn, e: Effect)
    requires e.Done?
  {
    && Grows(l, e.ledger)
    && Keeps(conn, e.conn)
    && (forall g | g in e.ledger.signatures ::
          (g in l.signatures && e.ledger.signatures[g] == l.signatures[g])
          || (e.ledger.signatures[g] == c && MadeBy(w, e.conn, g)))
    && (forall slot | slot in e.ledger.storage ::
          (slot in l.storage && e.ledger.storage[slot] == l.storage[slot])
          || Showable(w, e.ledger, e.ledger.storage[slot].signature))
  }

  /** What one move owes. */
  ghost predicate MoveOk(w: World, l: Ledger, c: ConnId, conn: Conn, e: Effect)
    requires e.Done?
  {
    LedgerOk(w, l, c, conn, e) && ConnOk(w, e.ledger, c, e.conn)
  }

  lemma SendHelloLedger(
    w: World, local: Local, l: Ledger, c: ConnId, conn: Conn, d: Device, sender: Record, target: Record,
    application: string, nonce: Base64Text)
    requires ConnOk(w, l, c, conn)
    requires SendHello(w, local, l, c, conn, d, sender, target, application, nonce).Done?
    ensures LedgerOk(w, l, c, conn, SendHello(w, local, l, c, conn, d, sender, target, application, nonce))
  {
    hide SignHello, RecordVerify, Newest, HelloExpiry, InitiatorOk, ResponderOk, ChannelsOk, MessagesShowable;
    SignHelloGives(w.devices[d].credential, sender, target, application, nonce, local.now,
                   HelloExpiry(local.now, sender, target), w.devices[d].policy);
  }

  lemma SendHelloOk(
    w: World, local: Local, l: Ledger, c: ConnId, conn: Conn, d: Device, sender: Record, target: Record,
    application: string, nonce: Base64Text)
    requires ConnOk(w, l, c, conn)
    requires SendHello(w, local, l, c, conn, d, sender, target, application, nonce).Done?
    ensures MoveOk(w, l, c, conn, SendHello(w, local, l, c, conn, d, sender, target, application, nonce))
  {
    hide SignHello, RecordVerify, Newest, HelloExpiry, MadeBy, Grows, Keeps;
    SignHelloGives(w.devices[d].credential, sender, target, application, nonce, local.now,
                   HelloExpiry(local.now, sender, target), w.devices[d].policy);
    SendHelloLedger(w, local, l, c, conn, d, sender, target, application, nonce);
    var e := SendHello(w, local, l, c, conn, d, sender, target, application, nonce);
    ConnFrame(w, l, e.ledger, c, conn);
  }

  lemma ReceiveHelloOk(w: World, local: Local, l: Ledger, c: ConnId, conn: Conn, d: Device, target: Record)
    requires ConnOk(w, l, c, conn)
    requires ReceiveHello(w, local, l, conn, d, target).Done?
    ensures MoveOk(w, l, c, conn, ReceiveHello(w, local, l, conn, d, target))
  {
    hide HelloVerify, InitiatorOk;
    var hello := conn.toResponder[0].hello;
    HelloVerifyGives(hello, hello.claims.fromRecord, target, hello.claims.application, local.now, w.devices[d].policy);
  }

  lemma ConsentLedger(w: World, local: Local, l: Ledger, c: ConnId, conn: Conn, challenge: Base64Text)
    requires ConnOk(w, l, c, conn)
    requires Consent(w, local, l, c, conn, challenge).Done?
    ensures LedgerOk(w, l, c, conn, Consent(w, local, l, c, conn, challenge))
  {
    hide SignAck, SignProof, ConsentExpiry, InitiatorOk, ChannelsOk, MessagesShowable;
    var r := conn.responder.value;
    var spec, expiry := w.devices[r.device], ConsentExpiry(local.now, r.hello);
    SignAckGives(spec.credential, r.hello, r.sender, r.target, challenge, local.now, expiry, spec.policy);
    SignProofGives(spec.credential, r.target, r.sender, r.hello, Responder, challenge, local.now, expiry, spec.policy);
  }

  lemma ConsentOk(w: World, local: Local, l: Ledger, c: ConnId, conn: Conn, challenge: Base64Text)
    requires ConnOk(w, l, c, conn)
    requires Consent(w, local, l, c, conn, challenge).Done?
    ensures MoveOk(w, l, c, conn, Consent(w, local, l, c, conn, challenge))
  {
    hide SignAck, SignProof, ConsentExpiry, MadeBy, Grows, Keeps;
    var r := conn.responder.value;
    var spec, expiry := w.devices[r.device], ConsentExpiry(local.now, r.hello);
    SignAckGives(spec.credential, r.hello, r.sender, r.target, challenge, local.now, expiry, spec.policy);
    SignProofGives(spec.credential, r.target, r.sender, r.hello, Responder, challenge, local.now, expiry, spec.policy);
    ConsentLedger(w, local, l, c, conn, challenge);
    ConnFrame(w, l, Consent(w, local, l, c, conn, challenge).ledger, c, conn);
  }

  lemma SendAckOk(w: World, l: Ledger, c: ConnId, conn: Conn)
    requires ConnOk(w, l, c, conn)
    requires SendAck(w, l, conn).Done?
    ensures MoveOk(w, l, c, conn, SendAck(w, l, conn))
  {
    hide ProofFor, AckFor, HelloFor, PeerFrom, InitiatorOk, MadeBy, Showable;
    var e := SendAck(w, l, conn);
    if conn.initiator.Some? {
      InitiatorFrame(w, l, c, conn.initiatorEnd, conn.responderEnd, conn.toInitiator,
                     [AckMessage(conn.responder.value.exchange.value.ack)], conn.initiator.value);
    }
  }

  lemma ReceiveAckLedger(w: World, local: Local, l: Ledger, c: ConnId, conn: Conn)
    requires ConnOk(w, l, c, conn)
    requires ReceiveAck(w, local, l, c, conn).Done?
    ensures LedgerOk(w, l, c, conn, ReceiveAck(w, local, l, c, conn))
  {
    hide AckVerify, SignProof, ResponderOk, ChannelsOk, MessagesShowable;
    var i, ack := conn.initiator.value, conn.toInitiator[0].ack;
    var spec := w.devices[i.device];
    SignProofGives(spec.credential, i.sender, i.target, i.hello, Initiator, ack.claims.responderNonce,
                   ack.claims.iat, ack.claims.exp, spec.policy);
  }

  lemma ReceiveAckOk(w: World, local: Local, l: Ledger, c: ConnId, conn: Conn)
    requires ConnOk(w, l, c, conn)
    requires ReceiveAck(w, local, l, c, conn).Done?
    ensures MoveOk(w, l, c, conn, ReceiveAck(w, local, l, c, conn))
  {
    hide AckVerify, SignProof, ResponderOk, MadeBy, Grows, Keeps;
    var i, ack := conn.initiator.value, conn.toInitiator[0].ack;
    var spec := w.devices[i.device];
    AckVerifyGives(ack, i.target, i.sender, i.hello, i.application, local.now, spec.policy);
    SignProofGives(spec.credential, i.sender, i.target, i.hello, Initiator, ack.claims.responderNonce,
                   ack.claims.iat, ack.claims.exp, spec.policy);
    ReceiveAckLedger(w, local, l, c, conn);
    ConnFrame(w, l, ReceiveAck(w, local, l, c, conn).ledger, c, conn);
  }

  lemma CheckResponderOk(w: World, local: Local, l: Ledger, c: ConnId, conn: Conn)
    requires ConnOk(w, l, c, conn) && StorageOk(w, l)
    requires CheckResponder(w, local, l, conn).Done?
    ensures MoveOk(w, l, c, conn, CheckResponder(w, local, l, conn))
  {
    hide ProofVerify, ProofFor, AckFor, HelloFor, PeerFrom, ResponderOk, MadeBy;
    var i := conn.initiator.value;
    ProofVerifyGives(l.storage[ResponderSlot(i)], i.target, i.sender, i.hello, Responder, Taken(i), local.now,
                     w.devices[i.device].policy);
    if conn.responder.Some? {
      ResponderFrame(w, l, c, conn.responderEnd, conn.initiatorEnd, conn.toResponder, [ReadyFor(i)],
                     conn.responder.value);
    }
  }

  lemma CheckInitiatorOk(w: World, local: Local, l: Ledger, c: ConnId, conn: Conn)
    requires ConnOk(w, l, c, conn) && StorageOk(w, l)
    requires CheckInitiator(w, local, l, conn).Done?
    ensures MoveOk(w, l, c, conn, CheckInitiator(w, local, l, conn))
  {
    hide ProofVerify, ProofFor, AckFor, HelloFor, PeerFrom, InitiatorOk, MadeBy, MessagesShowable;
    var r := conn.responder.value;
    ProofVerifyGives(l.storage[Slot(r.hello.claims.fromIdentity, conn.toResponder[1].initiatorPath)],
                     r.sender, r.target, r.hello, Initiator, Drawn(r), local.now, w.devices[r.device].policy);
  }

  lemma CommitSenderOk(w: World, local: Local, l: Ledger, c: ConnId, conn: Conn)
    requires ConnOk(w, l, c, conn)
    requires CommitSender(w, local, l, conn).Done?
    ensures MoveOk(w, l, c, conn, CommitSender(w, local, l, conn))
  {
    hide RecordVerify, ProofFor, AckFor, HelloFor, PeerFrom, InitiatorOk, MadeBy, Showable, MessagesShowable;
    ConnFrame(w, l, CommitSender(w, local, l, conn).ledger, c, conn);
  }

  lemma SendConfirmationOk(w: World, l: Ledger, c: ConnId, conn: Conn)
    requires ConnOk(w, l, c, conn)
    requires SendConfirmation(w, l, conn).Done?
    ensures MoveOk(w, l, c, conn, SendConfirmation(w, l, conn))
  {
    hide ProofFor, AckFor, HelloFor, PeerFrom, InitiatorOk, MadeBy, Showable;
    if conn.initiator.Some? {
      InitiatorFrame(w, l, c, conn.initiatorEnd, conn.responderEnd, conn.toInitiator,
                     [ConfirmationFor(conn.responder.value)], conn.initiator.value);
    }
  }

  lemma ReturnResponderOk(w: World, l: Ledger, c: ConnId, conn: Conn)
    requires ConnOk(w, l, c, conn)
    requires ReturnResponder(w, l, conn).Done?
    ensures MoveOk(w, l, c, conn, ReturnResponder(w, l, conn))
  {
    hide ProofFor, AckFor, InitiatorOk, MadeBy, Showable, MessagesShowable;
    ConnFrame(w, l, ReturnResponder(w, l, conn).ledger, c, conn);
  }

  lemma ReceiveConfirmationOk(w: World, l: Ledger, c: ConnId, conn: Conn)
    requires ConnOk(w, l, c, conn)
    requires ReceiveConfirmation(w, l, conn).Done?
    ensures MoveOk(w, l, c, conn, ReceiveConfirmation(w, l, conn))
  {
    hide ProofFor, AckFor, HelloFor, PeerFrom, ResponderOk, MadeBy, Showable, MessagesShowable;
  }

  lemma CommitTargetOk(w: World, local: Local, l: Ledger, c: ConnId, conn: Conn)
    requires ConnOk(w, l, c, conn)
    requires CommitTarget(w, local, l, conn).Done?
    ensures MoveOk(w, l, c, conn, CommitTarget(w, local, l, conn))
  {
    hide RecordVerify, ProofFor, AckFor, HelloFor, PeerFrom, ResponderOk, MadeBy, Showable, MessagesShowable;
    ConnFrame(w, l, CommitTarget(w, local, l, conn).ledger, c, conn);
  }

  lemma ReturnInitiatorOk(w: World, l: Ledger, c: ConnId, conn: Conn)
    requires ConnOk(w, l, c, conn)
    requires ReturnInitiator(w, l, conn).Done?
    ensures MoveOk(w, l, c, conn, ReturnInitiator(w, l, conn))
  {
    hide ProofFor, AckFor, ResponderOk, MadeBy, Showable, MessagesShowable;
    ConnFrame(w, l, ReturnInitiator(w, l, conn).ledger, c, conn);
  }

  lemma FailInitiatorOk(w: World, l: Ledger, c: ConnId, conn: Conn)
    requires ConnOk(w, l, c, conn) && conn.initiator.Some?
    ensures MoveOk(w, l, c, conn, Done(conn.(initiator := Some(conn.initiator.value.(failed := true))), l))
  {
    hide ProofFor, AckFor, HelloFor, PeerFrom, ResponderOk, MadeBy, Showable, MessagesShowable;
  }

  lemma FailResponderOk(w: World, l: Ledger, c: ConnId, conn: Conn)
    requires ConnOk(w, l, c, conn) && conn.responder.Some?
    ensures MoveOk(w, l, c, conn, Done(conn.(responder := Some(conn.responder.value.(failed := true))), l))
  {
    hide ProofFor, AckFor, HelloFor, PeerFrom, InitiatorOk, MadeBy, Showable, MessagesShowable;
  }

  lemma SpeakOk(w: World, s: State, c: ConnId, conn: Conn, m: Move)
    requires ConnOk(w, s.ledger, c, conn)
    requires m.SpeakAsInitiator? || m.SpeakAsResponder?
    requires MoveEffect(w, s, c, conn, m).Done?
    ensures MoveOk(w, s.ledger, c, conn, MoveEffect(w, s, c, conn, m))
  {
    hide ProofFor, AckFor, HelloFor, PeerFrom, InitiatorOk, ResponderOk, MadeBy, MessageShowable;
    if m.SpeakAsInitiator? && conn.responder.Some? {
      ResponderFrame(w, s.ledger, c, conn.responderEnd, conn.initiatorEnd, conn.toResponder, [m.message],
                     conn.responder.value);
    }
    if m.SpeakAsResponder? && conn.initiator.Some? {
      InitiatorFrame(w, s.ledger, c, conn.initiatorEnd, conn.responderEnd, conn.toInitiator, [m.message],
                     conn.initiator.value);
    }
  }

  lemma AnyMoveOk(w: World, s: State, c: ConnId, m: Move)
    requires Inv(w, s) && c in s.conns
    requires MoveEffect(w, s, c, s.conns[c], m).Done?
    ensures MoveOk(w, s.ledger, c, s.conns[c], MoveEffect(w, s, c, s.conns[c], m))
  {
    hide MoveOk, ConnOk, PastOk, StorageOk, SignaturesOk, SendHello, ReceiveHello, Consent, SendAck, ReceiveAck,
         CheckResponder, CheckInitiator, CommitSender, SendConfirmation, ReturnResponder, ReceiveConfirmation,
         CommitTarget, ReturnInitiator;
    var conn, l, none := s.conns[c], s.ledger, Local(s.clock, {});
    match m
    case DoSendHello(d, sender, target, application, nonce) =>
      SendHelloOk(w, Local(s.clock, ActiveRecords(s, d)), l, c, conn, d, sender, target, application, nonce);
    case DoReceiveHello(d, target) => ReceiveHelloOk(w, Local(s.clock, ActiveRecords(s, d)), l, c, conn, d, target);
    case DoConsent(challenge) => ConsentOk(w, none, l, c, conn, challenge);
    case DoSendAck => SendAckOk(w, l, c, conn);
    case DoReceiveAck => ReceiveAckOk(w, none, l, c, conn);
    case DoCheckResponder => CheckResponderOk(w, none, l, c, conn);
    case DoCheckInitiator => CheckInitiatorOk(w, none, l, c, conn);
    case DoCommitSender => CommitSenderOk(w, none, l, c, conn);
    case DoSendConfirmation => SendConfirmationOk(w, l, c, conn);
    case DoReturnResponder => ReturnResponderOk(w, l, c, conn);
    case DoReceiveConfirmation => ReceiveConfirmationOk(w, l, c, conn);
    case DoCommitTarget => CommitTargetOk(w, none, l, c, conn);
    case DoReturnInitiator => ReturnInitiatorOk(w, l, c, conn);
    case FailInitiator => FailInitiatorOk(w, l, c, conn);
    case FailResponder => FailResponderOk(w, l, c, conn);
    case SpeakAsInitiator(_) => SpeakOk(w, s, c, conn, m);
    case SpeakAsResponder(_) => SpeakOk(w, s, c, conn, m);
  }

  // ---------------------------------------------------------------- every move keeps what was done

  lemma SendHelloPast(w: World, s: State, c: ConnId, conn: Conn, m: Move)
    requires PastOk(w, s.clock, s.ledger, conn) && ActiveOk(s) && m.DoSendHello?
    requires MoveEffect(w, s, c, conn, m).Done?
    ensures PastOk(w, s.clock, MoveEffect(w, s, c, conn, m).ledger, MoveEffect(w, s, c, conn, m).conn)
  {
    hide SignHello, HelloVerify, AckVerify, ProofVerify, RecordVerify, Verified, ProofPath;
    var e := MoveEffect(w, s, c, conn, m);
    var spec, expiry := w.devices[m.device], HelloExpiry(s.clock, m.sender, m.target);
    HelloSignExact(spec.credential, m.sender, m.target, m.application, m.nonce, s.clock, expiry, spec.policy,
                   e.conn.initiator.value.hello);
  }

  lemma ReceiveHelloPast(w: World, s: State, c: ConnId, conn: Conn, m: Move)
    requires PastOk(w, s.clock, s.ledger, conn) && ActiveOk(s) && m.DoReceiveHello?
    requires MoveEffect(w, s, c, conn, m).Done?
    ensures PastOk(w, s.clock, MoveEffect(w, s, c, conn, m).ledger, MoveEffect(w, s, c, conn, m).conn)
  {
    hide HelloVerify, AckVerify, ProofVerify, RecordVerify, Verified, ProofPath, Earliest;
  }

  lemma ConsentPast(w: World, s: State, c: ConnId, conn: Conn, m: Move)
    requires PastOk(w, s.clock, s.ledger, conn) && m.DoConsent?
    requires MoveEffect(w, s, c, conn, m).Done?
    ensures PastOk(w, s.clock, MoveEffect(w, s, c, conn, m).ledger, MoveEffect(w, s, c, conn, m).conn)
  {
    hide SignAck, SignProof, HelloVerify, AckVerify, ProofVerify, RecordVerify, Verified, ProofPath, Earliest;
    var e, r := MoveEffect(w, s, c, conn, m), conn.responder.value;
    var spec, expiry := w.devices[r.device], ConsentExpiry(s.clock, r.hello);
    var x := e.conn.responder.value.exchange.value;
    AckSignExact(spec.credential, r.hello, r.sender, r.target, m.challenge, s.clock, expiry, spec.policy, x.ack);
    ProofSignExact(spec.credential, r.target, r.sender, r.hello, Responder, m.challenge, s.clock, expiry,
                   spec.policy, x.proof);
  }

  lemma ReceiveAckPast(w: World, s: State, c: ConnId, conn: Conn, m: Move)
    requires PastOk(w, s.clock, s.ledger, conn) && m.DoReceiveAck?
    requires MoveEffect(w, s, c, conn, m).Done?
    ensures PastOk(w, s.clock, MoveEffect(w, s, c, conn, m).ledger, MoveEffect(w, s, c, conn, m).conn)
  {
    hide SignProof, HelloVerify, AckVerify, ProofVerify, RecordVerify, Verified, ProofPath, Earliest;
    var e, i := MoveEffect(w, s, c, conn, m), conn.initiator.value;
    var spec, x := w.devices[i.device], e.conn.initiator.value.exchange.value;
    ProofSignExact(spec.credential, i.sender, i.target, i.hello, Initiator, x.ack.claims.responderNonce,
                   x.ack.claims.iat, x.ack.claims.exp, spec.policy, x.proof);
  }

  lemma CheckPast(w: World, s: State, c: ConnId, conn: Conn, m: Move)
    requires PastOk(w, s.clock, s.ledger, conn) && (m.DoCheckResponder? || m.DoCheckInitiator?)
    requires MoveEffect(w, s, c, conn, m).Done?
    ensures PastOk(w, s.clock, MoveEffect(w, s, c, conn, m).ledger, MoveEffect(w, s, c, conn, m).conn)
  {
    hide HelloVerify, AckVerify, ProofVerify, RecordVerify, ProofPath, Earliest;
  }

  lemma SendPast(w: World, s: State, c: ConnId, conn: Conn, m: Move)
    requires PastOk(w, s.clock, s.ledger, conn) && (m.DoSendAck? || m.DoSendConfirmation?)
    requires MoveEffect(w, s, c, conn, m).Done?
    ensures PastOk(w, s.clock, MoveEffect(w, s, c, conn, m).ledger, MoveEffect(w, s, c, conn, m).conn)
  {
    hide HelloVerify, AckVerify, ProofVerify, RecordVerify, Verified, ProofPath, Earliest;
  }

  lemma ClosingPast(w: World, s: State, c: ConnId, conn: Conn, m: Move)
    requires PastOk(w, s.clock, s.ledger, conn)
    requires m.DoCommitSender? || m.DoReturnResponder? || m.DoReceiveConfirmation? || m.DoCommitTarget?
             || m.DoReturnInitiator?
    requires MoveEffect(w, s, c, conn, m).Done?
    ensures PastOk(w, s.clock, MoveEffect(w, s, c, conn, m).ledger, MoveEffect(w, s, c, conn, m).conn)
  {
    hide HelloVerify, AckVerify, ProofVerify, RecordVerify, Verified, ProofPath, Earliest, SessionId;
  }

  lemma OtherPast(w: World, s: State, c: ConnId, conn: Conn, m: Move)
    requires PastOk(w, s.clock, s.ledger, conn)
    requires m.FailInitiator? || m.FailResponder? || m.SpeakAsInitiator? || m.SpeakAsResponder?
    requires MoveEffect(w, s, c, conn, m).Done?
    ensures PastOk(w, s.clock, MoveEffect(w, s, c, conn, m).ledger, MoveEffect(w, s, c, conn, m).conn)
  {
    hide HelloVerify, AckVerify, ProofVerify, RecordVerify, Verified, ProofPath, Earliest, HonestEndpoint,
      MessageShowable;
  }

  lemma MovePast(w: World, s: State, c: ConnId, conn: Conn, m: Move)
    requires PastOk(w, s.clock, s.ledger, conn) && ActiveOk(s) && MoveEffect(w, s, c, conn, m).Done?
    ensures PastOk(w, s.clock, MoveEffect(w, s, c, conn, m).ledger, MoveEffect(w, s, c, conn, m).conn)
  {
    hide PastOk, MoveEffect, ActiveOk;
    match m
    case DoSendHello(_, _, _, _, _) => SendHelloPast(w, s, c, conn, m);
    case DoReceiveHello(_, _) => ReceiveHelloPast(w, s, c, conn, m);
    case DoConsent(_) => ConsentPast(w, s, c, conn, m);
    case DoReceiveAck => ReceiveAckPast(w, s, c, conn, m);
    case DoCheckResponder => CheckPast(w, s, c, conn, m);
    case DoCheckInitiator => CheckPast(w, s, c, conn, m);
    case DoSendAck => SendPast(w, s, c, conn, m);
    case DoSendConfirmation => SendPast(w, s, c, conn, m);
    case FailInitiator => OtherPast(w, s, c, conn, m);
    case FailResponder => OtherPast(w, s, c, conn, m);
    case SpeakAsInitiator(_) => OtherPast(w, s, c, conn, m);
    case SpeakAsResponder(_) => OtherPast(w, s, c, conn, m);
    case _ => ClosingPast(w, s, c, conn, m);
  }

  /** Time goes on and more records are registered; what was done stays done. */
  lemma PastFrame(w: World, now: u64, later: u64, l: Ledger, m: Ledger, conn: Conn)
    requires PastOk(w, now, l, conn) && now <= later && l.registered.Keys <= m.registered.Keys
    ensures PastOk(w, later, m, conn)
  {
    hide HelloVerify, AckVerify, ProofVerify, RecordVerify, ProofPath, Earliest;
  }

  lemma MoveRegisters(w: World, s: State, c: ConnId, conn: Conn, m: Move)
    requires MoveEffect(w, s, c, conn, m).Done?
    ensures MoveEffect(w, s, c, conn, m).ledger.registered == s.ledger.registered
  {
    hide SignHello, SignAck, SignProof, HelloVerify, AckVerify, ProofVerify, RecordVerify, Newest, HelloExpiry,
      ConsentExpiry, ProofPath, HonestEndpoint, MessageShowable, SessionId;
  }

  lemma ActKeeps(w: World, s: State, c: ConnId, m: Move)
    requires Inv(w, s) && c in s.conns
    requires MoveEffect(w, s, c, s.conns[c], m).Done?
    ensures var e := MoveEffect(w, s, c, s.conns[c], m);
            Inv(w, s.(conns := s.conns[c := e.conn], ledger := e.ledger))
  {
    hide ConnOk, MadeBy, MoveEffect, Keeps, Showable, PastOk, RegisteredOk;
    AnyMoveOk(w, s, c, m);
    MovePast(w, s, c, s.conns[c], m);
    MoveRegisters(w, s, c, s.conns[c], m);
    var e := MoveEffect(w, s, c, s.conns[c], m);
    var t := s.(conns := s.conns[c := e.conn], ledger := e.ledger);
    RegisteredFrame(w, s, t);
    forall d | d in t.conns ensures ConnOk(w, t.ledger, d, t.conns[d]) {
      if d != c { ConnFrame(w, s.ledger, t.ledger, d, s.conns[d]); }
    }
    forall d | d in t.conns ensures PastOk(w, t.clock, t.ledger, t.conns[d]) {
      if d != c { PastFrame(w, s.clock, s.clock, s.ledger, t.ledger, s.conns[d]); }
    }
    forall g | g in t.ledger.signatures
      ensures t.ledger.signatures[g] in t.conns && MadeBy(w, t.conns[t.ledger.signatures[g]], g)
    {
      if g in s.ledger.signatures && t.ledger.signatures[g] == s.ledger.signatures[g] && t.ledger.signatures[g] == c {
        MadeFrame(w, s.conns[c], e.conn, g);
      }
    }
    forall slot | slot in t.ledger.storage ensures Showable(w, t.ledger, t.ledger.storage[slot].signature) {
      if slot in s.ledger.storage && t.ledger.storage[slot] == s.ledger.storage[slot] {
        ShowableFrame(w, s.ledger, t.ledger, s.ledger.storage[slot].signature);
      }
    }
  }

  lemma RegisteredFrame(w: World, s: State, t: State)
    requires RegisteredOk(w, s) && s.ledger.registered == t.ledger.registered && s.clock <= t.clock
    ensures RegisteredOk(w, t)
  {
    hide RecordVerify;
    forall g | g in t.ledger.registered ensures RegistrationOk(w, t.clock, t.ledger, g) {
      assert RegistrationOk(w, s.clock, s.ledger, g);
    }
  }

  lemma StorageChangeKeeps(w: World, s: State, storage: map<Slot, Proof>)
    requires Inv(w, s)
    requires forall slot | slot in storage ::
               (slot in s.ledger.storage && storage[slot] == s.ledger.storage[slot])
               || Showable(w, s.ledger, storage[slot].signature)
    ensures Inv(w, s.(ledger := s.ledger.(storage := storage)))
  {
    hide ConnOk, MadeBy, Showable, PastOk, RegisteredOk;
    var t := s.(ledger := s.ledger.(storage := storage));
    RegisteredFrame(w, s, t);
    forall d | d in t.conns ensures ConnOk(w, t.ledger, d, t.conns[d]) {
      ConnFrame(w, s.ledger, t.ledger, d, s.conns[d]);
    }
    forall d | d in t.conns ensures PastOk(w, t.clock, t.ledger, t.conns[d]) {
      PastFrame(w, s.clock, s.clock, s.ledger, t.ledger, s.conns[d]);
    }
    forall slot | slot in storage ensures Showable(w, t.ledger, storage[slot].signature) {
      ShowableFrame(w, s.ledger, t.ledger, storage[slot].signature);
    }
  }

  lemma ConnectKeeps(w: World, s: State, c: ConnId, initiatorEnd: string, responderEnd: string)
    requires Inv(w, s) && c !in s.conns
    ensures Inv(w, s.(conns := s.conns[c := Conn(initiatorEnd, responderEnd, [], [], false, false, None, None)]))
  {
    hide MadeBy, InitiatorOk, ResponderOk, MessageShowable, InitiatorPast, ResponderPast, RegisteredOk;
    var conn := Conn(initiatorEnd, responderEnd, [], [], false, false, None, None);
    RegisteredFrame(w, s, s.(conns := s.conns[c := conn]));
    assert ConnOk(w, s.ledger, c, conn);
  }

  lemma RegisterKeeps(w: World, s: State, e: Event)
    requires Inv(w, s) && e.Register? && Apply(w, s, e).Some?
    ensures Inv(w, Apply(w, s, e).value)
  {
    hide ConnOk, MadeBy, RecordVerify, Showable, PastOk, OwnRecord;
    var t := Apply(w, s, e).value;
    forall g | g in t.ledger.registered ensures RegistrationOk(w, t.clock, t.ledger, g) {
      if g in s.ledger.registered { assert RegistrationOk(w, s.clock, s.ledger, g); }
    }
    forall d | d in t.conns ensures ConnOk(w, t.ledger, d, t.conns[d]) && PastOk(w, t.clock, t.ledger, t.conns[d]) {
      ConnFrame(w, s.ledger, t.ledger, d, s.conns[d]);
      PastFrame(w, s.clock, s.clock, s.ledger, t.ledger, s.conns[d]);
    }
    forall slot | slot in t.ledger.storage ensures Showable(w, t.ledger, t.ledger.storage[slot].signature) {
      ShowableFrame(w, s.ledger, t.ledger, s.ledger.storage[slot].signature);
    }
  }

  /** Every event keeps the invariant. */
  lemma ApplyKeeps(w: World, s: State, e: Event)
    requires Inv(w, s)
    requires Apply(w, s, e).Some?
    ensures Inv(w, Apply(w, s, e).value)
  {
    hide ConnOk, MadeBy, MoveEffect, RecordVerify, Showable, PastOk, RegisteredOk;
    match e
    case Tick(now) =>
      RegisteredFrame(w, s, s.(clock := now));
      forall c | c in s.conns ensures PastOk(w, now, s.ledger, s.conns[c]) {
        PastFrame(w, s.clock, now, s.ledger, s.ledger, s.conns[c]);
      }
    case Register(_, _, _) => RegisterKeeps(w, s, e);
    case Connect(c, initiatorEnd, responderEnd) => ConnectKeeps(w, s, c, initiatorEnd, responderEnd);
    case Act(c, m) => ActKeeps(w, s, c, m);
    case Overwrite(slot, proof) => StorageChangeKeeps(w, s, s.ledger.storage[slot := proof]);
    case Erase(slot) => StorageChangeKeeps(w, s, s.ledger.storage - {slot});
  }

  /** The invariant holds after every run. */
  lemma {:induction false} RunKeeps(w: World, clock: u64, events: seq<Event>)
    requires Execute(w, Start(clock), events).Some?
    ensures Inv(w, Execute(w, Start(clock), events).value)
    decreases |events|
  {
    hide ConnOk, Apply, PastOk, RegistrationOk;
    if events != [] {
      RunKeeps(w, clock, events[..|events| - 1]);
      ApplyKeeps(w, Execute(w, Start(clock), events[..|events| - 1]).value, events[|events| - 1]);
    }
  }

  // ---------------------------------------------------------------- failure is final

  lemma FailedMove(w: World, s: State, c: ConnId, conn: Conn, m: Move)
    requires MoveEffect(w, s, c, conn, m).Done?
    ensures var e := MoveEffect(w, s, c, conn, m).conn;
            && (conn.initiator.Some? && conn.initiator.value.failed ==> e.initiator == conn.initiator)
            && (conn.responder.Some? && conn.responder.value.failed ==> e.responder == conn.responder)
  {
    hide SignHello, SignAck, SignProof, HelloVerify, AckVerify, ProofVerify, RecordVerify, Newest, HelloExpiry,
      ConsentExpiry, ProofPath, HonestEndpoint, MessageShowable, SessionId, ProofControlValid;
  }

  /** A session that failed does nothing more: whatever happens afterwards, it sends nothing and returns no peer. */
  lemma {:induction false} FailedIsFinal(w: World, s: State, events: seq<Event>, c: ConnId)
    requires c in s.conns && Execute(w, s, events).Some?
    ensures var t := Execute(w, s, events).value;
            && c in t.conns
            && (s.conns[c].initiator.Some? && s.conns[c].initiator.value.failed ==>
                  t.conns[c].initiator == s.conns[c].initiator)
            && (s.conns[c].responder.Some? && s.conns[c].responder.value.failed ==>
                  t.conns[c].responder == s.conns[c].responder)
    decreases |events|
  {
    hide MoveEffect, RecordVerify, Showable;
    if events != [] {
      var init, last := events[..|events| - 1], events[|events| - 1];
      FailedIsFinal(w, s, init, c);
      var u := Execute(w, s, init).value;
      if last.Act? && last.conn == c { FailedMove(w, u, c, u.conns[c], last.move); }
    }
  }

  // ---------------------------------------------------------------- what the adversary can do

  /**
    The adversary signs anything with a key it holds or that is no device's, replays anything a device signed,
    speaks as any endpoint whose key it holds or that is no device's, and puts what it can show anywhere in storage.
  */
  lemma AdversaryCan(w: World, s: State, g: Signature, c: ConnId, m: Message, slot: Slot, q: Proof)
    ensures g.Signed? && (g.key in w.compromised || forall d | d in w.devices :: Control(w, d) != g.key) ==>
              Showable(w, s.ledger, g)
    ensures g in s.ledger.signatures ==> Showable(w, s.ledger, g)
    ensures (&& c in s.conns && MessageShowable(w, s.ledger, m)
             && (|| s.conns[c].initiatorEnd in w.compromised
                 || forall d | d in w.devices :: Endpoint(w, d) != s.conns[c].initiatorEnd)) ==>
              Apply(w, s, Act(c, SpeakAsInitiator(m))).Some?
    ensures (&& c in s.conns && MessageShowable(w, s.ledger, m)
             && (|| s.conns[c].responderEnd in w.compromised
                 || forall d | d in w.devices :: Endpoint(w, d) != s.conns[c].responderEnd)) ==>
              Apply(w, s, Act(c, SpeakAsResponder(m))).Some?
    ensures Apply(w, s, Act(c, SpeakAsInitiator(m))).Some? ==>
              Apply(w, s, Act(c, SpeakAsInitiator(m))).value.conns[c].toResponder == s.conns[c].toResponder + [m]
    ensures Apply(w, s, Act(c, SpeakAsResponder(m))).Some? ==>
              Apply(w, s, Act(c, SpeakAsResponder(m))).value.conns[c].toInitiator == s.conns[c].toInitiator + [m]
    ensures Showable(w, s.ledger, q.signature) ==>
              && Apply(w, s, Overwrite(slot, q)).Some?
              && Apply(w, s, Overwrite(slot, q)).value.ledger.storage == s.ledger.storage[slot := q]
    ensures Apply(w, s, Erase(slot)).Some?
    ensures Apply(w, s, Erase(slot)).value.ledger.storage == s.ledger.storage - {slot}
  {
    hide MessageShowable;
  }

  // ---------------------------------------------------------------- agreement

  /** What each side saw, it verified. */
  lemma PastSaw(w: World, s: State, c: ConnId)
    requires Inv(w, s) && c in s.conns
    ensures s.conns[c].initiator.Some? && s.conns[c].initiator.value.seen.Some? ==>
              var i := s.conns[c].initiator.value;
              && i.device in w.devices && i.exchange.Some?
              && Verified(w, i.device, s.clock, i.seen.value, i.target, i.sender, i.hello, Responder, Taken(i))
    ensures s.conns[c].responder.Some? && s.conns[c].responder.value.seen.Some? ==>
              var r := s.conns[c].responder.value;
              && r.device in w.devices && r.exchange.Some?
              && Verified(w, r.device, s.clock, r.seen.value, r.sender, r.target, r.hello, Initiator, Drawn(r))
  {
    hide ConnOk, SignaturesOk, StorageOk, HelloVerify, AckVerify, ProofVerify, RecordVerify, ProofPath, Earliest,
      Verified;
    assert PastOk(w, s.clock, s.ledger, s.conns[c]);
  }

  /** One handshake seen from both ends: same Hello, same challenge, same two records. */
  predicate SameHandshake(i: InitiatorSession, r: ResponderSession) {
    && i.exchange.Some?
    && r.exchange.Some?
    && r.hello == i.hello
    && Drawn(r) == Taken(i)
    && r.sender == i.sender
    && r.target == i.target
  }

  /** Two connections never share a Hello or a drawn challenge. */
  lemma NoncesTellConnectionsApart(w: World, s: State, c: ConnId, d: ConnId)
    requires Inv(w, s) && c in s.conns && d in s.conns
    ensures (&& s.conns[c].initiator.Some? && s.conns[d].initiator.Some?
             && s.conns[c].initiator.value.hello == s.conns[d].initiator.value.hello) ==> c == d
    ensures (&& s.conns[c].responder.Some? && s.conns[d].responder.Some?
             && s.conns[c].responder.value.exchange.Some? && s.conns[d].responder.value.exchange.Some?
             && Drawn(s.conns[c].responder.value) == Drawn(s.conns[d].responder.value)) ==> c == d
  {
    hide MadeBy, ProofFor, AckFor, HelloFor, PeerFrom, Showable, ChannelsOk, MessagesShowable, PastOk;
    assert ConnOk(w, s.ledger, c, s.conns[c]) && ConnOk(w, s.ledger, d, s.conns[d]);
  }

  /**
    Consent, from the control key alone. Once the initiator has accepted an Ack for a target
    whose control key is honest, exactly one responder session of that very device consented
    to that very Hello and drew that very challenge.
  */
  lemma ConsentAgreement(w: World, s: State, c: ConnId) returns (d: ConnId)
    requires Inv(w, s) && c in s.conns
    requires s.conns[c].initiator.Some? && s.conns[c].initiator.value.exchange.Some?
    requires HonestControl(w, s.conns[c].initiator.value.target.certificate.claims.controlKey)
    ensures d in s.conns && s.conns[d].responder.Some?
    ensures SameHandshake(s.conns[c].initiator.value, s.conns[d].responder.value)
    ensures s.conns[d].responder.value.device in w.devices
    ensures OwnRecord(w.devices[s.conns[d].responder.value.device].credential, s.conns[c].initiator.value.target)
    ensures forall e | e in s.conns && s.conns[e].responder.Some? && s.conns[e].responder.value.exchange.Some?
              && Drawn(s.conns[e].responder.value) == Taken(s.conns[c].initiator.value) :: e == d
  {
    hide ProofFor, PeerFrom, ChannelsOk, PastOk;
    var i := s.conns[c].initiator.value;
    var ack := i.exchange.value.ack;
    assert ConnOk(w, s.ledger, c, s.conns[c]);
    assert MessageShowable(w, s.ledger, s.conns[c].toInitiator[0]);
    d := s.ledger.signatures[ack.signature];
    assert MadeBy(w, s.conns[d], ack.signature);
    assert ConnOk(w, s.ledger, d, s.conns[d]);
    forall e | e in s.conns && s.conns[e].responder.Some? && s.conns[e].responder.value.exchange.Some?
               && Drawn(s.conns[e].responder.value) == Taken(i)
      ensures e == d
    {
      NoncesTellConnectionsApart(w, s, d, e);
    }
  }

  /**
    Full agreement for the initiator, once it has read the confirmation from an honest endpoint:
    on the same connection, the target's device consented to this Hello, verified the initiator's
    proof for this challenge and committed the initiator's record.
  */
  lemma InitiatorAgreement(w: World, s: State, c: ConnId)
    requires Inv(w, s) && c in s.conns
    requires s.conns[c].initiator.Some? && s.conns[c].initiator.value.stage >= CONFIRMATION_READ
    requires HonestEndpoint(w, s.conns[c].responderEnd)
    ensures s.conns[c].responder.Some?
    ensures var i, r := s.conns[c].initiator.value, s.conns[c].responder.value;
            && r.device in w.devices
            && SameHandshake(i, r)
            && OwnRecord(w.devices[r.device].credential, i.target)
            && r.stage >= CONFIRMATION_SENT
            && r.seen.Some?
            && Verified(w, r.device, s.clock, r.seen.value, i.sender, i.target, i.hello, Initiator, Taken(i))
            && r.committedAt.Some?
            && Commit(r.device, i.sender, r.committedAt.value) in s.ledger.commits
            && i.device in w.devices
            && i.seen.Some?
            && Verified(w, i.device, s.clock, i.seen.value, i.target, i.sender, i.hello, Responder, Taken(i))
  {
    hide MadeBy, ProofFor, PeerFrom, Showable, MessagesShowable, Verified, PastOk;
    PastSaw(w, s, c);
    assert ConnOk(w, s.ledger, c, s.conns[c]);
    assert !s.conns[c].responderHostile;
    assert |SentByResponder(s.conns[c])| >= 2;
  }

  /** The peers the two ends return carry one session id and name each other's certificate. */
  lemma PeersName(w: World, s: State, c: ConnId)
    requires Inv(w, s) && c in s.conns
    requires s.conns[c].initiator.Some? && s.conns[c].initiator.value.peer.Some?
    requires s.conns[c].responder.Some? && s.conns[c].responder.value.peer.Some?
    requires HonestEndpoint(w, s.conns[c].responderEnd)
    ensures var i, r := s.conns[c].initiator.value, s.conns[c].responder.value;
            && i.device in w.devices && r.device in w.devices
            && i.peer.value.session == r.peer.value.session
            && SessionId(i.hello.claims.sessionNonce) == Some(i.peer.value.session)
            && i.peer.value.identity == Identity(w, r.device)
            && i.peer.value.deviceId == w.devices[r.device].credential.certificate.claims.deviceId
            && r.peer.value.identity == Identity(w, i.device)
            && r.peer.value.deviceId == w.devices[i.device].credential.certificate.claims.deviceId
            && i.committedAt.Some? && r.committedAt.Some?
            && Commit(i.device, r.target, i.committedAt.value) in s.ledger.commits
            && Commit(r.device, i.sender, r.committedAt.value) in s.ledger.commits
  {
    hide MadeBy, ProofFor, AckFor, Showable, MessagesShowable, ChannelsOk, PastOk, Verified;
    assert ConnOk(w, s.ledger, c, s.conns[c]);
    InitiatorAgreement(w, s, c);
  }

  /**
    Agreement for the responder, from the control key alone: whoever it verified ran an initiator
    session for this Hello, accepted this challenge and published its proof. If the endpoint key is
    honest too, that session is the other end of this very connection.
  */
  lemma ResponderAgreement(w: World, s: State, c: ConnId) returns (d: ConnId)
    requires Inv(w, s) && c in s.conns
    requires s.conns[c].responder.Some? && s.conns[c].responder.value.stage >= PROOF_VERIFIED
    requires HonestControl(w, s.conns[c].responder.value.sender.certificate.claims.controlKey)
    ensures d in s.conns && s.conns[d].initiator.Some?
    ensures SameHandshake(s.conns[d].initiator.value, s.conns[c].responder.value)
    ensures s.conns[d].initiator.value.device in w.devices
    ensures OwnRecord(w.devices[s.conns[d].initiator.value.device].credential, s.conns[c].responder.value.sender)
    ensures HonestEndpoint(w, s.conns[c].initiatorEnd) ==> d == c
    ensures var r := s.conns[c].responder.value;
            && r.device in w.devices
            && r.seen.Some?
            && r.exchange.Some?
            && Verified(w, r.device, s.clock, r.seen.value, r.sender, r.target, r.hello, Initiator, Drawn(r))
            && (r.stage >= SENDER_COMMITTED ==>
                  && r.committedAt.Some?
                  && Commit(r.device, s.conns[d].initiator.value.sender, r.committedAt.value) in s.ledger.commits)
  {
    hide PeerFrom, MessagesShowable, AckFor, Verified, PastOk;
    PastSaw(w, s, c);
    var r := s.conns[c].responder.value;
    var q := r.seen.value.proof;
    assert ConnOk(w, s.ledger, c, s.conns[c]);
    d := s.ledger.signatures[q.signature];
    assert MadeBy(w, s.conns[d], q.signature);
    assert ConnOk(w, s.ledger, d, s.conns[d]);
    if HonestEndpoint(w, s.conns[c].initiatorEnd) {
      assert s.conns[c].initiator.Some? && s.conns[c].initiator.value.hello == r.hello;
      NoncesTellConnectionsApart(w, s, c, d);
    }
  }

  /**
    What an initiator that has returned a peer did itself, whoever the peer is: it verified the responder's
    proof for the challenge of the Ack, committed the target's record, and the peer names that record.
  */
  predicate InitiatorDid(w: World, s: State, i: InitiatorSession) {
    i.peer.Some? ==>
      && i.device in w.devices
      && i.exchange.Some?
      && i.seen.Some?
      && Verified(w, i.device, s.clock, i.seen.value, i.target, i.sender, i.hello, Responder, Taken(i))
      && i.committedAt.Some?
      && Commit(i.device, i.target, i.committedAt.value) in s.ledger.commits
      && SessionId(i.hello.claims.sessionNonce) == Some(i.peer.value.session)
      && i.peer.value.identity == i.target.certificate.claims.identity
      && i.peer.value.deviceId == i.target.certificate.claims.deviceId
  }

  /** Likewise for a responder: it verified the initiator's proof for its own challenge and committed that record. */
  predicate ResponderDid(w: World, s: State, r: ResponderSession) {
    r.peer.Some? ==>
      && r.device in w.devices
      && r.exchange.Some?
      && r.seen.Some?
      && Verified(w, r.device, s.clock, r.seen.value, r.sender, r.target, r.hello, Initiator, Drawn(r))
      && r.committedAt.Some?
      && Commit(r.device, r.sender, r.committedAt.value) in s.ledger.commits
      && SessionId(r.hello.claims.sessionNonce) == Some(r.peer.value.session)
      && r.peer.value.identity == r.sender.certificate.claims.identity
      && r.peer.value.deviceId == r.sender.certificate.claims.deviceId
  }

  /** What the far side of a returned initiator did, if the far endpoint's key is honest. */
  predicate InitiatorGuarantee(w: World, s: State, conn: Conn) {
    (conn.initiator.Some? && conn.initiator.value.peer.Some? && HonestEndpoint(w, conn.responderEnd)) ==>
      && conn.responder.Some?
      && var i, r := conn.initiator.value, conn.responder.value;
         && SameHandshake(i, r)
         && r.stage >= CONFIRMATION_SENT
         && r.device in w.devices
         && r.seen.Some?
         && Verified(w, r.device, s.clock, r.seen.value, i.sender, i.target, i.hello, Initiator, Taken(i))
         && r.committedAt.Some?
         && Commit(r.device, i.sender, r.committedAt.value) in s.ledger.commits
         && i.peer.value.identity == Identity(w, r.device)
         && i.peer.value.deviceId == w.devices[r.device].credential.certificate.claims.deviceId
  }

  /** What the far side of a returned responder did, if the sender's two keys are honest. */
  predicate ResponderGuarantee(w: World, s: State, conn: Conn) {
    (&& conn.responder.Some? && conn.responder.value.peer.Some?
     && HonestEndpoint(w, conn.initiatorEnd)
     && HonestControl(w, conn.responder.value.sender.certificate.claims.controlKey)) ==>
      && conn.initiator.Some?
      && var i, r := conn.initiator.value, conn.responder.value;
         && SameHandshake(i, r)
         && i.device in w.devices
         && r.peer.value.identity == Identity(w, i.device)
         && r.peer.value.deviceId == w.devices[i.device].credential.certificate.claims.deviceId
         && (i.peer.Some? ==> i.peer.value.session == r.peer.value.session)
  }

  ghost predicate AllGuarantees(w: World, s: State, conn: Conn) {
    && PastOk(w, s.clock, s.ledger, conn)
    && (conn.initiator.Some? ==> InitiatorDid(w, s, conn.initiator.value))
    && (conn.responder.Some? ==> ResponderDid(w, s, conn.responder.value))
    && InitiatorGuarantee(w, s, conn)
    && ResponderGuarantee(w, s, conn)
  }

  /** Agreement over every run: any events, any number of devices, connections and corrupted keys. */
  lemma EveryRunAgrees(w: World, clock: u64, events: seq<Event>, s: State)
    requires Execute(w, Start(clock), events) == Some(s)
    ensures forall c | c in s.conns :: AllGuarantees(w, s, s.conns[c])
  {
    hide AllGuarantees, Execute, Inv, PastOk;
    RunKeeps(w, clock, events);
    forall c | c in s.conns ensures AllGuarantees(w, s, s.conns[c]) {
      PastHolds(w, s, c);
      OwnDeeds(w, s, c);
      InitiatorGuaranteed(w, s, c);
      ResponderGuaranteed(w, s, c);
      Gather(w, s, s.conns[c]);
    }
  }

  lemma Gather(w: World, s: State, conn: Conn)
    requires PastOk(w, s.clock, s.ledger, conn)
    requires conn.initiator.Some? ==> InitiatorDid(w, s, conn.initiator.value)
    requires conn.responder.Some? ==> ResponderDid(w, s, conn.responder.value)
    requires InitiatorGuarantee(w, s, conn) && ResponderGuarantee(w, s, conn)
    ensures AllGuarantees(w, s, conn)
  {
    hide InitiatorDid, ResponderDid, InitiatorGuarantee, ResponderGuarantee, PastOk;
  }

  lemma PastHolds(w: World, s: State, c: ConnId)
    requires Inv(w, s) && c in s.conns
    ensures PastOk(w, s.clock, s.ledger, s.conns[c])
  {
    hide ConnOk, SignaturesOk, StorageOk, PastOk;
  }

  lemma OwnDeeds(w: World, s: State, c: ConnId)
    requires Inv(w, s) && c in s.conns
    ensures s.conns[c].initiator.Some? ==> InitiatorDid(w, s, s.conns[c].initiator.value)
    ensures s.conns[c].responder.Some? ==> ResponderDid(w, s, s.conns[c].responder.value)
  {
    hide ProofFor, AckFor, MadeBy, Showable, ChannelsOk, MessagesShowable, Verified, PastOk;
    assert ConnOk(w, s.ledger, c, s.conns[c]);
    PastSaw(w, s, c);
  }

  lemma InitiatorGuaranteed(w: World, s: State, c: ConnId)
    requires Inv(w, s) && c in s.conns
    ensures InitiatorGuarantee(w, s, s.conns[c])
  {
    hide ProofFor, AckFor, MadeBy, Showable, ChannelsOk, MessagesShowable, Verified, PastOk;
    var conn := s.conns[c];
    if conn.initiator.Some? && conn.initiator.value.peer.Some? && HonestEndpoint(w, conn.responderEnd) {
      assert ConnOk(w, s.ledger, c, conn);
      InitiatorAgreement(w, s, c);
    }
  }

  lemma ResponderGuaranteed(w: World, s: State, c: ConnId)
    requires Inv(w, s) && c in s.conns
    ensures ResponderGuarantee(w, s, s.conns[c])
  {
    hide ProofFor, AckFor, MadeBy, Showable, ChannelsOk, MessagesShowable, Verified, PastOk;
    var conn := s.conns[c];
    if && conn.responder.Some? && conn.responder.value.peer.Some?
       && HonestEndpoint(w, conn.initiatorEnd)
       && HonestControl(w, conn.responder.value.sender.certificate.claims.controlKey) {
      assert ConnOk(w, s.ledger, c, conn);
      var d := ResponderAgreement(w, s, c);
    }
  }

  /**
    Over every run an invitation goes out only with a record the device answers for, has registered and that is still
    alive, of which it has none newer; to a target that verifies; on a connection between the two endpoints that
    nobody has used; and with a nonce nobody has drawn.
  */
  lemma EveryInvitationIsNewest(w: World, clock: u64, events: seq<Event>, s: State, c: ConnId, m: Move)
    requires Execute(w, Start(clock), events) == Some(s) && m.DoSendHello? && Apply(w, s, Act(c, m)).Some?
    ensures var own := ActiveRecords(s, m.device);
            && m.device in w.devices
            && m.sender in own && Registration(m.device, m.sender) in s.ledger.registered
            && s.clock < m.sender.locator.claims.exp
            && (forall q | q in own && s.clock < q.locator.claims.exp ::
                  q.locator.claims.sequence <= m.sender.locator.claims.sequence)
            && RecordVerify(m.target, m.target.certificate.claims.identity, s.clock, w.devices[m.device].policy, None)
            && s.conns[c].initiator.None?
            && s.conns[c].initiatorEnd == m.sender.certificate.claims.irohId
            && s.conns[c].responderEnd == m.target.certificate.claims.irohId
            && m.nonce !in s.ledger.nonces.Keys
  {
    hide Execute, ConnOk, PastOk, SignaturesOk, StorageOk, SignHello, RecordVerify, HelloExpiry;
    RunKeeps(w, clock, events);
    var spec := w.devices[m.device];
    SignHelloGives(spec.credential, m.sender, m.target, m.application, m.nonce, s.clock,
                   HelloExpiry(s.clock, m.sender, m.target), spec.policy);
  }

  /** Over every run, what a device registered is its own record and verified when it was registered. */
  lemma EveryRegistrationIsOwn(w: World, clock: u64, events: seq<Event>, s: State, d: Device, r: Record)
    requires Execute(w, Start(clock), events) == Some(s) && Registration(d, r) in s.ledger.registered
    ensures RegistrationOk(w, s.clock, s.ledger, Registration(d, r))
  {
    hide Execute, ConnOk, PastOk, SignaturesOk, StorageOk, RegistrationOk;
    RunKeeps(w, clock, events);
  }

  /**
    Currentness: each side that returned a peer held, at some moment of the run, a proof from the other side
    that was in force at that moment, at most thirty seconds long, with all windows of both parties around it.
  */
  lemma EveryPeerWasCurrent(w: World, clock: u64, events: seq<Event>, s: State, c: ConnId)
    requires Execute(w, Start(clock), events) == Some(s) && c in s.conns
    ensures var conn := s.conns[c];
            && (conn.initiator.Some? && conn.initiator.value.peer.Some? ==>
                  var i := conn.initiator.value;
                  && i.seen.Some? && i.seen.value.at <= s.clock
                  && InForce(i.seen.value, i.hello, i.target, i.sender))
            && (conn.responder.Some? && conn.responder.value.peer.Some? ==>
                  var r := conn.responder.value;
                  && r.seen.Some? && r.seen.value.at <= s.clock
                  && InForce(r.seen.value, r.hello, r.sender, r.target))
  {
    hide Execute, Inv, ProofVerify, SessionId, InForce;
    RunKeeps(w, clock, events);
    OwnDeeds(w, s, c);
    var conn := s.conns[c];
    if conn.initiator.Some? && conn.initiator.value.peer.Some? {
      var i := conn.initiator.value;
      VerifiedInForce(i.seen.value, i.target, i.sender, i.hello, Responder, Taken(i), w.devices[i.device].policy);
    }
    if conn.responder.Some? && conn.responder.value.peer.Some? {
      var r := conn.responder.value;
      VerifiedInForce(r.seen.value, r.sender, r.target, r.hello, Initiator, Drawn(r), w.devices[r.device].policy);
    }
  }

  /** Issued before and expiring at most thirty seconds after it was seen, inside the windows of both parties. */
  predicate InForce(seen: Seen, hello: Hello, own: Record, peer: Record) {
    && own.authorization.Grant? && peer.authorization.Grant?
    && seen.proof.claims.iat <= seen.at < seen.proof.claims.exp <= seen.at + MAX_CURRENTNESS_LIFETIME
    && Nested(seen.proof.claims, hello.claims, own, seen.at)
    && Nested(seen.proof.claims, hello.claims, peer, seen.at)
  }

  lemma VerifiedInForce(
    seen: Seen, own: Record, peer: Record, hello: Hello, role: Role, challenge: Base64Text, p: Policy)
    requires ProofVerify(seen.proof, own, peer, hello, role, challenge, seen.at, p)
    ensures InForce(seen, hello, own, peer)
  {
    hide ProofVerify;
    WindowsNest(seen.proof, own, peer, hello, role, challenge, seen.at, p);
  }

  /** Agreement is injective: two responder sessions never verified the same initiator session. */
  lemma ResponderAgreementInjective(w: World, s: State, c: ConnId, c': ConnId) returns (d: ConnId, d': ConnId)
    requires Inv(w, s) && c in s.conns && c' in s.conns && c != c'
    requires s.conns[c].responder.Some? && s.conns[c].responder.value.stage >= PROOF_VERIFIED
    requires s.conns[c'].responder.Some? && s.conns[c'].responder.value.stage >= PROOF_VERIFIED
    requires HonestControl(w, s.conns[c].responder.value.sender.certificate.claims.controlKey)
    requires HonestControl(w, s.conns[c'].responder.value.sender.certificate.claims.controlKey)
    ensures d in s.conns && d' in s.conns && d != d'
    ensures s.conns[d].initiator.Some? && SameHandshake(s.conns[d].initiator.value, s.conns[c].responder.value)
    ensures s.conns[d'].initiator.Some? && SameHandshake(s.conns[d'].initiator.value, s.conns[c'].responder.value)
  {
    hide Inv;
    d := ResponderAgreement(w, s, c);
    d' := ResponderAgreement(w, s, c');
    NoncesTellConnectionsApart(w, s, c, c');
  }
}
