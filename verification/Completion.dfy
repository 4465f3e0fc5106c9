/** The handshake can be completed: whenever the signers sign, the honest run returns a peer on both sides. */
module Completion {
  import opened Base
  import opened Wire
  import opened WireTheorems
  import opened Handshake

  /** Two devices with one policy, their records, and what they sign for each other at `now`. */
  datatype Meeting = Meeting(
    a: Device, b: Device, sender: Record, target: Record, application: string, nonce: Base64Text,
    challenge: Base64Text, now: u64, hello: Hello, ack: Ack, initiatorProof: Proof, responderProof: Proof)

  /** All four signatures are made, under one policy, by the devices the records belong to. */
  ghost predicate Signs(w: World, m: Meeting) {
    && m.a in w.devices && m.b in w.devices
    && w.devices[m.a].policy == w.devices[m.b].policy
    && m.application in w.devices[m.b].accepted
    && var A, B, p := w.devices[m.a].credential, w.devices[m.b].credential, w.devices[m.a].policy;
       && OwnRecord(A, m.sender) && OwnRecord(B, m.target)
       && SignHello(A, m.sender, m.target, m.application, m.nonce, m.now,
                    HelloExpiry(m.now, m.sender, m.target), p) == Some(m.hello)
       && var expiry := ConsentExpiry(m.now, m.hello);
          && SignAck(B, m.hello, m.sender, m.target, m.challenge, m.now, expiry, p) == Some(m.ack)
          && SignProof(B, m.target, m.sender, m.hello, Responder, m.challenge, m.now, expiry, p)
             == Some(m.responderProof)
          && SignProof(A, m.sender, m.target, m.hello, Initiator, m.challenge, m.now, expiry, p)
             == Some(m.initiatorProof)
  }

  /** What the steps of the run look at. */
  ghost predicate Verifies(w: World, m: Meeting) {
    && m.a in w.devices && m.b in w.devices
    && w.devices[m.a].policy == w.devices[m.b].policy
    && m.application in w.devices[m.b].accepted
    && m.hello.claims.application == m.application
    && m.hello.claims.fromRecord == m.sender
    && m.hello.claims.sessionNonce == m.nonce
    && m.hello.claims.fromIdentity == m.sender.certificate.claims.identity
    && m.hello.claims.targetDigest == RecordDigest(m.target)
    && SessionId(m.nonce).Some?
    && m.nonce != m.challenge
    && m.a != m.b
    && OwnRecord(w.devices[m.a].credential, m.sender) && OwnRecord(w.devices[m.b].credential, m.target)
    && m.ack.claims.responderNonce == m.challenge
    && m.ack.claims.iat == m.now && m.ack.claims.exp == ConsentExpiry(m.now, m.hello)
    && m.now < HelloExpiry(m.now, m.sender, m.target)
    && m.now < ConsentExpiry(m.now, m.hello)
    && m.now < m.sender.locator.claims.exp && m.now < m.target.locator.claims.exp
    && ProofPath(m.initiatorProof) == DerivedPath(Initiator, m.challenge, m.hello, m.sender)
    && ProofPath(m.responderProof) == DerivedPath(Responder, m.challenge, m.hello, m.target)
    && Identity(w, m.a) == m.sender.certificate.claims.identity
    && Identity(w, m.b) == m.target.certificate.claims.identity
    && Endpoint(w, m.a) == m.sender.certificate.claims.irohId
    && Endpoint(w, m.b) == m.target.certificate.claims.irohId
    && var p := w.devices[m.a].policy;
       && RecordVerify(m.sender, m.sender.certificate.claims.identity, m.now, p, None)
       && RecordVerify(m.target, m.target.certificate.claims.identity, m.now, p, None)
       && HelloVerify(m.hello, m.sender, m.target, m.application, m.now, p)
       && AckVerify(m.ack, m.target, m.sender, m.hello, m.application, m.now, p)
       && ProofVerify(m.responderProof, m.target, m.sender, m.hello, Responder, m.challenge, m.now, p)
       && ProofVerify(m.initiatorProof, m.sender, m.target, m.hello, Initiator, m.challenge, m.now, p)
  }

  /** What a signer returns, its peer verifies. */
  lemma SignsVerifies(w: World, m: Meeting)
    requires Signs(w, m)
    ensures Verifies(w, m)
  {
    hide SignHello, SignAck, SignProof, HelloVerify, AckVerify, ProofVerify, RecordVerify, SessionId;
    var A, B, p := w.devices[m.a].credential, w.devices[m.b].credential, w.devices[m.a].policy;
    var expiry := ConsentExpiry(m.now, m.hello);
    HelloSignExact(A, m.sender, m.target, m.application, m.nonce, m.now,
                   HelloExpiry(m.now, m.sender, m.target), p, m.hello);
    HelloGives(m.hello, m.sender, m.target, m.application, m.now, p);
    AckSignExact(B, m.hello, m.sender, m.target, m.challenge, m.now, expiry, p, m.ack);
    AckGives(m.ack, m.target, m.sender, m.hello, m.application, m.now, p);
    ProofSignExact(B, m.target, m.sender, m.hello, Responder, m.challenge, m.now, expiry, p, m.responderProof);
    ProofSignExact(A, m.sender, m.target, m.hello, Initiator, m.challenge, m.now, expiry, p, m.initiatorProof);
    VerifiedHelloHasSession(m.hello, m.sender, m.target, m.application, m.now, p);
    ProofPathIsDerived(m.responderProof, m.target, m.sender, m.hello, Responder, m.challenge, m.now, p);
    ProofPathIsDerived(m.initiatorProof, m.sender, m.target, m.hello, Initiator, m.challenge, m.now, p);
  }

  lemma HelloGives(h: Hello, sender: Record, target: Record, application: string, now: u64, p: Policy)
    requires HelloVerify(h, sender, target, application, now, p)
    ensures h.claims.application == application && h.claims.fromRecord == sender
    ensures h.claims.targetDigest == RecordDigest(target)
    ensures h.claims.fromIdentity == sender.certificate.claims.identity
    ensures sender.certificate.claims.controlKey != target.certificate.claims.controlKey
    ensures now < h.claims.exp
    ensures now < sender.locator.claims.exp && now < target.locator.claims.exp
    ensures RecordVerify(sender, sender.certificate.claims.identity, now, p, None)
    ensures RecordVerify(target, target.certificate.claims.identity, now, p, None)
  {
    hide RecordVerify;
  }

  lemma AckGives(
    k: Ack, responder: Record, initiator: Record, hello: Hello, application: string, now: u64, p: Policy)
    requires AckVerify(k, responder, initiator, hello, application, now, p)
    ensures now < k.claims.exp && k.claims.responderNonce != hello.claims.sessionNonce
  {
    hide HelloVerify;
  }

  // ---------------------------------------------------------------- the two sessions, stage by stage

  function InitiatorAt(m: Meeting, stage: int): InitiatorSession
    requires SessionId(m.nonce).Some?
  {
    InitiatorSession(
      m.a, m.sender, m.target, m.application, m.hello,
      if stage >= PROOF_PUBLISHED then Some(Exchange(m.ack, m.initiatorProof, m.now)) else None,
      if stage >= READY_SENT then Some(Seen(m.responderProof, m.now)) else None,
      if stage >= TARGET_COMMITTED then Some(m.now) else None, stage, false,
      if stage == INITIATOR_RETURNED
      then Some(Peer(SessionId(m.nonce).value, m.target.certificate.claims.identity,
                     m.target.certificate.claims.deviceId))
      else None)
  }

  function ResponderAt(m: Meeting, stage: int): ResponderSession
    requires SessionId(m.nonce).Some?
  {
    ResponderSession(
      m.b, m.sender, m.target, m.hello, m.now,
      if stage >= CONSENTED then Some(Exchange(m.ack, m.responderProof, m.now)) else None,
      if stage >= PROOF_VERIFIED then Some(Seen(m.initiatorProof, m.now)) else None,
      if stage >= SENDER_COMMITTED then Some(m.now) else None, stage, false,
      if stage == RESPONDER_RETURNED
      then Some(Peer(SessionId(m.nonce).value, m.sender.certificate.claims.identity,
                     m.sender.certificate.claims.deviceId))
      else None)
  }

  function Ready(m: Meeting): Message {
    ReadyMessage(VERSION, m.challenge, ProofPath(m.initiatorProof), ProofPath(m.responderProof))
  }

  function Confirmed(m: Meeting): Message {
    ConfirmedMessage(VERSION, m.challenge, ProofPath(m.initiatorProof), ProofPath(m.responderProof))
  }

  /** The connection once the initiator has sent its Hello and the responder has received it. */
  function ConnAt(w: World, m: Meeting, i: int, r: int): Conn
    requires m.a in w.devices && m.b in w.devices && SessionId(m.nonce).Some?
  {
    Conn(Endpoint(w, m.a), Endpoint(w, m.b),
         if i >= READY_SENT then [HelloMessage(m.hello), Ready(m)] else [HelloMessage(m.hello)],
         if r >= CONFIRMATION_SENT then [AckMessage(m.ack), Confirmed(m)]
         else if r >= ACK_SENT then [AckMessage(m.ack)] else [],
         false, false, Some(InitiatorAt(m, i)), Some(ResponderAt(m, r)))
  }

  /** Each proof is stored until its own side returns. */
  ghost predicate Stored(w: World, m: Meeting, l: Ledger, i: int, r: int)
    requires m.a in w.devices && m.b in w.devices
  {
    var home, away := Slot(Identity(w, m.a), ProofPath(m.initiatorProof)),
                      Slot(Identity(w, m.b), ProofPath(m.responderProof));
    && (PROOF_PUBLISHED <= i < INITIATOR_RETURNED ==> home in l.storage && l.storage[home] == m.initiatorProof)
    && (CONSENTED <= r < RESPONDER_RETURNED ==> away in l.storage && l.storage[away] == m.responderProof)
    && (r < CONSENTED ==> m.challenge !in l.nonces)
  }

  /** The move takes the two sessions to these stages. */
  ghost predicate Leads(w: World, m: Meeting, e: Effect, i: int, r: int)
    requires m.a in w.devices && m.b in w.devices && SessionId(m.nonce).Some?
  {
    e.Done? && e.conn == ConnAt(w, m, i, r) && Stored(w, m, e.ledger, i, r)
  }

  lemma Consents(w: World, m: Meeting, l: Ledger)
    requires Signs(w, m) && Verifies(w, m) && Stored(w, m, l, HELLO_SENT, AWAITING_CONSENT)
    ensures Leads(w, m, Consent(w, Local(m.now, {}), l, 0, ConnAt(w, m, HELLO_SENT, AWAITING_CONSENT), m.challenge),
                  HELLO_SENT, CONSENTED)
  {
    hide SignHello, SignAck, SignProof, HelloVerify, AckVerify, ProofVerify, RecordVerify, SessionId, ProofPath,
      HelloExpiry, ConsentExpiry;
  }

  lemma SendsAck(w: World, m: Meeting, l: Ledger)
    requires Verifies(w, m) && Stored(w, m, l, HELLO_SENT, CONSENTED)
    ensures Leads(w, m, SendAck(w, l, ConnAt(w, m, HELLO_SENT, CONSENTED)), HELLO_SENT, ACK_SENT)
  {
    hide HelloVerify, AckVerify, ProofVerify, RecordVerify, SessionId, ProofPath, HelloExpiry, ConsentExpiry;
  }

  lemma TakesAck(w: World, m: Meeting, l: Ledger)
    requires Signs(w, m) && Verifies(w, m) && Stored(w, m, l, HELLO_SENT, ACK_SENT)
    ensures Leads(w, m, ReceiveAck(w, Local(m.now, {}), l, 0, ConnAt(w, m, HELLO_SENT, ACK_SENT)),
                  PROOF_PUBLISHED, ACK_SENT)
  {
    hide SignHello, SignAck, SignProof, HelloVerify, AckVerify, ProofVerify, RecordVerify, SessionId,
      HelloExpiry, ConsentExpiry;
  }

  lemma ChecksResponder(w: World, m: Meeting, l: Ledger)
    requires Verifies(w, m) && Stored(w, m, l, PROOF_PUBLISHED, ACK_SENT)
    ensures Leads(w, m, CheckResponder(w, Local(m.now, {}), l, ConnAt(w, m, PROOF_PUBLISHED, ACK_SENT)),
                  READY_SENT, ACK_SENT)
  {
    hide HelloVerify, AckVerify, ProofVerify, RecordVerify, SessionId, ProofPath, HelloExpiry, ConsentExpiry;
  }

  lemma ChecksInitiator(w: World, m: Meeting, l: Ledger)
    requires Verifies(w, m) && Stored(w, m, l, READY_SENT, ACK_SENT)
    ensures Leads(w, m, CheckInitiator(w, Local(m.now, {}), l, ConnAt(w, m, READY_SENT, ACK_SENT)),
                  READY_SENT, PROOF_VERIFIED)
  {
    hide HelloVerify, AckVerify, ProofVerify, RecordVerify, SessionId, ProofPath, HelloExpiry, ConsentExpiry;
  }

  lemma CommitsSender(w: World, m: Meeting, l: Ledger)
    requires Verifies(w, m) && Stored(w, m, l, READY_SENT, PROOF_VERIFIED)
    ensures Leads(w, m, CommitSender(w, Local(m.now, {}), l, ConnAt(w, m, READY_SENT, PROOF_VERIFIED)),
                  READY_SENT, SENDER_COMMITTED)
  {
    hide HelloVerify, AckVerify, ProofVerify, RecordVerify, SessionId, ProofPath, HelloExpiry, ConsentExpiry;
  }

  lemma SendsConfirmation(w: World, m: Meeting, l: Ledger)
    requires Verifies(w, m) && Stored(w, m, l, READY_SENT, SENDER_COMMITTED)
    ensures Leads(w, m, SendConfirmation(w, l, ConnAt(w, m, READY_SENT, SENDER_COMMITTED)),
                  READY_SENT, CONFIRMATION_SENT)
  {
    hide HelloVerify, AckVerify, ProofVerify, RecordVerify, SessionId, ProofPath, HelloExpiry, ConsentExpiry;
  }

  lemma ResponderReturns(w: World, m: Meeting, l: Ledger)
    requires Verifies(w, m) && Stored(w, m, l, READY_SENT, CONFIRMATION_SENT)
    ensures Leads(w, m, ReturnResponder(w, l, ConnAt(w, m, READY_SENT, CONFIRMATION_SENT)),
                  READY_SENT, RESPONDER_RETURNED)
  {
    hide HelloVerify, AckVerify, ProofVerify, RecordVerify, SessionId, HelloExpiry, ConsentExpiry;
  }

  lemma ReadsConfirmation(w: World, m: Meeting, l: Ledger)
    requires Verifies(w, m) && Stored(w, m, l, READY_SENT, RESPONDER_RETURNED)
    ensures Leads(w, m, ReceiveConfirmation(w, l, ConnAt(w, m, READY_SENT, RESPONDER_RETURNED)),
                  CONFIRMATION_READ, RESPONDER_RETURNED)
  {
    hide HelloVerify, AckVerify, ProofVerify, RecordVerify, SessionId, ProofPath, HelloExpiry, ConsentExpiry;
  }

  lemma CommitsTarget(w: World, m: Meeting, l: Ledger)
    requires Verifies(w, m) && Stored(w, m, l, CONFIRMATION_READ, RESPONDER_RETURNED)
    ensures Leads(w, m, CommitTarget(w, Local(m.now, {}), l, ConnAt(w, m, CONFIRMATION_READ, RESPONDER_RETURNED)),
                  TARGET_COMMITTED, RESPONDER_RETURNED)
  {
    hide HelloVerify, AckVerify, ProofVerify, RecordVerify, SessionId, ProofPath, HelloExpiry, ConsentExpiry;
  }

  lemma InitiatorReturns(w: World, m: Meeting, l: Ledger)
    requires Verifies(w, m) && Stored(w, m, l, TARGET_COMMITTED, RESPONDER_RETURNED)
    ensures Leads(w, m, ReturnInitiator(w, l, ConnAt(w, m, TARGET_COMMITTED, RESPONDER_RETURNED)),
                  INITIATOR_RETURNED, RESPONDER_RETURNED)
  {
    hide HelloVerify, AckVerify, ProofVerify, RecordVerify, SessionId, HelloExpiry, ConsentExpiry;
  }

  // ---------------------------------------------------------------- the run

  function StateOf(m: Meeting, conn: Conn, l: Ledger): State {
    State(m.now, map[m.a := {m.sender}, m.b := {m.target}], map[0 := conn], l)
  }

  lemma Follow(w: World, m: Meeting, events: seq<Event>, s: State, e: Event, next: State)
    requires Execute(w, Start(m.now), events) == Some(s) && Apply(w, s, e) == Some(next)
    ensures Execute(w, Start(m.now), events + [e]) == Some(next)
  {
    assert (events + [e])[..|events|] == events;
  }

  lemma Acts(w: World, m: Meeting, events: seq<Event>, conn: Conn, l: Ledger, move: Move, e: Effect)
    requires Execute(w, Start(m.now), events) == Some(StateOf(m, conn, l))
    requires e == MoveEffect(w, StateOf(m, conn, l), 0, conn, move) && e.Done?
    ensures Execute(w, Start(m.now), events + [Act(0, move)]) == Some(StateOf(m, e.conn, e.ledger))
  {
    hide MoveEffect, Execute;
    var s, t := StateOf(m, conn, l), StateOf(m, e.conn, e.ledger);
    assert s.conns[0 := e.conn] == t.conns;
    Follow(w, m, events, s, Act(0, move), t);
  }

  function Opened(m: Meeting): Ledger {
    Ledger(map[], map[], map[], {},
           map[Registration(m.a, m.sender) := m.now, Registration(m.b, m.target) := m.now])
  }

  /** Both devices have registered their records and a connection is open. */
  lemma Opens(w: World, m: Meeting) returns (events: seq<Event>)
    requires Verifies(w, m)
    ensures Execute(w, Start(m.now), events)
            == Some(StateOf(m, Conn(Endpoint(w, m.a), Endpoint(w, m.b), [], [], false, false, None, None),
                            Opened(m)))
  {
    hide HelloVerify, AckVerify, ProofVerify, RecordVerify, SessionId, ProofPath, HelloExpiry, ConsentExpiry,
      Execute;
    var l := Opened(m);
    var s1 := State(
      m.now, map[m.a := {m.sender}], map[], Ledger(map[], map[], map[], {}, map[Registration(m.a, m.sender) := m.now]));
    var s2 := State(m.now, map[m.a := {m.sender}, m.b := {m.target}], map[], l);
    Nothing(w, m);
    assert ({} - {}) + {m.sender} == {m.sender} && ({} - {}) + {m.target} == {m.target};
    assert s1.ledger.registered[Registration(m.b, m.target) := m.now] == l.registered;
    Follow(w, m, [], Start(m.now), Register(m.a, m.sender, {}), s1);
    events := [] + [Register(m.a, m.sender, {})];
    assert s1.active[m.b := {m.target}] == s2.active;
    Follow(w, m, events, s1, Register(m.b, m.target, {}), s2);
    events := events + [Register(m.b, m.target, {})];
    var conn := Conn(Endpoint(w, m.a), Endpoint(w, m.b), [], [], false, false, None, None);
    Follow(w, m, events, s2, Connect(0, Endpoint(w, m.a), Endpoint(w, m.b)), StateOf(m, conn, l));
    events := events + [Connect(0, Endpoint(w, m.a), Endpoint(w, m.b))];
  }

  lemma Nothing(w: World, m: Meeting)
    ensures Execute(w, Start(m.now), []) == Some(Start(m.now))
  {
  }

  /** The Hello is sent and received. */
  lemma Greets(w: World, m: Meeting)
    returns (conn: Conn, l: Ledger, sent: Effect, received: Effect)
    requires Signs(w, m) && Verifies(w, m)
    ensures conn == Conn(Endpoint(w, m.a), Endpoint(w, m.b), [], [], false, false, None, None)
    ensures l == Opened(m)
    ensures sent == SendHello(w, Local(m.now, {m.sender}), l, 0, conn, m.a, m.sender, m.target, m.application, m.nonce)
    ensures sent.Done?
    ensures received == ReceiveHello(w, Local(m.now, {m.target}), sent.ledger, sent.conn, m.b, m.target)
    ensures Leads(w, m, received, HELLO_SENT, AWAITING_CONSENT)
  {
    hide SignHello, SignAck, SignProof, HelloVerify, AckVerify, ProofVerify, RecordVerify, SessionId, ProofPath,
      HelloExpiry, ConsentExpiry;
    conn := Conn(Endpoint(w, m.a), Endpoint(w, m.b), [], [], false, false, None, None);
    l := Opened(m);
    sent := SendHello(w, Local(m.now, {m.sender}), l, 0, conn, m.a, m.sender, m.target, m.application, m.nonce);
    assert sent.conn.toResponder == [HelloMessage(m.hello)];
    received := ReceiveHello(w, Local(m.now, {m.target}), sent.ledger, sent.conn, m.b, m.target);
  }

  /** Up to the initiator's `ProofReady`. */
  lemma FirstHalf(w: World, m: Meeting) returns (events: seq<Event>, l: Ledger)
    requires Signs(w, m) && Verifies(w, m)
    ensures Execute(w, Start(m.now), events) == Some(StateOf(m, ConnAt(w, m, READY_SENT, ACK_SENT), l))
    ensures Stored(w, m, l, READY_SENT, ACK_SENT)
  {
    hide SignHello, SignAck, SignProof, HelloVerify, AckVerify, ProofVerify, RecordVerify, SessionId, ProofPath,
      HelloExpiry, ConsentExpiry, Execute, SendHello, ReceiveHello, Consent, SendAck, ReceiveAck, CheckResponder,
      Stored, Signs, Verifies, ConnAt;
    VerifiesGives(w, m);
    events := Opens(w, m);
    var conn, l0, sent, received := Greets(w, m);
    Acts(w, m, events, conn, l0, DoSendHello(m.a, m.sender, m.target, m.application, m.nonce), sent);
    events := events + [Act(0, DoSendHello(m.a, m.sender, m.target, m.application, m.nonce))];
    Acts(w, m, events, sent.conn, sent.ledger, DoReceiveHello(m.b, m.target), received);
    events := events + [Act(0, DoReceiveHello(m.b, m.target))];
    Consents(w, m, received.ledger);
    var e := Consent(w, Local(m.now, {}), received.ledger, 0, received.conn, m.challenge);
    Acts(w, m, events, received.conn, received.ledger, DoConsent(m.challenge), e);
    events, l := events + [Act(0, DoConsent(m.challenge))], e.ledger;
    SendsAck(w, m, l);
    e := SendAck(w, l, ConnAt(w, m, HELLO_SENT, CONSENTED));
    Acts(w, m, events, ConnAt(w, m, HELLO_SENT, CONSENTED), l, DoSendAck, e);
    events, l := events + [Act(0, DoSendAck)], e.ledger;
    TakesAck(w, m, l);
    e := ReceiveAck(w, Local(m.now, {}), l, 0, ConnAt(w, m, HELLO_SENT, ACK_SENT));
    Acts(w, m, events, ConnAt(w, m, HELLO_SENT, ACK_SENT), l, DoReceiveAck, e);
    events, l := events + [Act(0, DoReceiveAck)], e.ledger;
    ChecksResponder(w, m, l);
    e := CheckResponder(w, Local(m.now, {}), l, ConnAt(w, m, PROOF_PUBLISHED, ACK_SENT));
    Acts(w, m, events, ConnAt(w, m, PROOF_PUBLISHED, ACK_SENT), l, DoCheckResponder, e);
    events, l := events + [Act(0, DoCheckResponder)], e.ledger;
  }

  lemma VerifiesGives(w: World, m: Meeting)
    requires Verifies(w, m)
    ensures m.a in w.devices && m.b in w.devices && SessionId(m.nonce).Some? && m.a != m.b
  {
  }

  /** From the confirmation to the initiator's return. */
  lemma LastSteps(w: World, m: Meeting, before: seq<Event>, l0: Ledger) returns (events: seq<Event>, l: Ledger)
    requires Verifies(w, m) && Stored(w, m, l0, READY_SENT, RESPONDER_RETURNED)
    requires Execute(w, Start(m.now), before) == Some(StateOf(m, ConnAt(w, m, READY_SENT, RESPONDER_RETURNED), l0))
    ensures Execute(w, Start(m.now), events)
            == Some(StateOf(m, ConnAt(w, m, INITIATOR_RETURNED, RESPONDER_RETURNED), l))
  {
    hide Execute, SessionId, ReceiveConfirmation, CommitTarget, ReturnInitiator, Stored, Verifies, ConnAt;
    VerifiesGives(w, m);
    ReadsConfirmation(w, m, l0);
    var e := ReceiveConfirmation(w, l0, ConnAt(w, m, READY_SENT, RESPONDER_RETURNED));
    Acts(w, m, before, ConnAt(w, m, READY_SENT, RESPONDER_RETURNED), l0, DoReceiveConfirmation, e);
    events, l := before + [Act(0, DoReceiveConfirmation)], e.ledger;
    CommitsTarget(w, m, l);
    e := CommitTarget(w, Local(m.now, {}), l, ConnAt(w, m, CONFIRMATION_READ, RESPONDER_RETURNED));
    Acts(w, m, events, ConnAt(w, m, CONFIRMATION_READ, RESPONDER_RETURNED), l, DoCommitTarget, e);
    events, l := events + [Act(0, DoCommitTarget)], e.ledger;
    InitiatorReturns(w, m, l);
    e := ReturnInitiator(w, l, ConnAt(w, m, TARGET_COMMITTED, RESPONDER_RETURNED));
    Acts(w, m, events, ConnAt(w, m, TARGET_COMMITTED, RESPONDER_RETURNED), l, DoReturnInitiator, e);
    events, l := events + [Act(0, DoReturnInitiator)], e.ledger;
  }

  /**
    Whenever both devices sign what the protocol asks of them, there is a run at one clock reading in which
    both return a peer, with one session id, each naming the other's certificate.
  */
  lemma HandshakeCompletes(w: World, m: Meeting) returns (events: seq<Event>, s: State)
    requires Signs(w, m)
    ensures Execute(w, Start(m.now), events) == Some(s) && 0 in s.conns
    ensures var i, r := s.conns[0].initiator, s.conns[0].responder;
            && i.Some? && r.Some? && i.value.peer.Some? && r.value.peer.Some?
            && i.value.device == m.a && r.value.device == m.b && i.value.hello == r.value.hello == m.hello
            && i.value.peer.value.session == r.value.peer.value.session
            && i.value.peer.value.identity == m.target.certificate.claims.identity
            && r.value.peer.value.identity == m.sender.certificate.claims.identity
  {
    hide SignHello, SignAck, SignProof, HelloVerify, AckVerify, ProofVerify, RecordVerify, SessionId, ProofPath,
      HelloExpiry, ConsentExpiry, Execute, CheckInitiator, CommitSender, SendConfirmation, ReturnResponder,
      ReceiveConfirmation, CommitTarget, ReturnInitiator, Stored, Signs, Verifies;
    SignsVerifies(w, m);
    VerifiesGives(w, m);
    var l: Ledger;
    events, l := FirstHalf(w, m);
    ChecksInitiator(w, m, l);
    var e := CheckInitiator(w, Local(m.now, {}), l, ConnAt(w, m, READY_SENT, ACK_SENT));
    Acts(w, m, events, ConnAt(w, m, READY_SENT, ACK_SENT), l, DoCheckInitiator, e);
    events, l := events + [Act(0, DoCheckInitiator)], e.ledger;
    CommitsSender(w, m, l);
    e := CommitSender(w, Local(m.now, {}), l, ConnAt(w, m, READY_SENT, PROOF_VERIFIED));
    Acts(w, m, events, ConnAt(w, m, READY_SENT, PROOF_VERIFIED), l, DoCommitSender, e);
    events, l := events + [Act(0, DoCommitSender)], e.ledger;
    e := SendConfirmation(w, l, ConnAt(w, m, READY_SENT, SENDER_COMMITTED));
    SendsConfirmation(w, m, l);
    Acts(w, m, events, ConnAt(w, m, READY_SENT, SENDER_COMMITTED), l, DoSendConfirmation, e);
    events, l := events + [Act(0, DoSendConfirmation)], e.ledger;
    ResponderReturns(w, m, l);
    e := ReturnResponder(w, l, ConnAt(w, m, READY_SENT, CONFIRMATION_SENT));
    Acts(w, m, events, ConnAt(w, m, READY_SENT, CONFIRMATION_SENT), l, DoReturnResponder, e);
    events, l := events + [Act(0, DoReturnResponder)], e.ledger;
    events, l := LastSteps(w, m, events, l);
    s := StateOf(m, ConnAt(w, m, INITIATOR_RETURNED, RESPONDER_RETURNED), l);
  }
}
