/**
  Runs without failures and without an adversary: every fetch finds the other side's proof
  at the path the fetching side derived itself, whatever else runs at the same time.
*/
module HonestRuns {
  import opened Base
  import opened Wire
  import opened WireTheorems
  import opened Handshake
  import opened Agreement

  /** No session fails, nobody speaks for anybody else, nobody tampers with storage. */
  predicate Benign(e: Event) {
    && !e.Overwrite?
    && !e.Erase?
    && (e.Act? ==> BenignMove(e.move))
  }

  predicate BenignMove(m: Move) {
    !m.FailInitiator? && !m.FailResponder? && !m.SpeakAsInitiator? && !m.SpeakAsResponder?
  }

  /** Where a side publishes its own proof. */
  function InitiatorHome(w: World, i: InitiatorSession): Slot
    requires i.device in w.devices && i.exchange.Some?
  {
    Slot(Identity(w, i.device), ProofPath(i.exchange.value.proof))
  }

  function ResponderHome(w: World, r: ResponderSession): Slot
    requires r.device in w.devices && r.exchange.Some?
  {
    Slot(Identity(w, r.device), ProofPath(r.exchange.value.proof))
  }

  /** A proof that verified, under its signer's policy, when it was issued; and that is past. */
  ghost predicate GoodProof(
    w: World, clock: u64, device: Device, own: Record, peer: Record, hello: Hello, role: Role, x: Exchange)
  {
    && device in w.devices
    && x.ack.claims.iat <= clock
    && x.proof.claims.iat <= clock
    && ProofVerify(x.proof, own, peer, hello, role, x.ack.claims.responderNonce, x.proof.claims.iat,
                   w.devices[device].policy)
  }

  /** A proof is stored from its publication until its own side returns, and gone from then on. */
  ghost predicate InitiatorStored(w: World, clock: u64, l: Ledger, i: InitiatorSession) {
    && i.device in w.devices
    && !i.failed
    && (i.exchange.Some? ==>
          GoodProof(w, clock, i.device, i.sender, i.target, i.hello, Initiator, i.exchange.value))
    && (i.exchange.Some? && i.stage < INITIATOR_RETURNED ==>
          InitiatorHome(w, i) in l.storage && l.storage[InitiatorHome(w, i)] == i.exchange.value.proof)
    && (i.exchange.Some? && i.stage == INITIATOR_RETURNED ==> InitiatorHome(w, i) !in l.storage)
  }

  ghost predicate ResponderStored(w: World, clock: u64, l: Ledger, r: ResponderSession) {
    && r.device in w.devices
    && !r.failed
    && (r.exchange.Some? ==>
          GoodProof(w, clock, r.device, r.target, r.sender, r.hello, Responder, r.exchange.value))
    && (r.exchange.Some? && r.stage < RESPONDER_RETURNED ==>
          ResponderHome(w, r) in l.storage && l.storage[ResponderHome(w, r)] == r.exchange.value.proof)
    && (r.exchange.Some? && r.stage == RESPONDER_RETURNED ==> ResponderHome(w, r) !in l.storage)
  }

  ghost predicate HonestConn(w: World, clock: u64, l: Ledger, conn: Conn) {
    && !conn.initiatorHostile
    && !conn.responderHostile
    && (conn.initiator.Some? ==> InitiatorStored(w, clock, l, conn.initiator.value))
    && (conn.responder.Some? ==> ResponderStored(w, clock, l, conn.responder.value))
  }

  ghost predicate HonestInv(w: World, s: State) {
    && Inv(w, s)
    && (forall c | c in s.conns :: HonestConn(w, s.clock, s.ledger, s.conns[c]))
  }

  /** The slots one connection publishes to. */
  ghost predicate Home(w: World, conn: Conn, slot: Slot) {
    || (&& conn.initiator.Some? && conn.initiator.value.device in w.devices
        && conn.initiator.value.exchange.Some? && slot == InitiatorHome(w, conn.initiator.value))
    || (&& conn.responder.Some? && conn.responder.value.device in w.devices
        && conn.responder.value.exchange.Some? && slot == ResponderHome(w, conn.responder.value))
  }

  /** Distinct exchanges never share a storage slot. */
  lemma HomesApart(w: World, s: State, c: ConnId, d: ConnId, slot: Slot)
    requires Inv(w, s) && c in s.conns && d in s.conns
    requires Home(w, s.conns[c], slot) && Home(w, s.conns[d], slot)
    ensures c == d
  {
    hide PastOk, MadeBy, AckFor, HelloFor, PeerFrom, Showable, ChannelsOk, MessagesShowable;
    assert ConnOk(w, s.ledger, c, s.conns[c]) && ConnOk(w, s.ledger, d, s.conns[d]);
    NoncesTellConnectionsApart(w, s, c, d);
  }

  /** Neither do the two roles of one exchange. */
  lemma RolesApart(w: World, l: Ledger, c: ConnId, conn: Conn)
    requires ConnOk(w, l, c, conn)
    requires conn.initiator.Some? && conn.initiator.value.exchange.Some?
    requires conn.responder.Some? && conn.responder.value.exchange.Some?
    ensures InitiatorHome(w, conn.initiator.value) != ResponderHome(w, conn.responder.value)
  {
    hide AckFor, HelloFor, PeerFrom, Showable, ChannelsOk, MessagesShowable;
  }

  // ---------------------------------------------------------------- every benign move keeps the proofs stored

  /** The move leaves every slot alone that is not one of its own connection's. */
  ghost predicate OnlyHome(w: World, l: Ledger, e: Effect)
    requires e.Done?
  {
    forall slot | !Home(w, e.conn, slot) ::
      (slot in l.storage <==> slot in e.ledger.storage)
      && (slot in l.storage ==> e.ledger.storage[slot] == l.storage[slot])
  }

  ghost predicate Stays(w: World, clock: u64, l: Ledger, e: Effect) {
    e.Done? ==> HonestConn(w, clock, e.ledger, e.conn) && OnlyHome(w, l, e)
  }

  lemma OpeningStays(w: World, s: State, c: ConnId, conn: Conn, m: Move)
    requires ConnOk(w, s.ledger, c, conn) && HonestConn(w, s.clock, s.ledger, conn)
    requires m.DoSendHello? || m.DoReceiveHello? || m.DoSendAck? || m.DoSendConfirmation?
    ensures Stays(w, s.clock, s.ledger, MoveEffect(w, s, c, conn, m))
  {
    hide SignHello, HelloVerify, RecordVerify, Newest, HelloExpiry, ChannelsOk, MessagesShowable, ProofFor, AckFor,
         HelloFor, PeerFrom, Showable, InitiatorOk, ResponderOk, GoodProof;
  }

  lemma CheckingStays(w: World, s: State, c: ConnId, conn: Conn, m: Move)
    requires ConnOk(w, s.ledger, c, conn) && HonestConn(w, s.clock, s.ledger, conn)
    requires m.DoCheckResponder? || m.DoCheckInitiator? || m.DoCommitSender?
             || m.DoReceiveConfirmation? || m.DoCommitTarget?
    ensures Stays(w, s.clock, s.ledger, MoveEffect(w, s, c, conn, m))
  {
    hide ProofVerify, RecordVerify, ProofControlValid, ChannelsOk, MessagesShowable, ProofFor, AckFor, HelloFor,
         PeerFrom, Showable, InitiatorOk, ResponderOk, GoodProof;
  }

  lemma ConsentStays(w: World, local: Local, l: Ledger, c: ConnId, conn: Conn, challenge: Base64Text)
    requires ConnOk(w, l, c, conn) && HonestConn(w, local.now, l, conn)
    ensures Stays(w, local.now, l, Consent(w, local, l, c, conn, challenge))
  {
    hide SignAck, SignProof, ConsentExpiry, ChannelsOk, MessagesShowable, ProofFor, AckFor, HelloFor, PeerFrom,
         Showable, MadeBy, AckVerify, ProofVerify, InitiatorOk;
    var e := Consent(w, local, l, c, conn, challenge);
    if e.Done? {
      var r := conn.responder.value;
      var spec, proof := w.devices[r.device], e.conn.responder.value.exchange.value.proof;
      AckSignExact(spec.credential, r.hello, r.sender, r.target, challenge, local.now,
                   ConsentExpiry(local.now, r.hello), spec.policy, e.conn.responder.value.exchange.value.ack);
      ProofSignExact(spec.credential, r.target, r.sender, r.hello, Responder, challenge, local.now,
                     ConsentExpiry(local.now, r.hello), spec.policy, proof);
      ConsentOk(w, local, l, c, conn, challenge);
      if conn.initiator.Some? && conn.initiator.value.exchange.Some? { RolesApart(w, e.ledger, c, e.conn); }
    }
  }

  lemma AckIsPast(w: World, clock: u64, l: Ledger, c: ConnId, conn: Conn)
    requires ConnOk(w, l, c, conn) && HonestConn(w, clock, l, conn)
    requires |conn.toInitiator| >= 1
    ensures conn.toInitiator[0].AckMessage? && conn.toInitiator[0].ack.claims.iat <= clock
  {
    hide MessagesShowable, ProofFor, AckFor, HelloFor, PeerFrom, Showable, InitiatorOk, ProofVerify;
    assert |SentByResponder(conn)| >= 1;
  }

  lemma ReceiveAckStays(w: World, local: Local, l: Ledger, c: ConnId, conn: Conn)
    requires ConnOk(w, l, c, conn) && HonestConn(w, local.now, l, conn)
    ensures Stays(w, local.now, l, ReceiveAck(w, local, l, c, conn))
  {
    hide AckVerify, SignProof, ChannelsOk, MessagesShowable, ProofFor, AckFor, HelloFor, PeerFrom,
         Showable, MadeBy, ProofVerify, ResponderOk;
    var e := ReceiveAck(w, local, l, c, conn);
    if e.Done? {
      var i, ack := conn.initiator.value, conn.toInitiator[0].ack;
      var spec, proof := w.devices[i.device], e.conn.initiator.value.exchange.value.proof;
      AckIsPast(w, local.now, l, c, conn);
      ProofSignExact(spec.credential, i.sender, i.target, i.hello, Initiator, ack.claims.responderNonce,
                     ack.claims.iat, ack.claims.exp, spec.policy, proof);
      ReceiveAckOk(w, local, l, c, conn);
      if conn.responder.Some? && conn.responder.value.exchange.Some? { RolesApart(w, e.ledger, c, e.conn); }
    }
  }

  lemma ReturnStays(w: World, s: State, c: ConnId, conn: Conn, m: Move)
    requires ConnOk(w, s.ledger, c, conn) && HonestConn(w, s.clock, s.ledger, conn)
    requires m.DoReturnInitiator? || m.DoReturnResponder?
    ensures Stays(w, s.clock, s.ledger, MoveEffect(w, s, c, conn, m))
  {
    hide ChannelsOk, MessagesShowable, ProofFor, AckFor, HelloFor, PeerFrom, Showable, MadeBy, SessionId,
         GoodProof;
    if conn.initiator.Some? && conn.initiator.value.exchange.Some?
       && conn.responder.Some? && conn.responder.value.exchange.Some? {
      RolesApart(w, s.ledger, c, conn);
    }
  }

  lemma MoveStays(w: World, s: State, c: ConnId, m: Move)
    requires HonestInv(w, s) && c in s.conns && BenignMove(m)
    ensures Stays(w, s.clock, s.ledger, MoveEffect(w, s, c, s.conns[c], m))
  {
    hide ConnOk, PastOk, Stays, SendHello, ReceiveHello, Consent, SendAck, ReceiveAck, CheckResponder, CheckInitiator,
         CommitSender, SendConfirmation, ReturnResponder, ReceiveConfirmation, CommitTarget, ReturnInitiator;
    var conn, none := s.conns[c], Local(s.clock, {});
    match m
    case DoConsent(challenge) => ConsentStays(w, none, s.ledger, c, conn, challenge);
    case DoReceiveAck => ReceiveAckStays(w, none, s.ledger, c, conn);
    case DoReturnInitiator => ReturnStays(w, s, c, conn, m);
    case DoReturnResponder => ReturnStays(w, s, c, conn, m);
    case DoSendHello(_, _, _, _, _) => OpeningStays(w, s, c, conn, m);
    case DoReceiveHello(_, _) => OpeningStays(w, s, c, conn, m);
    case DoSendAck => OpeningStays(w, s, c, conn, m);
    case DoSendConfirmation => OpeningStays(w, s, c, conn, m);
    case _ => CheckingStays(w, s, c, conn, m);
  }

  lemma ActStays(w: World, s: State, c: ConnId, m: Move)
    requires HonestInv(w, s) && c in s.conns && BenignMove(m)
    requires MoveEffect(w, s, c, s.conns[c], m).Done?
    ensures var e := MoveEffect(w, s, c, s.conns[c], m);
            HonestInv(w, s.(conns := s.conns[c := e.conn], ledger := e.ledger))
  {
    hide ConnOk, PastOk, MoveEffect, SignaturesOk, StorageOk;
    var e := MoveEffect(w, s, c, s.conns[c], m);
    var t := s.(conns := s.conns[c := e.conn], ledger := e.ledger);
    ActKeeps(w, s, c, m);
    MoveStays(w, s, c, m);
    forall d | d in t.conns ensures HonestConn(w, t.clock, t.ledger, t.conns[d]) {
      if d != c { OthersUndisturbed(w, s, t, c, d, e); }
    }
  }

  lemma OthersUndisturbed(w: World, s: State, t: State, c: ConnId, d: ConnId, e: Effect)
    requires e.Done? && OnlyHome(w, s.ledger, e) && s.clock == t.clock
    requires Inv(w, t) && c in t.conns && d in t.conns && c != d
    requires t.conns[c] == e.conn && t.ledger == e.ledger
    requires HonestConn(w, s.clock, s.ledger, t.conns[d])
    ensures HonestConn(w, t.clock, t.ledger, t.conns[d])
  {
    hide ConnOk, PastOk, SignaturesOk, StorageOk, GoodProof;
    var conn := t.conns[d];
    if conn.initiator.Some? && conn.initiator.value.exchange.Some? {
      var home := InitiatorHome(w, conn.initiator.value);
      if Home(w, t.conns[c], home) { HomesApart(w, t, c, d, home); }
    }
    if conn.responder.Some? && conn.responder.value.exchange.Some? {
      var home := ResponderHome(w, conn.responder.value);
      if Home(w, t.conns[c], home) { HomesApart(w, t, c, d, home); }
    }
  }

  lemma BenignKeeps(w: World, s: State, e: Event)
    requires HonestInv(w, s) && Benign(e)
    requires Apply(w, s, e).Some?
    ensures HonestInv(w, Apply(w, s, e).value)
  {
    hide ConnOk, PastOk, MoveEffect, RecordVerify, SignaturesOk, StorageOk, ProofVerify;
    ApplyKeeps(w, s, e);
    if e.Act? { ActStays(w, s, e.conn, e.move); }
  }

  lemma {:induction false} BenignRunKeeps(w: World, clock: u64, events: seq<Event>)
    requires forall k :: 0 <= k < |events| ==> Benign(events[k])
    requires Execute(w, Start(clock), events).Some?
    ensures HonestInv(w, Execute(w, Start(clock), events).value)
    decreases |events|
  {
    hide ConnOk, PastOk, Apply, Benign;
    if events != [] {
      BenignRunKeeps(w, clock, events[..|events| - 1]);
      BenignKeeps(w, Execute(w, Start(clock), events[..|events| - 1]).value, events[|events| - 1]);
    }
  }

  // ---------------------------------------------------------------- the fetches

  /** The initiator, about to fetch, finds exactly the proof the responder published for this exchange. */
  lemma InitiatorFetchFinds(w: World, s: State, c: ConnId)
    requires HonestInv(w, s) && c in s.conns
    requires s.conns[c].initiator.Some? && s.conns[c].initiator.value.stage == PROOF_PUBLISHED
    ensures s.conns[c].responder.Some?
    ensures SameHandshake(s.conns[c].initiator.value, s.conns[c].responder.value)
    ensures ResponderSlot(s.conns[c].initiator.value) in s.ledger.storage
    ensures s.ledger.storage[ResponderSlot(s.conns[c].initiator.value)]
            == s.conns[c].responder.value.exchange.value.proof
  {
    hide PastOk, MadeBy, PeerFrom, Showable, MessagesShowable, GoodProof;
    assert ConnOk(w, s.ledger, c, s.conns[c]) && HonestConn(w, s.clock, s.ledger, s.conns[c]);
    assert |SentByResponder(s.conns[c])| >= 1;
  }

  /** The responder, about to fetch, is sent the path it derives itself and finds the initiator's proof there. */
  lemma ResponderFetchFinds(w: World, s: State, c: ConnId)
    requires HonestInv(w, s) && c in s.conns
    requires s.conns[c].responder.Some? && s.conns[c].responder.value.stage == ACK_SENT
    requires |s.conns[c].toResponder| >= 2
    ensures s.conns[c].initiator.Some?
    ensures SameHandshake(s.conns[c].initiator.value, s.conns[c].responder.value)
    ensures InitiatorSlot(s.conns[c].responder.value) in s.ledger.storage
    ensures s.ledger.storage[InitiatorSlot(s.conns[c].responder.value)]
            == s.conns[c].initiator.value.exchange.value.proof
    ensures s.conns[c].toResponder[1] == ReadyFor(s.conns[c].initiator.value)
    ensures ReadyFor(s.conns[c].initiator.value).initiatorPath == InitiatorSlot(s.conns[c].responder.value).path
  {
    hide PastOk, MadeBy, PeerFrom, Showable, MessagesShowable, GoodProof;
    assert ConnOk(w, s.ledger, c, s.conns[c]) && HonestConn(w, s.clock, s.ledger, s.conns[c]);
    assert |SentByInitiator(s.conns[c])| >= 2;
  }

  /** The initiator accepts the responder's proof, at the moment it was issued, under its own policy. */
  predicate InitiatorWouldAccept(w: World, i: InitiatorSession, q: Proof)
    requires i.device in w.devices && i.exchange.Some?
  {
    ProofVerify(q, i.target, i.sender, i.hello, Responder, Taken(i), q.claims.iat, w.devices[i.device].policy)
  }

  predicate ResponderWouldAccept(w: World, r: ResponderSession, q: Proof)
    requires r.device in w.devices && r.exchange.Some?
  {
    ProofVerify(q, r.sender, r.target, r.hello, Initiator, Drawn(r), q.claims.iat, w.devices[r.device].policy)
  }

  /** Two policies disagree on a good proof at every moment of its life, or at none. */
  lemma PoliciesDisagreeAlways(
    q: Proof, own: Record, peer: Record, hello: Hello, role: Role, challenge: Base64Text, now: u64,
    p: Policy, o: Policy)
    requires ProofVerify(q, own, peer, hello, role, challenge, q.claims.iat, p) && q.claims.iat <= now
    ensures ProofVerify(q, own, peer, hello, role, challenge, now, o)
            <==> now < q.claims.exp && ProofVerify(q, own, peer, hello, role, challenge, q.claims.iat, o)
  {
    hide ProofVerify;
    ProofInterval(q, own, peer, hello, role, challenge, q.claims.iat, q.claims.iat, p);
    WindowsNest(q, own, peer, hello, role, challenge, q.claims.iat, p);
    if ProofVerify(q, own, peer, hello, role, challenge, now, o) {
      ProofInterval(q, own, peer, hello, role, challenge, now, now, o);
      ProofInterval(q, own, peer, hello, role, challenge, now, q.claims.iat, o);
    }
    if ProofVerify(q, own, peer, hello, role, challenge, q.claims.iat, o) {
      ProofInterval(q, own, peer, hello, role, challenge, q.claims.iat, now, o);
    }
  }

  /**
    The initiator's check goes through exactly until the proof expires, if its policy accepts the proof at
    all; with one policy on both sides it does.
  */
  lemma InitiatorCheckSucceeds(w: World, s: State, c: ConnId)
    requires HonestInv(w, s) && c in s.conns
    requires s.conns[c].initiator.Some? && s.conns[c].initiator.value.stage == PROOF_PUBLISHED
    requires s.conns[c].responder.Some? && s.conns[c].responder.value.exchange.Some?
    ensures var i, r := s.conns[c].initiator.value, s.conns[c].responder.value;
            var q := r.exchange.value.proof;
            && i.device in w.devices && r.device in w.devices && i.exchange.Some?
            && (CheckResponder(w, Local(s.clock, {}), s.ledger, s.conns[c]).Done?
                <==> s.clock < q.claims.exp && InitiatorWouldAccept(w, i, q))
            && (w.devices[i.device].policy == w.devices[r.device].policy ==> InitiatorWouldAccept(w, i, q))
  {
    hide PastOk, MadeBy, PeerFrom, Showable, MessagesShowable, ChannelsOk, ProofFor, AckFor, HelloFor, ProofVerify;
    var i, r := s.conns[c].initiator.value, s.conns[c].responder.value;
    assert ConnOk(w, s.ledger, c, s.conns[c]) && HonestConn(w, s.clock, s.ledger, s.conns[c]);
    InitiatorFetchFinds(w, s, c);
    PoliciesDisagreeAlways(r.exchange.value.proof, r.target, r.sender, r.hello, Responder, Drawn(r), s.clock,
                           w.devices[r.device].policy, w.devices[i.device].policy);
  }

  /** And so does the responder's, once `ProofReady` has arrived. */
  lemma ResponderCheckSucceeds(w: World, s: State, c: ConnId)
    requires HonestInv(w, s) && c in s.conns
    requires s.conns[c].responder.Some? && s.conns[c].responder.value.stage == ACK_SENT
    requires |s.conns[c].toResponder| >= 2
    requires s.conns[c].initiator.Some? && s.conns[c].initiator.value.exchange.Some?
    ensures var i, r := s.conns[c].initiator.value, s.conns[c].responder.value;
            var q := i.exchange.value.proof;
            && i.device in w.devices && r.device in w.devices && r.exchange.Some?
            && (CheckInitiator(w, Local(s.clock, {}), s.ledger, s.conns[c]).Done?
                <==> s.clock < q.claims.exp && ResponderWouldAccept(w, r, q))
            && (w.devices[i.device].policy == w.devices[r.device].policy ==> ResponderWouldAccept(w, r, q))
  {
    hide PastOk, MadeBy, PeerFrom, Showable, MessagesShowable, ChannelsOk, ProofFor, AckFor, HelloFor, ProofVerify;
    var i, r := s.conns[c].initiator.value, s.conns[c].responder.value;
    assert ConnOk(w, s.ledger, c, s.conns[c]) && HonestConn(w, s.clock, s.ledger, s.conns[c]);
    ResponderFetchFinds(w, s, c);
    PoliciesDisagreeAlways(i.exchange.value.proof, i.sender, i.target, i.hello, Initiator, Taken(i), s.clock,
                           w.devices[i.device].policy, w.devices[r.device].policy);
  }

  /** What a fetching initiator and a fetching responder see. */
  ghost predicate FetchesFind(l: Ledger, conn: Conn) {
    && (conn.initiator.Some? && conn.initiator.value.stage == PROOF_PUBLISHED ==>
          && conn.responder.Some?
          && SameHandshake(conn.initiator.value, conn.responder.value)
          && ResponderSlot(conn.initiator.value) in l.storage
          && l.storage[ResponderSlot(conn.initiator.value)] == conn.responder.value.exchange.value.proof)
    && (conn.responder.Some? && conn.responder.value.stage == ACK_SENT && |conn.toResponder| >= 2 ==>
          && conn.initiator.Some?
          && SameHandshake(conn.initiator.value, conn.responder.value)
          && InitiatorSlot(conn.responder.value) in l.storage
          && l.storage[InitiatorSlot(conn.responder.value)] == conn.initiator.value.exchange.value.proof)
  }

  /** In every benign run, with any number of exchanges in flight, no fetch comes back empty. */
  lemma EveryBenignRunFetches(w: World, clock: u64, events: seq<Event>, s: State)
    requires forall k :: 0 <= k < |events| ==> Benign(events[k])
    requires Execute(w, Start(clock), events) == Some(s)
    ensures forall c | c in s.conns :: FetchesFind(s.ledger, s.conns[c])
  {
    hide Inv, HonestConn, Apply, Benign;
    BenignRunKeeps(w, clock, events);
    forall c | c in s.conns ensures FetchesFind(s.ledger, s.conns[c]) {
      var conn := s.conns[c];
      if conn.initiator.Some? && conn.initiator.value.stage == PROOF_PUBLISHED { InitiatorFetchFinds(w, s, c); }
      if conn.responder.Some? && conn.responder.value.stage == ACK_SENT && |conn.toResponder| >= 2 {
        ResponderFetchFinds(w, s, c);
      }
    }
  }
}
