/** Who stands behind a returned peer: the authority every verified record carries, over every run of the handshake. */
module AuthorizedPeers {
  import opened Base
  import opened Wire
  import opened Authority
  import opened Handshake
  import opened Agreement

  /**
    The record carries a Grant that `identity` itself signed to a key that is not its own, with one to 32
    capabilities of distinct texts, one of which covers the protocol's scope and writes; and that key signed the
    certificate of the device whose control key signed the locator.
  */
  predicate SpeaksFor(r: Record, identity: string) {
    && r.authorization.Grant?
    && var grant, certificate := r.authorization.claims, r.certificate.claims;
       && grant.iss == identity && grant.cnf != identity
       && r.authorization.signature == Signed(identity, GrantPayload(grant))
       && 1 <= |grant.caps| <= 32
       && (forall i, j :: 0 <= i < j < |grant.caps| ==> grant.caps[i].text != grant.caps[j].text)
       && (exists i :: 0 <= i < |grant.caps| && grant.caps[i].coversScope && grant.caps[i].writes)
       && certificate.identity == identity
       && certificate.grantDigest == GrantDigest(r.authorization)
       && r.certificate.signature == Signed(grant.cnf, CertificatePayload(certificate))
       && r.locator.claims.certificateDigest == CertificateDigest(r.certificate)
       && r.locator.signature == Signed(certificate.controlKey, LocatorPayload(r.locator.claims))
  }

  lemma MeaningSpeaks(r: Record, identity: string, p: Policy)
    requires RecordMeans(r, identity, p)
    ensures SpeaksFor(r, identity)
  {
    hide GoodRelay, GoodNonce, CanonicalKey;
    var caps := r.authorization.claims.caps;
    var texts := CapabilityTexts(caps);
    DistinctTexts(texts);
    assert forall i :: 0 <= i < |caps| ==> texts[i] == caps[i].text;
    var c :| c in caps && c.coversScope && c.writes;
    var i :| 0 <= i < |caps| && caps[i] == c;
  }

  lemma VerifiedSpeaks(
    q: Proof, own: Record, peer: Record, hello: Hello, role: Role, challenge: Base64Text, now: u64, p: Policy)
    requires ProofVerify(q, own, peer, hello, role, challenge, now, p)
    ensures SpeaksFor(own, own.certificate.claims.identity)
    ensures SpeaksFor(peer, peer.certificate.claims.identity)
  {
    hide ProofVerify, RecordMeans, SpeaksFor;
    ProofExactly(q, own, peer, hello, role, challenge, now, p);
    MeaningSpeaks(own, own.certificate.claims.identity, p);
    MeaningSpeaks(peer, peer.certificate.claims.identity, p);
  }

  /** Over every run, both records behind a returned peer speak for the identities the two sides go by. */
  lemma EveryPeerIsAuthorized(w: World, clock: u64, events: seq<Event>, s: State, c: ConnId)
    requires Execute(w, Start(clock), events) == Some(s) && c in s.conns
    ensures s.conns[c].initiator.Some? && s.conns[c].initiator.value.peer.Some? ==>
              var i := s.conns[c].initiator.value;
              && SpeaksFor(i.target, i.peer.value.identity)
              && SpeaksFor(i.sender, i.sender.certificate.claims.identity)
    ensures s.conns[c].responder.Some? && s.conns[c].responder.value.peer.Some? ==>
              var r := s.conns[c].responder.value;
              && SpeaksFor(r.sender, r.peer.value.identity)
              && SpeaksFor(r.target, r.target.certificate.claims.identity)
  {
    hide Execute, Inv, ProofVerify, SessionId, SpeaksFor;
    RunKeeps(w, clock, events);
    OwnDeeds(w, s, c);
    var conn := s.conns[c];
    if conn.initiator.Some? && conn.initiator.value.peer.Some? {
      var i := conn.initiator.value;
      VerifiedSpeaks(i.seen.value.proof, i.target, i.sender, i.hello, Responder, Taken(i), i.seen.value.at,
                     w.devices[i.device].policy);
    }
    if conn.responder.Some? && conn.responder.value.peer.Some? {
      var r := conn.responder.value;
      VerifiedSpeaks(r.seen.value.proof, r.sender, r.target, r.hello, Initiator, Drawn(r), r.seen.value.at,
                     w.devices[r.device].policy);
    }
  }

  /** A record with no capability that covers the scope and writes is refused by every verifier at every time. */
  lemma UnauthorizedIsRefused(r: Record, other: Record, now: u64, p: Policy)
    requires r.authorization.Grant? ==>
               forall c | c in r.authorization.claims.caps :: !(c.coversScope && c.writes)
    ensures forall identity, minimum :: !RecordVerify(r, identity, now, p, minimum)
    ensures forall h, application :: !HelloVerify(h, r, other, application, now, p)
    ensures forall h, application :: !HelloVerify(h, other, r, application, now, p)
    ensures forall k, h, application :: !AckVerify(k, r, other, h, application, now, p)
    ensures forall k, h, application :: !AckVerify(k, other, r, h, application, now, p)
    ensures forall q, h, role, challenge :: !ProofVerify(q, r, other, h, role, challenge, now, p)
    ensures forall q, h, role, challenge :: !ProofVerify(q, other, r, h, role, challenge, now, p)
  {
    hide RecordVerify, HelloVerify, AckVerify, ProofVerify, RecordMeans;
    forall identity, minimum ensures !RecordVerify(r, identity, now, p, minimum) {
      RecordExactly(r, identity, now, p, minimum);
      NoMeaning(r, identity, p);
    }
    NoMeaning(r, r.certificate.claims.identity, p);
    forall h, application
      ensures !HelloVerify(h, r, other, application, now, p) && !HelloVerify(h, other, r, application, now, p)
    {
      HelloExactly(h, r, other, application, now, p);
      HelloExactly(h, other, r, application, now, p);
    }
    forall k, h, application
      ensures !AckVerify(k, r, other, h, application, now, p) && !AckVerify(k, other, r, h, application, now, p)
    {
      AckExactly(k, r, other, h, application, now, p);
      AckExactly(k, other, r, h, application, now, p);
    }
    forall q, h, role, challenge
      ensures !ProofVerify(q, r, other, h, role, challenge, now, p)
      ensures !ProofVerify(q, other, r, h, role, challenge, now, p)
    {
      ProofExactly(q, r, other, h, role, challenge, now, p);
      ProofExactly(q, other, r, h, role, challenge, now, p);
    }
  }

  lemma NoMeaning(r: Record, identity: string, p: Policy)
    requires r.authorization.Grant? ==>
               forall c | c in r.authorization.claims.caps :: !(c.coversScope && c.writes)
    ensures !RecordMeans(r, identity, p)
  {
  }
}
