/**
  What a verified object of protocol v1 says (crates/protocol/src/v1.rs). Every verifier accepts exactly the
  objects that mean something, at exactly one interval of clock readings: a timeless meaning, written out here
  field by field and limit by limit, and a window.
*/
module Authority {
  import opened Base
  import opened Wire
  import opened WireTheorems

  const DAY: int := 24 * 60 * 60

  /** A root-signed Grant to write to the protocol's storage scope. */
  predicate GrantMeans(a: Authorization, identity: string, p: Policy) {
    && a.Grant?
    && a.signature == Signed(identity, GrantPayload(a.claims))
    && a.claims.iss == identity
    && CanonicalKey(identity) && CanonicalKey(a.claims.cnf) && a.claims.cnf != identity
    && a.claims.iat < a.claims.exp <= a.claims.iat + 730 * DAY
    && p.clientIdOk(a.claims.clientId)
    && WritesScope(a.claims.caps)
  }

  function CapabilityTexts(caps: seq<Capability>): seq<string> {
    seq(|caps|, i requires 0 <= i < |caps| => caps[i].text)
  }

  function RelayTexts(relays: seq<RelayUrl>): seq<string> {
    seq(|relays|, i requires 0 <= i < |relays| => relays[i].text)
  }

  /** One to 32 capabilities with distinct texts, one of which covers the scope and writes. */
  predicate WritesScope(caps: seq<Capability>) {
    && 1 <= |caps| <= 32
    && |set t | t in CapabilityTexts(caps)| == |caps|
    && (exists c | c in caps :: c.coversScope && c.writes)
  }

  /** A device delegated by the Grant's key, inside the Grant's life, with keys of its own. */
  predicate CertificateMeans(c: Certificate, a: Authorization, identity: string, p: Policy) {
    && GrantMeans(a, identity, p)
    && c.claims == CertificateClaims(
                     1, identity, GrantDigest(a), a.claims.jti, a.claims.clientId, a.claims.cnf, c.claims.deviceId,
                     c.claims.controlKey, c.claims.irohId, c.claims.iat, c.claims.exp)
    && c.signature == Signed(a.claims.cnf, CertificatePayload(c.claims))
    && p.deviceIdOk(c.claims.deviceId)
    && CanonicalKey(c.claims.controlKey) && CanonicalKey(c.claims.irohId)
    && c.claims.controlKey !in {c.claims.irohId, identity, a.claims.cnf}
    && c.claims.irohId !in {identity, a.claims.cnf}
    && a.claims.iat <= c.claims.iat < c.claims.exp <= a.claims.exp
    && c.claims.exp <= c.claims.iat + 90 * DAY
  }

  predicate GoodNonce(nonce: Base64Text) {
    nonce.Canonical? && 16 <= |nonce.bytes| <= 32
  }

  predicate GoodRelay(relay: RelayUrl, p: Policy) {
    relay.bareOrigin && (relay.https || (p.allowLoopback && relay.loopbackHttp))
  }

  /** Where the device can be reached, signed by its control key, inside the certificate's life. */
  predicate LocatorMeans(l: Locator, a: Authorization, c: Certificate, identity: string, p: Policy) {
    && CertificateMeans(c, a, identity, p)
    && l.claims == LocatorClaims(
                     1, identity, GrantDigest(a), CertificateDigest(c), c.claims.controlKey, c.claims.irohId,
                     l.claims.relays, "pubky2pubky/iroh/v1", l.claims.instanceNonce, l.claims.sequence,
                     l.claims.iat, l.claims.exp)
    && l.signature == Signed(c.claims.controlKey, LocatorPayload(l.claims))
    && l.claims.sequence > 0
    && GoodNonce(l.claims.instanceNonce)
    && 1 <= |l.claims.relays| <= 4
    && (forall r | r in l.claims.relays :: GoodRelay(r, p))
    && |set t | t in RelayTexts(l.claims.relays)| == |l.claims.relays|
    && c.claims.iat <= l.claims.iat < l.claims.exp <= c.claims.exp
    && l.claims.exp <= l.claims.iat + 900
  }

  predicate RecordMeans(r: Record, identity: string, p: Policy) {
    && p.recordBytes(r) <= 32_768
    && LocatorMeans(r.locator, r.authorization, r.certificate, identity, p)
  }

  /** An invitation from one device to another, for one application, inside every life it depends on. */
  predicate HelloMeans(h: Hello, sender: Record, target: Record, application: string, p: Policy) {
    var from, to := sender.certificate.claims, target.certificate.claims;
    && RecordMeans(sender, from.identity, p)
    && RecordMeans(target, to.identity, p)
    && h.claims == HelloClaims(
                     1, sender, from.identity, from.deviceId, from.controlKey, from.irohId, to.identity, to.deviceId,
                     to.controlKey, to.irohId, application, "pubky2pubky/iroh/v1", h.claims.sessionNonce,
                     RecordDigest(target), h.claims.iat, h.claims.exp)
    && h.signature == Signed(from.controlKey, HelloPayload(h.claims))
    && p.helloClaimsBytes(h.claims) <= 49_152 && p.helloBytes(h) <= 49_152
    && from.controlKey != to.controlKey && from.irohId != to.irohId
    && p.applicationOk(application)
    && GoodNonce(h.claims.sessionNonce)
    && Max(from.iat, to.iat) <= h.claims.iat < h.claims.exp
    && h.claims.exp <= Min(sender.locator.claims.exp, target.locator.claims.exp)
    && h.claims.exp <= h.claims.iat + 120
  }

  /** The responder's consent to exactly that invitation, with a challenge of its own. */
  predicate AckMeans(k: Ack, responder: Record, initiator: Record, hello: Hello, application: string, p: Policy) {
    var from, to := responder.certificate.claims, initiator.certificate.claims;
    && HelloMeans(hello, initiator, responder, application, p)
    && k.claims == AckClaims(
                     1, from.identity, from.deviceId, from.controlKey, from.irohId, to.identity, to.deviceId,
                     to.controlKey, to.irohId, application, "pubky2pubky/iroh/v1", hello.claims.sessionNonce,
                     k.claims.responderNonce, HelloDigest(hello), RecordDigest(responder), k.claims.iat, k.claims.exp)
    && k.signature == Signed(from.controlKey, AckPayload(k.claims))
    && p.ackBytes(k) <= 8_192
    && GoodNonce(k.claims.responderNonce) && k.claims.responderNonce != hello.claims.sessionNonce
    && hello.claims.iat <= k.claims.iat < k.claims.exp <= hello.claims.exp
  }

  /** One side's proof that its record is current, for one challenge of one invitation. */
  predicate ProofMeans(
    q: Proof, own: Record, peer: Record, hello: Hello, role: Role, challenge: Base64Text, p: Policy)
  {
    && (if role == Initiator then HelloMeans(hello, own, peer, hello.claims.application, p)
        else HelloMeans(hello, peer, own, hello.claims.application, p))
    && q.claims == ProofClaims(
                     1, role, challenge, HelloDigest(hello), RecordDigest(own), GrantDigest(own.authorization),
                     LocatorDigest(own.locator), q.claims.iat, q.claims.exp)
    && q.signature == Signed(own.certificate.claims.controlKey, ProofPayload(q.claims))
    && p.proofBytes(q) <= 4_096
    && GoodNonce(challenge) && challenge != hello.claims.sessionNonce
    && hello.claims.iat <= q.claims.iat < q.claims.exp <= hello.claims.exp
    && q.claims.exp <= q.claims.iat + 30
  }

  // ---------------------------------------------------------------- distinct texts

  /** As many texts as items means that no two are the same. */
  lemma {:induction false} DistinctTexts(texts: seq<string>)
    ensures |set t | t in texts| <= |texts|
    ensures |set t | t in texts| == |texts| <==> forall i, j :: 0 <= i < j < |texts| ==> texts[i] != texts[j]
  {
    if texts != [] {
      var init, last := texts[..|texts| - 1], texts[|texts| - 1];
      DistinctTexts(init);
      assert texts == init + [last];
      assert (set t | t in texts) == (set t | t in init) + {last};
      if last in init {
        var i :| 0 <= i < |init| && init[i] == last;
        assert texts[i] == texts[|texts| - 1];
      } else {
        assert forall i :: 0 <= i < |init| ==> texts[i] == init[i] && init[i] in init;
      }
    }
  }

  lemma CapabilitiesExactly(caps: seq<Capability>)
    ensures ValidCapabilities(caps) <==> WritesScope(caps)
  {
    var texts := CapabilityTexts(caps);
    DistinctTexts(texts);
    assert forall i :: 0 <= i < |caps| ==> texts[i] == caps[i].text && caps[i] in caps;
  }

  lemma RelaysExactly(relays: seq<RelayUrl>, p: Policy)
    ensures ValidRelays(relays, p)
            <==> && 1 <= |relays| <= 4
                 && (forall r | r in relays :: GoodRelay(r, p))
                 && |set t | t in RelayTexts(relays)| == |relays|
  {
    var texts := RelayTexts(relays);
    DistinctTexts(texts);
    assert forall i :: 0 <= i < |relays| ==> texts[i] == relays[i].text && relays[i] in relays;
  }

  // ---------------------------------------------------------------- meaning and window

  lemma GrantExactly(a: Authorization, identity: string, now: u64, p: Policy)
    ensures GrantVerify(a, identity, now, p)
            <==> GrantMeans(a, identity, p) && Within(a.claims.iat, a.claims.exp, now)
  {
    hide ValidCapabilities, WritesScope, CanonicalKey;
    if a.Grant? { CapabilitiesExactly(a.claims.caps); }
  }

  lemma CertificateExactly(c: Certificate, a: Authorization, identity: string, now: u64, p: Policy)
    ensures CertificateVerify(c, a, identity, now, p)
            <==> CertificateMeans(c, a, identity, p) && Within(c.claims.iat, c.claims.exp, now)
  {
    hide GrantVerify, WritesScope, CanonicalKey;
    GrantExactly(a, identity, now, p);
  }

  lemma RecordExactly(r: Record, identity: string, now: u64, p: Policy, minimum: Option<u64>)
    ensures RecordVerify(r, identity, now, p, minimum)
            <==> && RecordMeans(r, identity, p)
                 && Within(r.locator.claims.iat, r.locator.claims.exp, now)
                 && (minimum.Some? ==> minimum.value <= r.locator.claims.sequence)
  {
    hide CertificateVerify, GrantMeans, ValidRelays, GoodRelay, CanonicalKey;
    CertificateExactly(r.certificate, r.authorization, identity, now, p);
    RelaysExactly(r.locator.claims.relays, p);
  }

  lemma HelloExactly(h: Hello, sender: Record, target: Record, application: string, now: u64, p: Policy)
    ensures HelloVerify(h, sender, target, application, now, p)
            <==> && HelloMeans(h, sender, target, application, p)
                 && Within(HelloOpens(h.claims.iat, sender, target), h.claims.exp, now)
  {
    hide RecordVerify, RecordMeans;
    RecordExactly(sender, sender.certificate.claims.identity, now, p, None);
    RecordExactly(target, target.certificate.claims.identity, now, p, None);
    RecordLives(sender, sender.certificate.claims.identity, p);
    RecordLives(target, target.certificate.claims.identity, p);
  }

  lemma RecordLives(r: Record, identity: string, p: Policy)
    ensures RecordMeans(r, identity, p) ==>
              && r.certificate.claims.identity == identity
              && r.certificate.claims.iat <= r.locator.claims.iat
              && r.locator.claims.exp <= r.certificate.claims.exp
  {
    hide GrantMeans;
  }

  lemma AckExactly(
    k: Ack, responder: Record, initiator: Record, hello: Hello, application: string, now: u64, p: Policy)
    ensures AckVerify(k, responder, initiator, hello, application, now, p)
            <==> && AckMeans(k, responder, initiator, hello, application, p)
                 && Within(HelloOpens(k.claims.iat, initiator, responder), k.claims.exp, now)
  {
    hide HelloVerify, HelloMeans;
    HelloExactly(hello, initiator, responder, application, now, p);
    HelloLives(hello, initiator, responder, application, p);
  }

  lemma HelloLives(h: Hello, sender: Record, target: Record, application: string, p: Policy)
    ensures HelloMeans(h, sender, target, application, p) ==>
              && h.claims.application == application
              && h.claims.alpn == ALPN
              && GoodNonce(h.claims.sessionNonce)
              && p.applicationOk(application)
              && sender.certificate.claims.iat <= h.claims.iat
              && target.certificate.claims.iat <= h.claims.iat
              && h.claims.exp <= sender.locator.claims.exp <= sender.certificate.claims.exp
              && h.claims.exp <= target.locator.claims.exp <= target.certificate.claims.exp
              && h.claims.exp <= h.claims.iat + 120
  {
    hide RecordMeans;
    RecordLives(sender, sender.certificate.claims.identity, p);
    RecordLives(target, target.certificate.claims.identity, p);
  }

  lemma ProofExactly(
    q: Proof, own: Record, peer: Record, hello: Hello, role: Role, challenge: Base64Text, now: u64, p: Policy)
    ensures ProofVerify(q, own, peer, hello, role, challenge, now, p)
            <==> && ProofMeans(q, own, peer, hello, role, challenge, p)
                 && q.claims.iat <= now < q.claims.exp
                 && Within(HelloOpens(hello.claims.iat, own, peer), hello.claims.exp, now)
  {
    hide HelloVerify, HelloMeans;
    var initiator, responder := InitiatorRecord(role, own, peer), ResponderRecord(role, own, peer);
    HelloExactly(hello, initiator, responder, hello.claims.application, now, p);
    HelloLives(hello, initiator, responder, hello.claims.application, p);
  }
}
