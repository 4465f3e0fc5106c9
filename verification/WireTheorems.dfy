/**
  What the window checks, the sign/verify pairs and the bindings of `Wire` guarantee.

  Every verifier accepts on exactly one interval of clock readings, the windows of a
  verified proof nest, and a verifier accepts exactly what the signer builds.
*/
module WireTheorems {
  import opened Base
  import opened Wire

  /** `now` lies in the acceptance window of an object issued at `iat`, clock skew included. */
  predicate Within(iat: u64, exp: u64, now: u64) {
    iat <= now + CLOCK_SKEW && now < exp
  }

  /** A Grant verified once verifies at `now` exactly inside its own skewed window. */
  lemma GrantInterval(a: Authorization, identity: string, once: u64, now: u64, p: Policy)
    requires GrantVerify(a, identity, once, p)
    ensures GrantVerify(a, identity, now, p) <==> Within(a.claims.iat, a.claims.exp, now)
  {
  }

  /** The Grant's window never decides: the certificate's own window is the acceptance interval. */
  lemma CertificateInterval(c: Certificate, a: Authorization, identity: string, once: u64, now: u64, p: Policy)
    requires CertificateVerify(c, a, identity, once, p)
    ensures CertificateVerify(c, a, identity, now, p) <==> Within(c.claims.iat, c.claims.exp, now)
  {
    GrantInterval(a, identity, once, now, p);
  }

  /** Likewise for a locator, and so for the whole device record. */
  lemma RecordInterval(r: Record, identity: string, once: u64, now: u64, p: Policy, minimum: Option<u64>)
    requires RecordVerify(r, identity, once, p, minimum)
    ensures RecordVerify(r, identity, now, p, minimum)
            <==> Within(r.locator.claims.iat, r.locator.claims.exp, now)
  {
    CertificateInterval(r.certificate, r.authorization, identity, once, now, p);
  }

  /** The latest issue time that the skewed checks of a Hello look at. */
  function HelloOpens(iat: u64, sender: Record, target: Record): u64 {
    Max(iat, Max(sender.locator.claims.iat, target.locator.claims.iat))
  }

  /**
    A Hello's acceptance interval: closed by its own expiry alone, opened by its own issue
    time or by a locator issued after it (locator issue times are not ordered with the Hello's).
  */
  lemma HelloInterval(
    h: Hello, sender: Record, target: Record, application: string, once: u64, now: u64, p: Policy)
    requires HelloVerify(h, sender, target, application, once, p)
    ensures HelloVerify(h, sender, target, application, now, p)
            <==> Within(HelloOpens(h.claims.iat, sender, target), h.claims.exp, now)
  {
    hide RecordVerify;
    RecordInterval(sender, h.claims.fromIdentity, once, now, p, None);
    RecordInterval(target, h.claims.toIdentity, once, now, p, None);
  }

  lemma AckInterval(
    k: Ack, responder: Record, initiator: Record, hello: Hello, application: string, once: u64, now: u64,
    p: Policy)
    requires AckVerify(k, responder, initiator, hello, application, once, p)
    ensures AckVerify(k, responder, initiator, hello, application, now, p)
            <==> Within(HelloOpens(k.claims.iat, initiator, responder), k.claims.exp, now)
  {
    hide HelloVerify;
    HelloInterval(hello, initiator, responder, application, once, now, p);
  }

  /** A proof gets no skew of its own: it opens at its issue time and closes at its expiry. */
  lemma ProofInterval(
    q: Proof, own: Record, peer: Record, hello: Hello, role: Role, challenge: Base64Text, once: u64, now: u64,
    p: Policy)
    requires ProofVerify(q, own, peer, hello, role, challenge, once, p)
    ensures ProofVerify(q, own, peer, hello, role, challenge, now, p)
            <==> && q.claims.iat <= now < q.claims.exp
                 && Within(HelloOpens(hello.claims.iat, own, peer), hello.claims.exp, now)
  {
    hide HelloVerify;
    HelloInterval(hello, InitiatorRecord(role, own, peer), ResponderRecord(role, own, peer),
                  hello.claims.application, once, now, p);
  }

  /** The windows of one party inside a verified proof. */
  predicate Nested(q: ProofClaims, h: HelloClaims, r: Record, now: u64)
    requires r.authorization.Grant?
  {
    && r.authorization.claims.iat <= r.certificate.claims.iat
    && r.certificate.claims.iat <= h.iat
    && h.iat <= q.iat
    && q.iat <= now
    && now < q.exp
    && q.exp <= h.exp
    && h.exp <= r.locator.claims.exp
    && r.locator.claims.exp <= r.certificate.claims.exp
    && r.certificate.claims.exp <= r.authorization.claims.exp
    && q.exp <= now + MAX_CURRENTNESS_LIFETIME
  }

  /** Four levels of windows nest, for both parties, and the proof is at most thirty seconds long. */
  lemma WindowsNest(
    q: Proof, own: Record, peer: Record, hello: Hello, role: Role, challenge: Base64Text, now: u64, p: Policy)
    requires ProofVerify(q, own, peer, hello, role, challenge, now, p)
    ensures own.authorization.Grant? && peer.authorization.Grant?
    ensures Nested(q.claims, hello.claims, own, now)
    ensures Nested(q.claims, hello.claims, peer, now)
  {
  }

  // ---------------------------------------------------------------- sign is verify at issue time

  /** `SignHello` returns `h` exactly when `h` carries the requested values and verifies when issued. */
  lemma HelloSignExact(
    d: Credential, sender: Record, target: Record, application: string, nonce: Base64Text, iat: u64, exp: u64,
    p: Policy, h: Hello)
    ensures SignHello(d, sender, target, application, nonce, iat, exp, p) == Some(h)
            <==> && OwnRecord(d, sender)
                 && d.controlSecret == Some(d.certificate.claims.controlKey)
                 && (h.claims.sessionNonce, h.claims.iat, h.claims.exp) == (nonce, iat, exp)
                 && HelloVerify(h, sender, target, application, iat, p)
  {
    hide RecordVerify;
    if && OwnRecord(d, sender)
       && (h.claims.sessionNonce, h.claims.iat, h.claims.exp) == (nonce, iat, exp)
       && HelloVerify(h, sender, target, application, iat, p) {
      assert h.claims == HelloClaimsFor(sender, target, application, nonce, iat, exp);
    }
  }

  lemma AckSignExact(
    d: Credential, hello: Hello, initiator: Record, responder: Record, nonce: Base64Text, iat: u64, exp: u64,
    p: Policy, k: Ack)
    ensures SignAck(d, hello, initiator, responder, nonce, iat, exp, p) == Some(k)
            <==> && OwnRecord(d, responder)
                 && d.controlSecret == Some(d.certificate.claims.controlKey)
                 && (k.claims.responderNonce, k.claims.iat, k.claims.exp) == (nonce, iat, exp)
                 && AckVerify(k, responder, initiator, hello, hello.claims.application, iat, p)
  {
    hide HelloVerify;
    if && OwnRecord(d, responder)
       && (k.claims.responderNonce, k.claims.iat, k.claims.exp) == (nonce, iat, exp)
       && AckVerify(k, responder, initiator, hello, hello.claims.application, iat, p) {
      assert k.claims == AckClaimsFor(hello, initiator, responder, nonce, iat, exp);
    }
  }

  lemma ProofSignExact(
    d: Credential, own: Record, peer: Record, hello: Hello, role: Role, challenge: Base64Text, iat: u64, exp: u64,
    p: Policy, q: Proof)
    ensures SignProof(d, own, peer, hello, role, challenge, iat, exp, p) == Some(q)
            <==> && OwnRecord(d, own)
                 && d.controlSecret == Some(d.certificate.claims.controlKey)
                 && (q.claims.iat, q.claims.exp) == (iat, exp)
                 && ProofVerify(q, own, peer, hello, role, challenge, iat, p)
  {
    hide HelloVerify;
    if && OwnRecord(d, own)
       && (q.claims.iat, q.claims.exp) == (iat, exp)
       && ProofVerify(q, own, peer, hello, role, challenge, iat, p) {
      assert q.claims == ProofClaimsFor(own, hello, role, challenge, iat, exp);
    }
  }

  /** `SignLocator` returns `l` exactly when `l` carries the requested values and verifies when issued. */
  lemma LocatorSignExact(
    d: Credential, relays: seq<RelayUrl>, nonce: Base64Text, sequence: u64, iat: u64, exp: u64, p: Policy, l: Locator)
    ensures SignLocator(d, relays, nonce, sequence, iat, exp, p) == Some(l)
            <==> && CredentialVerify(d, iat, p)
                 && l.claims.relays == relays && l.claims.instanceNonce == nonce && l.claims.sequence == sequence
                 && l.claims.iat == iat && l.claims.exp == exp
                 && LocatorVerify(l, d.authorization, d.certificate, d.certificate.claims.identity, iat, p, None)
  {
    hide CertificateVerify, ValidRelays;
    var c := d.certificate.claims;
    var claims := LocatorClaims(
      VERSION, c.identity, GrantDigest(d.authorization), CertificateDigest(d.certificate), c.controlKey,
      c.irohId, relays, ALPN, nonce, sequence, iat, exp);
    if && LocatorVerify(l, d.authorization, d.certificate, c.identity, iat, p, None)
       && l.claims.relays == relays && l.claims.instanceNonce == nonce && l.claims.sequence == sequence
       && l.claims.iat == iat && l.claims.exp == exp {
      assert l.claims == claims;
    }
  }

  /** Whatever `sign` returns verifies, against the same records, from its issue time to its expiry. */
  lemma SignedHelloStaysValid(
    d: Credential, sender: Record, target: Record, application: string, nonce: Base64Text, iat: u64, exp: u64,
    p: Policy, now: u64)
    requires SignHello(d, sender, target, application, nonce, iat, exp, p).Some?
    requires iat <= now < exp
    ensures HelloVerify(SignHello(d, sender, target, application, nonce, iat, exp, p).value,
                        sender, target, application, now, p)
  {
    hide SignHello, HelloVerify;
    var h := SignHello(d, sender, target, application, nonce, iat, exp, p).value;
    HelloSignExact(d, sender, target, application, nonce, iat, exp, p, h);
    HelloInterval(h, sender, target, application, iat, iat, p);
    HelloInterval(h, sender, target, application, iat, now, p);
  }

  lemma SignedAckStaysValid(
    d: Credential, hello: Hello, initiator: Record, responder: Record, nonce: Base64Text, iat: u64, exp: u64,
    p: Policy, now: u64)
    requires SignAck(d, hello, initiator, responder, nonce, iat, exp, p).Some?
    requires iat <= now < exp
    ensures AckVerify(SignAck(d, hello, initiator, responder, nonce, iat, exp, p).value,
                      responder, initiator, hello, hello.claims.application, now, p)
  {
    hide SignAck, AckVerify;
    var k := SignAck(d, hello, initiator, responder, nonce, iat, exp, p).value;
    AckSignExact(d, hello, initiator, responder, nonce, iat, exp, p, k);
    AckInterval(k, responder, initiator, hello, hello.claims.application, iat, iat, p);
    AckInterval(k, responder, initiator, hello, hello.claims.application, iat, now, p);
  }

  lemma SignedProofStaysValid(
    d: Credential, own: Record, peer: Record, hello: Hello, role: Role, challenge: Base64Text, iat: u64, exp: u64,
    p: Policy, now: u64)
    requires SignProof(d, own, peer, hello, role, challenge, iat, exp, p).Some?
    requires iat <= now < exp
    ensures ProofVerify(SignProof(d, own, peer, hello, role, challenge, iat, exp, p).value,
                        own, peer, hello, role, challenge, now, p)
  {
    hide SignProof, ProofVerify;
    var q := SignProof(d, own, peer, hello, role, challenge, iat, exp, p).value;
    ProofSignExact(d, own, peer, hello, role, challenge, iat, exp, p, q);
    ProofInterval(q, own, peer, hello, role, challenge, iat, iat, p);
    ProofInterval(q, own, peer, hello, role, challenge, iat, now, p);
    WindowsNest(q, own, peer, hello, role, challenge, iat, p);
  }

  // ---------------------------------------------------------------- sessions and slots

  /** `nonce_uuid` cannot fail on the nonce of a verified Hello. */
  lemma VerifiedHelloHasSession(
    h: Hello, sender: Record, target: Record, application: string, now: u64, p: Policy)
    requires HelloVerify(h, sender, target, application, now, p)
    ensures SessionId(h.claims.sessionNonce).Some?
    ensures |SessionId(h.claims.sessionNonce).value| == 16
  {
  }

  /** A verified proof sits at the path its verifier derived, and at no other. */
  lemma ProofPathIsDerived(
    q: Proof, own: Record, peer: Record, hello: Hello, role: Role, challenge: Base64Text, now: u64, p: Policy)
    requires ProofVerify(q, own, peer, hello, role, challenge, now, p)
    ensures ProofPath(q) == DerivedPath(role, challenge, hello, own)
  {
  }
}
