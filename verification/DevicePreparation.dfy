/**
  Reuse or rotation of a stored browser device (crates/browser-wasm/src/lib.rs, `prepare_device`,
  `issue_device` and `bounded_locator_lifetime`).
*/
module DevicePreparation {
  import opened Base
  import opened Wire
  import opened WireTheorems

  const LOCATOR_LIFETIME: u64 := 900
  const PEER_HANDSHAKE_TIMEOUT: u64 := 15
  const DEVICE_LIFETIME: u64 := 21_600

  /** What storage and the state hold when `prepare_device` starts. */
  datatype Situation = Situation(
    stored: Option<Credential>, identity: string, publisherPresent: bool, networkActive: bool, cached: bool)

  datatype Decision =
    | Reuse(device: Credential)
    | Rotate(oldControl: string)
    | Create
    | Tampered
    | KeyMissing
    | DeviceInvalid
    | IdentityActive

  /** The last second of a certificate's life, where an expired device must once have verified. */
  function HistoricalNow(c: CertificateClaims): u64 {
    Max(SatSub(c.exp, 1), c.iat)
  }

  /** The decision `prepare_device` takes before it issues anything. */
  function Prepare(s: Situation, deviceId: string, now: u64, p: Policy): Decision {
    if s.stored.None? then (if s.cached then KeyMissing else Create) else
    var device := s.stored.value;
    var claims := device.certificate.claims;
    if claims.identity != s.identity then Tampered else
    var currentlyValid := CredentialVerify(device, now, p);
    if && currentlyValid
       && s.publisherPresent
       && SatSub(claims.exp, now) > LOCATOR_LIFETIME + PEER_HANDSHAKE_TIMEOUT
       && claims.deviceId == deviceId
    then Reuse(device) else
    var safelyExpired := claims.exp <= now && CredentialVerify(device, HistoricalNow(claims), p);
    if !currentlyValid && !safelyExpired then DeviceInvalid
    else if s.networkActive then IdentityActive
    else Rotate(claims.controlKey)
  }

  /** `bounded_locator_lifetime`. */
  function BoundedLocatorLifetime(d: Credential, now: u64): Option<u64> {
    var remaining := SatSub(SatSub(d.certificate.claims.exp, now), 1);
    if remaining == 0 then None else Some(Min(remaining, LOCATOR_LIFETIME))
  }

  lemma CredentialInterval(d: Credential, once: u64, now: u64, p: Policy)
    requires CredentialVerify(d, once, p)
    ensures CredentialVerify(d, now, p) <==> Within(d.certificate.claims.iat, d.certificate.claims.exp, now)
  {
    hide CertificateVerify;
    CertificateInterval(
      d.certificate, d.authorization, d.certificate.claims.identity, once, now, p);
  }

  /** A credential that ever verified verifies in the last second of its certificate. */
  lemma OnceValid(d: Credential, once: u64, p: Policy)
    requires CredentialVerify(d, once, p)
    ensures CredentialVerify(d, HistoricalNow(d.certificate.claims), p)
  {
    hide CertificateVerify;
    CredentialInterval(d, once, once, p);
    CertificateShape(d, once, p);
    CredentialInterval(d, once, HistoricalNow(d.certificate.claims), p);
  }

  lemma CertificateShape(d: Credential, now: u64, p: Policy)
    requires CredentialVerify(d, now, p)
    ensures d.certificate.claims.iat < d.certificate.claims.exp
  {
  }

  /**
    A stored device is refused as invalid exactly if it never verified at any time, or if it was issued
    further in the future than the clock skew allows.
  */
  lemma InvalidExactly(s: Situation, deviceId: string, now: u64, p: Policy)
    requires s.stored.Some? && s.stored.value.certificate.claims.identity == s.identity
    ensures var c := s.stored.value.certificate.claims;
            Prepare(s, deviceId, now, p) == DeviceInvalid
            <==> !CredentialVerify(s.stored.value, HistoricalNow(c), p) || c.iat > now + CLOCK_SKEW
  {
    hide CredentialVerify;
    var d := s.stored.value;
    if CredentialVerify(d, now, p) {
      OnceValid(d, now, p);
      CredentialInterval(d, now, now, p);
    }
    if CredentialVerify(d, HistoricalNow(d.certificate.claims), p) {
      CertificateShape(d, HistoricalNow(d.certificate.claims), p);
      CredentialInterval(d, HistoricalNow(d.certificate.claims), now, p);
    }
  }

  /** The stored device serves as it is: valid, with its counter and name, and time for a locator and a handshake. */
  predicate Serves(s: Situation, deviceId: string, now: u64, p: Policy)
    requires s.stored.Some?
  {
    var c := s.stored.value.certificate.claims;
    && CredentialVerify(s.stored.value, now, p)
    && s.publisherPresent
    && c.deviceId == deviceId
    && now + 915 < c.exp
  }

  /** Every decision, and exactly when it is taken. */
  lemma PrepareExactly(s: Situation, deviceId: string, now: u64, p: Policy)
    ensures var decision := Prepare(s, deviceId, now, p);
            && (decision == KeyMissing <==> s.stored.None? && s.cached)
            && (decision == Create <==> s.stored.None? && !s.cached)
            && (decision == Tampered <==> s.stored.Some? && s.stored.value.certificate.claims.identity != s.identity)
            && (s.stored.Some? && s.stored.value.certificate.claims.identity == s.identity ==>
                  var c := s.stored.value.certificate.claims;
                  var valid := CredentialVerify(s.stored.value, HistoricalNow(c), p) && c.iat <= now + CLOCK_SKEW;
                  && (decision == Reuse(s.stored.value) <==> Serves(s, deviceId, now, p))
                  && (decision == DeviceInvalid <==> !valid)
                  && (decision == IdentityActive <==> valid && !Serves(s, deviceId, now, p) && s.networkActive)
                  && (decision == Rotate(c.controlKey) <==> valid && !Serves(s, deviceId, now, p) && !s.networkActive))
  {
    hide CredentialVerify;
    if s.stored.Some? && s.stored.value.certificate.claims.identity == s.identity {
      InvalidExactly(s, deviceId, now, p);
      if CredentialVerify(s.stored.value, now, p) {
        OnceValid(s.stored.value, now, p);
        CredentialInterval(s.stored.value, now, now, p);
      }
    }
  }

  /** `bounded_locator_lifetime` is the longest allowed life that ends before the certificate does, if there is one. */
  lemma LocatorLifetimeExact(d: Credential, now: u64, lifetime: u64)
    ensures BoundedLocatorLifetime(d, now) == Some(lifetime)
            <==> && 0 < lifetime <= 900
                 && now + lifetime < d.certificate.claims.exp
                 && (lifetime == 900 || now + lifetime + 1 == d.certificate.claims.exp)
    ensures BoundedLocatorLifetime(d, now).None? <==> d.certificate.claims.exp <= now + 1
  {
  }

  /** Once valid, and the clock not behind its issue time: reused, rotated, or refused because the network is active. */
  lemma OnceValidNeverInvalid(s: Situation, deviceId: string, once: u64, now: u64, p: Policy)
    requires s.stored.Some? && s.stored.value.certificate.claims.identity == s.identity
    requires CredentialVerify(s.stored.value, once, p)
    requires s.stored.value.certificate.claims.iat <= now
    ensures var decision := Prepare(s, deviceId, now, p);
            && (decision.Reuse? || decision.Rotate? || decision == IdentityActive)
            && (decision == IdentityActive ==> s.networkActive)
            && (decision.Rotate? ==> decision.oldControl == s.stored.value.certificate.claims.controlKey)
  {
    hide CredentialVerify;
    OnceValid(s.stored.value, once, p);
    InvalidExactly(s, deviceId, now, p);
  }

  /**
    A reused device can publish a full-length locator now, and that locator still verifies at every
    second of a handshake started while it lives.
  */
  lemma ReusePublishes(
    s: Situation, deviceId: string, now: u64, p: Policy, relays: seq<RelayUrl>, nonce: Base64Text, sequence: u64,
    later: u64)
    requires Prepare(s, deviceId, now, p).Reuse?
    requires ValidRelays(relays, p) && ValidChallenge(nonce) && sequence != 0
    requires now <= later < now + LOCATOR_LIFETIME
    ensures BoundedLocatorLifetime(s.stored.value, now) == Some(LOCATOR_LIFETIME)
    ensures var d := s.stored.value;
            var locator := SignLocator(d, relays, nonce, sequence, now, now + LOCATOR_LIFETIME, p);
            && d.certificate.claims.deviceId == deviceId
            && (locator.Some? <==> d.certificate.claims.iat <= now)
            && (locator.Some? ==>
                  && LocatorVerify(locator.value, d.authorization, d.certificate, s.identity, later, p, Some(sequence))
                  && later + PEER_HANDSHAKE_TIMEOUT < d.certificate.claims.exp)
  {
    hide CertificateVerify, ValidRelays;
    var d := s.stored.value;
    CredentialInterval(d, now, later, p);
  }

  /** `V1DeviceCredential::prepare`, signing with the Grant key, and `finalize`. */
  function Issue(
    a: Authorization, identity: string, cnf: string, deviceId: string, control: string, iroh: string, iat: u64,
    exp: u64, p: Policy): Option<Credential>
  {
    if !GrantVerify(a, identity, iat, p) then None else
    var claims := CertificateClaims(
      VERSION, a.claims.iss, GrantDigest(a), a.claims.jti, a.claims.clientId, a.claims.cnf, deviceId, control,
      iroh, iat, exp);
    var d := Credential(a, Certificate(claims, Signed(cnf, CertificatePayload(claims))), Some(control), Some(iroh));
    if && p.deviceIdOk(deviceId)
       && BoundedWindow(iat, exp, iat, MAX_CERTIFICATE_LIFETIME)
       && a.claims.iat <= iat
       && exp <= a.claims.exp
       && CredentialVerify(d, iat, p)
    then Some(d)
    else None
  }

  /** The expiry `issue_device` asks for. */
  function DeviceExpiry(a: Authorization, now: u64): Option<u64>
    requires a.Grant?
  {
    if now + DEVICE_LIFETIME > U64_MAX then None else
    var exp := Min(now + DEVICE_LIFETIME, a.claims.exp);
    if exp > now then Some(exp) else None
  }

  /**
    `issue_device` succeeds exactly if the Grant verifies now and was not issued later, six hours fit the
    clock, and the fresh keys are apart from the Grant's; what it returns verifies until its expiry, so the
    next `prepare_device` finds a device it will not call invalid.
  */
  lemma IssueExact(
    a: Authorization, identity: string, deviceId: string, control: string, iroh: string, now: u64, p: Policy)
    requires GrantVerify(a, identity, now, p)
    ensures DeviceExpiry(a, now).None? <==> now + 21_600 > U64_MAX
    ensures var exp := DeviceExpiry(a, now);
            exp.Some? ==>
              var d := Issue(a, identity, a.claims.cnf, deviceId, control, iroh, now, exp.value, p);
              && (d.Some? <==>
                    && p.deviceIdOk(deviceId)
                    && a.claims.iat <= now
                    && CanonicalKey(control) && CanonicalKey(iroh)
                    && |{control, iroh, identity, a.claims.cnf}| == 4)
              && (d.Some? ==>
                    && d.value.authorization == a
                    && d.value.controlSecret == Some(control) && d.value.irohSecret == Some(iroh)
                    && d.value.certificate.claims == CertificateClaims(
                         1, identity, GrantDigest(a), a.claims.jti, a.claims.clientId, a.claims.cnf, deviceId, control,
                         iroh, now, Min(now + 21_600, a.claims.exp)))
              && (d.Some? ==> forall later: u64 | now <= later < exp.value :: CredentialVerify(d.value, later, p))
  {
    hide ValidCapabilities, CanonicalKey;
    var exp := DeviceExpiry(a, now);
    if exp.Some? {
      FourApart(control, iroh, identity, a.claims.cnf);
      var d := Issue(a, identity, a.claims.cnf, deviceId, control, iroh, now, exp.value, p);
      if d.Some? {
        forall later: u64 | now <= later < exp.value ensures CredentialVerify(d.value, later, p) {
          CredentialInterval(d.value, now, later, p);
        }
      }
    }
  }

  lemma FourApart(a: string, b: string, c: string, d: string)
    requires c != d
    ensures |{a, b, c, d}| == 4 <==> a != b && a != c && a != d && b != c && b != d
  {
    if a == b { assert {a, b, c, d} == {a, c, d}; }
    if a == c { assert {a, b, c, d} == {b, c, d}; }
    if a == d { assert {a, b, c, d} == {b, c, d}; }
    if b == c { assert {a, b, c, d} == {a, c, d}; }
    if b == d { assert {a, b, c, d} == {a, c, d}; }
  }
}
