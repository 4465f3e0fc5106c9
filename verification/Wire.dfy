/**
  The signed objects of protocol v1 and their sign/verify pairs (crates/protocol/src/v1.rs).

  Cryptography is symbolic. A digest is a constructor applied to the exact object it
  digests, so digests are injective and separated by domain; a signature is a constructor
  applied to the key and the payload it signs. Encoded sizes and the flat text validators
  are parameters (`Policy`), so every statement holds for whatever they return.
*/
module Wire {
  import opened Base

  const VERSION: int := 1
  const ALPN: string := "pubky2pubky/iroh/v1"
  const CLOCK_SKEW: u64 := 120
  const MAX_GRANT_LIFETIME: u64 := 2 * 365 * 24 * 60 * 60
  const MAX_CERTIFICATE_LIFETIME: u64 := 90 * 24 * 60 * 60
  const MAX_LOCATOR_LIFETIME: u64 := 15 * 60
  const MAX_HANDSHAKE_LIFETIME: u64 := 2 * 60
  const MAX_CURRENTNESS_LIFETIME: u64 := 30
  const MAX_CAPABILITIES: int := 32
  const MAX_RELAYS: int := 4
  const MIN_CHALLENGE_BYTES: int := 16
  const MAX_CHALLENGE_BYTES: int := 32
  const MAX_RECORD_BYTES: int := 32 * 1024
  const MAX_HELLO_BYTES: int := 48 * 1024
  const MAX_ACK_BYTES: int := 8 * 1024
  const MAX_PROOF_BYTES: int := 4 * 1024

  /** A text meant to be unpadded base64url, seen through its decoding. */
  datatype Base64Text =
    | Undecodable(text: string)
    | NonCanonical(text: string, loose: seq<byte>)
    | Canonical(bytes: seq<byte>)

  datatype Digest =
    | MalformedDigest(text: string)
    | ForeignDigest(text: string)
    | GrantDigest(grant: Authorization)
    | CertificateDigest(certificate: Certificate)
    | LocatorDigest(locator: Locator)
    | RecordDigest(record: Record)
    | HelloDigest(hello: Hello)

  datatype Payload =
    | GrantPayload(grantClaims: GrantClaims)
    | CertificatePayload(certificateClaims: CertificateClaims)
    | LocatorPayload(locatorClaims: LocatorClaims)
    | HelloPayload(helloClaims: HelloClaims)
    | AckPayload(ackClaims: AckClaims)
    | ProofPayload(proofClaims: ProofClaims)

  datatype Signature = Garbage(text: string) | Signed(key: string, payload: Payload)

  datatype Capability = Capability(text: string, coversScope: bool, writes: bool)

  datatype GrantClaims = GrantClaims(
    iss: string, clientId: string, caps: seq<Capability>, cnf: string, jti: string, iat: u64, exp: u64)

  /** A Grant JWS: either a text that does not parse, or its one accepted spelling. */
  datatype Authorization = MalformedGrant(jws: string) | Grant(claims: GrantClaims, signature: Signature)

  datatype CertificateClaims = CertificateClaims(
    version: int, identity: string, grantDigest: Digest, grantJti: string, clientId: string,
    grantCnfKey: string, deviceId: string, controlKey: string, irohId: string, iat: u64, exp: u64)

  datatype Certificate = Certificate(claims: CertificateClaims, signature: Signature)

  datatype RelayUrl = RelayUrl(text: string, bareOrigin: bool, https: bool, loopbackHttp: bool)

  datatype LocatorClaims = LocatorClaims(
    version: int, identity: string, grantDigest: Digest, certificateDigest: Digest, controlKey: string,
    irohId: string, relays: seq<RelayUrl>, alpn: string, instanceNonce: Base64Text, sequence: u64,
    iat: u64, exp: u64)

  datatype Locator = Locator(claims: LocatorClaims, signature: Signature)

  datatype Record = Record(authorization: Authorization, certificate: Certificate, locator: Locator)

  datatype HelloClaims = HelloClaims(
    version: int, fromRecord: Record, fromIdentity: string, fromDeviceId: string, fromControlKey: string,
    fromIrohId: string, toIdentity: string, toDeviceId: string, toControlKey: string, toIrohId: string,
    application: string, alpn: string, sessionNonce: Base64Text, targetDigest: Digest, iat: u64, exp: u64)

  datatype Hello = Hello(claims: HelloClaims, signature: Signature)

  datatype AckClaims = AckClaims(
    version: int, fromIdentity: string, fromDeviceId: string, fromControlKey: string, fromIrohId: string,
    toIdentity: string, toDeviceId: string, toControlKey: string, toIrohId: string, application: string,
    alpn: string, sessionNonce: Base64Text, responderNonce: Base64Text, helloDigest: Digest,
    responderDigest: Digest, iat: u64, exp: u64)

  datatype Ack = Ack(claims: AckClaims, signature: Signature)

  datatype Role = Initiator | Responder

  datatype ProofClaims = ProofClaims(
    version: int, role: Role, challenge: Base64Text, helloDigest: Digest, recordDigest: Digest,
    grantDigest: Digest, locatorDigest: Digest, iat: u64, exp: u64)

  datatype Proof = Proof(claims: ProofClaims, signature: Signature)

  /** Hash-derived public-storage paths. */
  datatype Path =
    | DevicePath(grantCnfKey: string, controlKey: string)
    | CurrentnessPath(role: Role, challenge: Base64Text, helloDigest: Digest, recordDigest: Digest,
                      grantDigest: Digest, locatorDigest: Digest)
    | ForeignPath(text: string)

  /** A device credential; the secrets are seen through the public keys they decode to. */
  datatype Credential = Credential(
    authorization: Authorization, certificate: Certificate,
    controlSecret: Option<string>, irohSecret: Option<string>)
  {
    predicate SecretsMatch() {
      && controlSecret == Some(certificate.claims.controlKey)
      && irohSecret == Some(certificate.claims.irohId)
    }
  }

  datatype Policy = Policy(
    allowLoopback: bool,
    recordBytes: Record -> nat,
    helloClaimsBytes: HelloClaims -> nat,
    helloBytes: Hello -> nat,
    ackBytes: Ack -> nat,
    proofBytes: Proof -> nat,
    deviceIdOk: string -> bool,
    clientIdOk: string -> bool,
    applicationOk: string -> bool)

  // ---------------------------------------------------------------- flat checks

  predicate BoundedWindow(iat: u64, exp: u64, now: u64, maximum: u64) {
    && iat < exp
    && iat <= SatAdd(now, CLOCK_SKEW)
    && now < exp
    && exp - iat <= maximum
  }

  predicate CurrentnessWindow(iat: u64, exp: u64, now: u64) {
    && BoundedWindow(iat, exp, now, MAX_CURRENTNESS_LIFETIME)
    && iat <= now
    && exp <= SatAdd(now, MAX_CURRENTNESS_LIFETIME)
  }

  predicate ValidDigest(digest: Digest) {
    !digest.MalformedDigest?
  }

  predicate ValidChallenge(nonce: Base64Text) {
    nonce.Canonical? && MIN_CHALLENGE_BYTES <= |nonce.bytes| <= MAX_CHALLENGE_BYTES
  }

  predicate ValidRelay(relay: RelayUrl, p: Policy) {
    relay.bareOrigin && (relay.https || (p.allowLoopback && relay.loopbackHttp))
  }

  predicate ValidRelays(relays: seq<RelayUrl>, p: Policy) {
    && 0 < |relays| <= MAX_RELAYS
    && (forall i :: 0 <= i < |relays| ==> ValidRelay(relays[i], p))
    && (forall i, j :: 0 <= i < j < |relays| ==> relays[i].text != relays[j].text)
  }

  predicate ValidCapabilities(caps: seq<Capability>) {
    && 0 < |caps| <= MAX_CAPABILITIES
    && (forall i, j :: 0 <= i < j < |caps| ==> caps[i].text != caps[j].text)
    && (exists i :: 0 <= i < |caps| && caps[i].coversScope && caps[i].writes)
  }

  // ---------------------------------------------------------------- verification

  predicate GrantVerify(a: Authorization, identity: string, now: u64, p: Policy) {
    && a.Grant?
    && CanonicalKey(a.claims.iss)
    && CanonicalKey(a.claims.cnf)
    && a.signature == Signed(a.claims.iss, GrantPayload(a.claims))
    && a.claims.iss == identity
    && a.claims.cnf != a.claims.iss
    && BoundedWindow(a.claims.iat, a.claims.exp, now, MAX_GRANT_LIFETIME)
    && p.clientIdOk(a.claims.clientId)
    && ValidCapabilities(a.claims.caps)
  }

  predicate CertificateVerify(c: Certificate, a: Authorization, identity: string, now: u64, p: Policy) {
    && GrantVerify(a, identity, now, p)
    && c.claims.version == VERSION
    && c.claims.identity == identity
    && p.deviceIdOk(c.claims.deviceId)
    && ValidDigest(c.claims.grantDigest)
    && c.claims.grantDigest == GrantDigest(a)
    && c.claims.grantJti == a.claims.jti
    && c.claims.clientId == a.claims.clientId
    && c.claims.grantCnfKey == a.claims.cnf
    && BoundedWindow(c.claims.iat, c.claims.exp, now, MAX_CERTIFICATE_LIFETIME)
    && a.claims.iat <= c.claims.iat
    && c.claims.exp <= a.claims.exp
    && CanonicalKey(c.claims.controlKey)
    && CanonicalKey(c.claims.irohId)
    && c.claims.controlKey != c.claims.irohId
    && c.claims.controlKey != identity
    && c.claims.controlKey != a.claims.cnf
    && c.claims.irohId != identity
    && c.claims.irohId != a.claims.cnf
    && c.signature == Signed(c.claims.grantCnfKey, CertificatePayload(c.claims))
  }

  /** `V1DeviceCredential::verify`. */
  predicate CredentialVerify(d: Credential, now: u64, p: Policy) {
    && CertificateVerify(d.certificate, d.authorization, d.certificate.claims.identity, now, p)
    && d.SecretsMatch()
  }

  predicate LocatorClaimsValid(
    l: LocatorClaims, a: Authorization, c: Certificate, identity: string, now: u64, p: Policy,
    minimum: Option<u64>)
  {
    && l.version == VERSION
    && CertificateVerify(c, a, identity, now, p)
    && l.identity == identity
    && l.identity == c.claims.identity
    && ValidDigest(l.grantDigest)
    && ValidDigest(l.certificateDigest)
    && l.grantDigest == GrantDigest(a)
    && l.certificateDigest == CertificateDigest(c)
    && l.controlKey == c.claims.controlKey
    && l.irohId == c.claims.irohId
    && l.alpn == ALPN
    && l.sequence != 0
    && (minimum.Some? ==> minimum.value <= l.sequence)
    && ValidChallenge(l.instanceNonce)
    && ValidRelays(l.relays, p)
    && BoundedWindow(l.iat, l.exp, now, MAX_LOCATOR_LIFETIME)
    && c.claims.iat <= l.iat
    && l.exp <= c.claims.exp
  }

  predicate LocatorVerify(
    l: Locator, a: Authorization, c: Certificate, identity: string, now: u64, p: Policy, minimum: Option<u64>)
  {
    && LocatorClaimsValid(l.claims, a, c, identity, now, p, minimum)
    && l.signature == Signed(c.claims.controlKey, LocatorPayload(l.claims))
  }

  predicate RecordVerify(r: Record, identity: string, now: u64, p: Policy, minimum: Option<u64>) {
    && p.recordBytes(r) <= MAX_RECORD_BYTES
    && CertificateVerify(r.certificate, r.authorization, identity, now, p)
    && LocatorVerify(r.locator, r.authorization, r.certificate, identity, now, p, minimum)
  }

  predicate HelloClaimsValid(
    h: HelloClaims, sender: Record, target: Record, application: string, now: u64, p: Policy)
  {
    var from, to := sender.certificate.claims, target.certificate.claims;
    && h.version == VERSION
    && p.helloClaimsBytes(h) <= MAX_HELLO_BYTES
    && h.fromRecord == sender
    && RecordVerify(sender, h.fromIdentity, now, p, None)
    && RecordVerify(target, h.toIdentity, now, p, None)
    && h.fromIdentity == from.identity
    && h.toIdentity == to.identity
    && h.fromDeviceId == from.deviceId
    && h.fromControlKey == from.controlKey
    && h.fromIrohId == from.irohId
    && h.toDeviceId == to.deviceId
    && h.toControlKey == to.controlKey
    && h.toIrohId == to.irohId
    && h.fromControlKey != h.toControlKey
    && h.fromIrohId != h.toIrohId
    && p.applicationOk(h.application)
    && h.application == application
    && h.alpn == ALPN
    && ValidChallenge(h.sessionNonce)
    && ValidDigest(h.targetDigest)
    && h.targetDigest == RecordDigest(target)
    && BoundedWindow(h.iat, h.exp, now, MAX_HANDSHAKE_LIFETIME)
    && from.iat <= h.iat
    && to.iat <= h.iat
    && h.exp <= from.exp
    && h.exp <= to.exp
    && h.exp <= sender.locator.claims.exp
    && h.exp <= target.locator.claims.exp
  }

  predicate HelloVerify(h: Hello, sender: Record, target: Record, application: string, now: u64, p: Policy) {
    && p.helloBytes(h) <= MAX_HELLO_BYTES
    && HelloClaimsValid(h.claims, sender, target, application, now, p)
    && h.signature == Signed(sender.certificate.claims.controlKey, HelloPayload(h.claims))
  }

  predicate AckClaimsValid(
    k: AckClaims, initiator: Record, responder: Record, hello: Hello, application: string, now: u64, p: Policy)
  {
    var from, to := responder.certificate.claims, initiator.certificate.claims;
    && k.version == VERSION
    && HelloVerify(hello, initiator, responder, application, now, p)
    && k.fromIdentity == from.identity
    && k.toIdentity == to.identity
    && k.fromDeviceId == from.deviceId
    && k.fromControlKey == from.controlKey
    && k.fromIrohId == from.irohId
    && k.toDeviceId == to.deviceId
    && k.toControlKey == to.controlKey
    && k.toIrohId == to.irohId
    && p.applicationOk(k.application)
    && k.application == application
    && k.application == hello.claims.application
    && k.alpn == ALPN
    && k.alpn == hello.claims.alpn
    && ValidChallenge(k.sessionNonce)
    && ValidChallenge(k.responderNonce)
    && k.sessionNonce == hello.claims.sessionNonce
    && k.responderNonce != k.sessionNonce
    && ValidDigest(k.helloDigest)
    && ValidDigest(k.responderDigest)
    && k.helloDigest == HelloDigest(hello)
    && k.responderDigest == RecordDigest(responder)
    && BoundedWindow(k.iat, k.exp, now, MAX_HANDSHAKE_LIFETIME)
    && hello.claims.iat <= k.iat
    && k.exp <= hello.claims.exp
    && from.iat <= k.iat
    && to.iat <= k.iat
    && k.exp <= from.exp
    && k.exp <= to.exp
  }

  predicate AckVerify(
    k: Ack, responder: Record, initiator: Record, hello: Hello, application: string, now: u64, p: Policy)
  {
    && p.ackBytes(k) <= MAX_ACK_BYTES
    && AckClaimsValid(k.claims, initiator, responder, hello, application, now, p)
    && k.signature == Signed(responder.certificate.claims.controlKey, AckPayload(k.claims))
  }

  function InitiatorRecord(role: Role, own: Record, peer: Record): Record {
    if role == Initiator then own else peer
  }

  function ResponderRecord(role: Role, own: Record, peer: Record): Record {
    if role == Initiator then peer else own
  }

  predicate ProofClaimsValid(
    q: ProofClaims, own: Record, peer: Record, hello: Hello, role: Role, challenge: Base64Text, now: u64, p: Policy)
  {
    && q.version == VERSION
    && q.role == role
    && ValidChallenge(q.challenge)
    && q.challenge == challenge
    && q.challenge != hello.claims.sessionNonce
    && HelloVerify(hello, InitiatorRecord(role, own, peer), ResponderRecord(role, own, peer),
                   hello.claims.application, now, p)
    && ValidDigest(q.helloDigest)
    && ValidDigest(q.recordDigest)
    && ValidDigest(q.grantDigest)
    && ValidDigest(q.locatorDigest)
    && q.helloDigest == HelloDigest(hello)
    && q.recordDigest == RecordDigest(own)
    && q.grantDigest == GrantDigest(own.authorization)
    && q.locatorDigest == LocatorDigest(own.locator)
    && CurrentnessWindow(q.iat, q.exp, now)
    && hello.claims.iat <= q.iat
    && q.exp <= hello.claims.exp
    && q.exp <= own.locator.claims.exp
  }

  predicate ProofVerify(
    q: Proof, own: Record, peer: Record, hello: Hello, role: Role, challenge: Base64Text, now: u64, p: Policy)
  {
    && p.proofBytes(q) <= MAX_PROOF_BYTES
    && ProofClaimsValid(q.claims, own, peer, hello, role, challenge, now, p)
    && q.signature == Signed(own.certificate.claims.controlKey, ProofPayload(q.claims))
  }

  // ---------------------------------------------------------------- signing

  predicate OwnRecord(d: Credential, r: Record) {
    r.authorization == d.authorization && r.certificate == d.certificate
  }

  function SignLocator(
    d: Credential, relays: seq<RelayUrl>, nonce: Base64Text, sequence: u64, iat: u64, exp: u64, p: Policy)
    : Option<Locator>
  {
    var c := d.certificate.claims;
    var claims := LocatorClaims(
      VERSION, c.identity, GrantDigest(d.authorization), CertificateDigest(d.certificate), c.controlKey,
      c.irohId, relays, ALPN, nonce, sequence, iat, exp);
    if && CredentialVerify(d, iat, p)
       && LocatorClaimsValid(claims, d.authorization, d.certificate, c.identity, iat, p, None)
    then Some(Locator(claims, Signed(c.controlKey, LocatorPayload(claims))))
    else None
  }

  function HelloClaimsFor(
    sender: Record, target: Record, application: string, nonce: Base64Text, iat: u64, exp: u64): HelloClaims
  {
    var from, to := sender.certificate.claims, target.certificate.claims;
    HelloClaims(
      VERSION, sender, from.identity, from.deviceId, from.controlKey, from.irohId, to.identity, to.deviceId,
      to.controlKey, to.irohId, application, ALPN, nonce, RecordDigest(target), iat, exp)
  }

  function SignHello(
    d: Credential, sender: Record, target: Record, application: string, nonce: Base64Text, iat: u64, exp: u64,
    p: Policy)
    : Option<Hello>
  {
    var claims := HelloClaimsFor(sender, target, application, nonce, iat, exp);
    var hello := Hello(claims, Signed(d.certificate.claims.controlKey, HelloPayload(claims)));
    if && OwnRecord(d, sender)
       && RecordVerify(sender, d.certificate.claims.identity, iat, p, None)
       && RecordVerify(target, target.certificate.claims.identity, iat, p, None)
       && HelloClaimsValid(claims, sender, target, application, iat, p)
       && d.controlSecret == Some(d.certificate.claims.controlKey)
       && p.helloBytes(hello) <= MAX_HELLO_BYTES
    then Some(hello)
    else None
  }

  function AckClaimsFor(
    hello: Hello, initiator: Record, responder: Record, nonce: Base64Text, iat: u64, exp: u64): AckClaims
  {
    var from, to := responder.certificate.claims, initiator.certificate.claims;
    AckClaims(
      VERSION, from.identity, from.deviceId, from.controlKey, from.irohId, to.identity, to.deviceId,
      to.controlKey, to.irohId, hello.claims.application, ALPN, hello.claims.sessionNonce, nonce,
      HelloDigest(hello), RecordDigest(responder), iat, exp)
  }

  function SignAck(
    d: Credential, hello: Hello, initiator: Record, responder: Record, nonce: Base64Text, iat: u64, exp: u64,
    p: Policy)
    : Option<Ack>
  {
    var claims := AckClaimsFor(hello, initiator, responder, nonce, iat, exp);
    var ack := Ack(claims, Signed(d.certificate.claims.controlKey, AckPayload(claims)));
    if && OwnRecord(d, responder)
       && HelloVerify(hello, initiator, responder, hello.claims.application, iat, p)
       && AckClaimsValid(claims, initiator, responder, hello, claims.application, iat, p)
       && d.controlSecret == Some(d.certificate.claims.controlKey)
       && p.ackBytes(ack) <= MAX_ACK_BYTES
    then Some(ack)
    else None
  }

  function ProofClaimsFor(
    own: Record, hello: Hello, role: Role, challenge: Base64Text, iat: u64, exp: u64): ProofClaims
  {
    ProofClaims(
      VERSION, role, challenge, HelloDigest(hello), RecordDigest(own), GrantDigest(own.authorization),
      LocatorDigest(own.locator), iat, exp)
  }

  function SignProof(
    d: Credential, own: Record, peer: Record, hello: Hello, role: Role, challenge: Base64Text, iat: u64, exp: u64,
    p: Policy)
    : Option<Proof>
  {
    var claims := ProofClaimsFor(own, hello, role, challenge, iat, exp);
    var proof := Proof(claims, Signed(d.certificate.claims.controlKey, ProofPayload(claims)));
    if && OwnRecord(d, own)
       && ProofClaimsValid(claims, own, peer, hello, role, challenge, iat, p)
       && d.controlSecret == Some(d.certificate.claims.controlKey)
       && p.proofBytes(proof) <= MAX_PROOF_BYTES
    then Some(proof)
    else None
  }

  // ---------------------------------------------------------------- paths and session ids

  /** `V1SignedCurrentnessProof::path`. */
  function ProofPath(q: Proof): Path {
    CurrentnessPath(q.claims.role, q.claims.challenge, q.claims.helloDigest, q.claims.recordDigest,
                    q.claims.grantDigest, q.claims.locatorDigest)
  }

  /** `currentness_path`: the path a peer derives before it has seen the proof. */
  function DerivedPath(role: Role, challenge: Base64Text, hello: Hello, record: Record): Path {
    CurrentnessPath(role, challenge, HelloDigest(hello), RecordDigest(record),
                    GrantDigest(record.authorization), LocatorDigest(record.locator))
  }

  /** `nonce_uuid`: the first sixteen decoded bytes, whatever the spelling. */
  function SessionId(nonce: Base64Text): Option<seq<byte>> {
    match nonce
    case Undecodable(_) => None
    case NonCanonical(_, bytes) => if |bytes| < 16 then None else Some(bytes[..16])
    case Canonical(bytes) => if |bytes| < 16 then None else Some(bytes[..16])
  }
}
