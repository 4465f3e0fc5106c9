/**
  The compact JWS spelling of a Grant (crates/protocol/src/v1.rs, `decode_canonical_base64` and
  the parsing half of `V1Authorization::verify`; section 7.1 of RFC 7515).

  The base64url and JSON codecs are arbitrary functions: nothing below assumes that they
  invert each other, only what the parser itself compares.
*/
module Jws {
  import opened Base
  import opened Text

  const MAX_GRANT_BYTES: int := 16 * 1024
  const SIGNATURE_BYTES: int := 64

  datatype Header = Header(alg: string, typ: string)

  /** The library calls the parser makes; `C` is the type of Grant claims. */
  datatype Codec<!C(==)> = Codec(
    decode64: string -> Option<seq<byte>>,
    encode64: seq<byte> -> string,
    parseHeader: seq<byte> -> Option<Header>,
    headerJson: seq<byte>,
    parseClaims: seq<byte> -> Option<C>,
    claimsJson: C -> seq<byte>)

  datatype Error = SizeError | ShapeError | HeaderError | PayloadError | SignatureError

  /** What is left of a `split` iterator: the text not yet handed out, or nothing after the last segment. */
  type Parts = Option<string>

  datatype Step = Step(segment: Option<string>, rest: Parts)

  /** `Split::next`. */
  function NextPart(parts: Parts): Step {
    if parts.None? then Step(None, None) else
    match SplitOnce(parts.value, '.')
    case None => Step(Some(parts.value), None)
    case Some(s) => Step(Some(s.before), Some(s.after))
  }

  datatype Segments = Segments(header: string, payload: string, signature: string)

  /** Three segments, none empty, and no fourth. */
  function ThreeSegments(jws: string): Option<Segments> {
    var first := NextPart(Some(jws));
    if first.segment.None? then None else
    var second := NextPart(first.rest);
    if second.segment.None? then None else
    var third := NextPart(second.rest);
    if third.segment.None? then None else
    if || NextPart(third.rest).segment.Some?
       || first.segment.value == ""
       || second.segment.value == ""
       || third.segment.value == ""
    then None
    else Some(Segments(first.segment.value, second.segment.value, third.segment.value))
  }

  function Joined(s: Segments): string {
    s.header + "." + s.payload + "." + s.signature
  }

  /** `decode_canonical_base64`. */
  function DecodeCanonical<C>(value: string, codec: Codec<C>): Option<seq<byte>> {
    var bytes := codec.decode64(value);
    if bytes.Some? && codec.encode64(bytes.value) == value then bytes else None
  }

  /** A parsed Grant; `signed` is the exact text its signature must cover. */
  datatype Parsed<C> = Parsed(claims: C, signature: seq<byte>, signed: string)

  /** `V1Authorization::verify` up to the signature check. */
  function Parse<C>(jws: string, codec: Codec<C>): Result<Parsed<C>, Error> {
    if |jws| == 0 || |jws| > MAX_GRANT_BYTES then Err(SizeError) else
    var segments := ThreeSegments(jws);
    if segments.None? then Err(ShapeError) else
    var headerBytes := DecodeCanonical(segments.value.header, codec);
    if headerBytes.None? then Err(HeaderError) else
    var header := codec.parseHeader(headerBytes.value);
    if header.None? then Err(HeaderError) else
    if header.value != Header("EdDSA", "pubky-grant") || headerBytes.value != codec.headerJson
    then Err(HeaderError) else
    var payloadBytes := DecodeCanonical(segments.value.payload, codec);
    if payloadBytes.None? then Err(PayloadError) else
    var claims := codec.parseClaims(payloadBytes.value);
    if claims.None? then Err(PayloadError) else
    if codec.claimsJson(claims.value) != payloadBytes.value then Err(PayloadError) else
    var signature := DecodeCanonical(segments.value.signature, codec);
    if signature.None? || |signature.value| != SIGNATURE_BYTES then Err(SignatureError) else
    Ok(Parsed(claims.value, signature.value, segments.value.header + "." + segments.value.payload))
  }

  // ---------------------------------------------------------------- one spelling

  predicate DotFree(text: string) {
    text != "" && '.' !in text
  }

  /** What one step of the iterator hands out: the text up to the next dot, or all of it. */
  lemma NextPartExact(text: string)
    ensures var s := NextPart(Some(text));
            && s.segment.Some?
            && '.' !in s.segment.value
            && (if s.rest.Some? then text == s.segment.value + "." + s.rest.value else text == s.segment.value)
  {
    SplitOnceParts(text, '.');
  }

  lemma NextPartJoined(segment: string, rest: string)
    requires '.' !in segment
    ensures NextPart(Some(segment + "." + rest)) == Step(Some(segment), Some(rest))
    ensures NextPart(Some(segment)) == Step(Some(segment), None)
  {
    SplitOnceJoin(segment, '.', rest);
    SplitOnceParts(segment, '.');
  }

  predicate WellShaped(s: Segments) {
    DotFree(s.header) && DotFree(s.payload) && DotFree(s.signature)
  }

  lemma ThreeSegmentsRejoin(jws: string)
    requires ThreeSegments(jws).Some?
    ensures WellShaped(ThreeSegments(jws).value) && Joined(ThreeSegments(jws).value) == jws
  {
    hide SplitOnce;
    hide NextPart;
    var first := NextPart(Some(jws));
    NextPartExact(jws);
    ExhaustedStays();
    var second := NextPart(first.rest);
    NextPartExact(first.rest.value);
    NextPartExact(second.rest.value);
    var third := NextPart(second.rest);
    if third.rest.Some? { NextPartExact(third.rest.value); }
    var s := ThreeSegments(jws).value;
    assert jws == s.header + "." + (s.payload + "." + s.signature);
  }

  lemma ExhaustedStays()
    ensures NextPart(None).segment.None?
  {
  }

  lemma ThreeSegmentsFind(s: Segments)
    requires WellShaped(s)
    ensures ThreeSegments(Joined(s)) == Some(s)
  {
    hide SplitOnce;
    hide NextPart;
    var tail := s.payload + "." + s.signature;
    assert Joined(s) == s.header + "." + tail;
    NextPartJoined(s.header, tail);
    NextPartJoined(s.payload, s.signature);
    NextPartJoined(s.signature, "");
    ExhaustedStays();
  }

  /** The iterator accepts exactly the texts that three nonempty dot-free segments join to, and returns them. */
  lemma ThreeSegmentsExact(jws: string, s: Segments)
    ensures ThreeSegments(jws) == Some(s) <==> jws == Joined(s) && WellShaped(s)
  {
    hide ThreeSegments;
    if ThreeSegments(jws) == Some(s) { ThreeSegmentsRejoin(jws); }
    if WellShaped(s) { ThreeSegmentsFind(s); }
  }

  /** Every accepted text is the join of three nonempty dot-free segments, and those are the ones it is read by. */
  lemma AcceptedShape<C>(jws: string, codec: Codec<C>) returns (s: Segments)
    requires Parse(jws, codec).Ok?
    ensures jws == Joined(s) && WellShaped(s)
    ensures forall t :: jws == Joined(t) && WellShaped(t) ==> t == s
    ensures Parse(jws, codec).value.signed == s.header + "." + s.payload
    ensures 1 <= |jws| <= 16_384 && |Parse(jws, codec).value.signature| == 64
    ensures codec.decode64(s.header) == Some(codec.headerJson)
    ensures codec.parseHeader(codec.headerJson) == Some(Header("EdDSA", "pubky-grant"))
  {
    s := ThreeSegments(jws).value;
    ThreeSegmentsExact(jws, s);
    forall t | jws == Joined(t) && WellShaped(t) ensures t == s {
      ThreeSegmentsExact(jws, t);
    }
  }

  /** The one text a Grant may be spelled as. */
  function Spelling<C>(claims: C, signature: seq<byte>, codec: Codec<C>): string {
    Joined(Segments(
      codec.encode64(codec.headerJson), codec.encode64(codec.claimsJson(claims)), codec.encode64(signature)))
  }

  /** An accepted text is a function of its claims and signature bytes. */
  lemma AcceptedIsSpelling<C>(jws: string, codec: Codec<C>)
    requires Parse(jws, codec).Ok?
    ensures jws == Spelling(Parse(jws, codec).value.claims, Parse(jws, codec).value.signature, codec)
  {
    var s := AcceptedShape(jws, codec);
    ThreeSegmentsExact(jws, s);
  }

  /** Two accepted texts with equal claims and equal signature bytes are the same text. */
  lemma OneSpelling<C>(a: string, b: string, codec: Codec<C>)
    requires Parse(a, codec).Ok? && Parse(b, codec).Ok?
    requires Parse(a, codec).value.claims == Parse(b, codec).value.claims
    requires Parse(a, codec).value.signature == Parse(b, codec).value.signature
    ensures a == b
  {
    AcceptedIsSpelling(a, codec);
    AcceptedIsSpelling(b, codec);
  }

  /** Where the codecs do invert each other, every Grant that fits has its spelling accepted and read back. */
  lemma SpellingAccepted<C>(claims: C, signature: seq<byte>, codec: Codec<C>)
    requires forall bytes :: codec.decode64(codec.encode64(bytes)) == Some(bytes)
    requires forall bytes :: DotFree(codec.encode64(bytes)) || bytes == []
    requires codec.parseHeader(codec.headerJson) == Some(Header("EdDSA", "pubky-grant")) && codec.headerJson != []
    requires codec.parseClaims(codec.claimsJson(claims)) == Some(claims) && codec.claimsJson(claims) != []
    requires |signature| == SIGNATURE_BYTES
    requires |Spelling(claims, signature, codec)| <= MAX_GRANT_BYTES
    ensures Parse(Spelling(claims, signature, codec), codec).Ok?
    ensures Parse(Spelling(claims, signature, codec), codec).value.claims == claims
    ensures Parse(Spelling(claims, signature, codec), codec).value.signature == signature
  {
    var s := Segments(
      codec.encode64(codec.headerJson), codec.encode64(codec.claimsJson(claims)), codec.encode64(signature));
    ThreeSegmentsExact(Spelling(claims, signature, codec), s);
  }
}
