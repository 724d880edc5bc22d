/** The receiving side of the requests, written from ETSI TS 102 941 with the verifier's own
    functions, and the proof that every request the client emits is accepted. */
module Authorities {
  import opened Basics
  import opened Sizes
  import opened Asn
  import opened PlatformModel
  import opened CurvePoints
  import opened CertParse
  import opened Ecies
  import opened SignedMessages
  import opened SignedEnvelopes
  import opened EncryptedMessages
  import opened Requests

  /** An authority opens what is addressed to it, with P1 the hash of its own certificate. */
  function OpenOwn(p: Platform, d: Ieee1609Dot2Data, own: CertInfo, priv: Bytes): Option<(Bytes, Bytes)> {
    OpenedFor(p, d, own.hashedId8, priv, p.sha256(own.certBytes))
  }

  function OpenRequest(p: Platform, request: Bytes, own: CertInfo, priv: Bytes): Option<(Bytes, Bytes)> {
    var d :- p.decData(request);
    OpenOwn(p, d, own, priv)
  }

  /** The body of EtsiTs102941Data with the expected content tag. */
  function Tagged(payload: Bytes, tag: bv8): Option<Bytes> {
    if |payload| > 2 && payload[0] == 0x01 && payload[1] == tag then Some(payload[2..]) else None
  }

  /** A self-signed message proves possession of the embedded key, on that key's curve. */
  predicate ProvesPossession(p: Platform, m: SignedMessage, key: PublicVerificationKey) {
    var (curve, sec1) := ParsedKey(Some(VerificationKey(Some(key))));
    !m.hasSignerDigest && m.sigCurve == curve && Verifies(p, m, sec1, [])
  }

  /** The EA's view of an enrolment request: content key and inner request, if everything checks. */
  function EaAcceptsEnrolment(p: Platform, request: Bytes, ea: CertInfo, eaPriv: Bytes)
    : Option<(Bytes, InnerEcRequest)>
  {
    var (key, plaintext) :- OpenRequest(p, request, ea, eaPriv);
    var outer :- Unwrapped(p, plaintext);
    var popBytes :- Tagged(outer.payload, 0x80);
    var pop :- Unwrapped(p, popBytes);
    var inner :- p.decInnerEc(pop.payload);
    if && WellFramed(p, plaintext) && ProvesPossession(p, outer, inner.verificationKey)
       && WellFramed(p, popBytes) && ProvesPossession(p, pop, inner.verificationKey)
    then Some((key, inner)) else None
  }

  /** The AA's view of an authorization request. */
  function AaAcceptsAuthorization(p: Platform, request: Bytes, aa: CertInfo, aaPriv: Bytes)
    : Option<(Bytes, InnerAtRequest)>
  {
    var (key, plaintext) :- OpenRequest(p, request, aa, aaPriv);
    var outer :- Unwrapped(p, plaintext);
    var innerBytes :- Tagged(outer.payload, 0x82);
    var inner :- p.decInnerAt(innerBytes);
    if && WellFramed(p, plaintext) && ProvesPossession(p, outer, inner.verificationKey)
       && inner.shared.keyTag == p.hmac(inner.hmacKey, p.encKey(inner.verificationKey))[..16]
    then Some((key, inner)) else None
  }

  /** The enrolled station signed this very shared request. */
  predicate SignedByEc(p: Platform, signed: Bytes, shared: SharedAtRequest, ec: CertInfo) {
    var d := p.decData(signed);
    && WellFramed(p, signed) && d.Some? && SignedContent(d.value).Some?
    && var sd := SignedContent(d.value).value;
    && sd.tbsData.Some? && sd.tbsData.value.payload.Some?
    && var m := SignedFields(p, sd, sd.tbsData.value, []);
    && sd.tbsData.value.payload.value.extDataHash == Some(ExpectedHash(p, shared, m.sigCurve))
    && m.hasSignerDigest == (ec.certBytes != []) && (m.hasSignerDigest ==> m.signerHid8 == ec.hashedId8)
    && Verifies(p, m, ec.publicKey, ec.certBytes)
  }

  /** The EA's check, on the AA's behalf: the request designates it, it can open its part, and the
      enrolled station signed the shared request. */
  predicate EaValidates(p: Platform, inner: InnerAtRequest, ea: CertInfo, eaPriv: Bytes, ec: CertInfo) {
    var part := OpenOwn(p, inner.encryptedEcSignature, ea, eaPriv);
    inner.shared.eaId == ea.hashedId8 && part.Some? && SignedByEc(p, part.value.1, inner.shared, ec)
  }

  function ExpectedHash(p: Platform, shared: SharedAtRequest, curve: Curve): HashedData {
    if Is384(curve) then Sha384HashedData(p.sha384(p.encShared(shared)))
    else Sha256HashedData(p.sha256(p.encShared(shared)))
  }

  // --- Acceptance ---

  /** The private key of the key a sender would encrypt to. */
  predicate OpensFor(p: Platform, cert: CertInfo, priv: Bytes) {
    && IsP256Size(cert.encCurve)
    && KeysMatch(p, cert.encCurve, if cert.encryptionKey == [] then cert.publicKey else cert.encryptionKey, priv)
  }

  lemma EncryptedToOwner(p: Platform, cert: CertInfo, priv: Bytes, plaintext: Bytes, rnd: EciesEntropy,
                         sent: (Ieee1609Dot2Data, Bytes))
    requires p.Lawful() && OpensFor(p, cert, priv)
    requires EncryptTo(p, cert, plaintext, rnd) == Ok(sent)
    ensures OpenOwn(p, sent.0, cert, priv) == Some((sent.1, plaintext))
    ensures sent.1 == rnd.aesKey
  {
    var key := if cert.encryptionKey == [] then cert.publicKey else cert.encryptionKey;
    var p1 := p.sha256(cert.certBytes);
    var e := EciesEncrypted(p, key, plaintext, p1, cert.encCurve, rnd).value;
    WireRoundTrip(p, key, priv, plaintext, p1, cert.encCurve, rnd, cert.hashedId8, e);
  }

  lemma FinishedOpens(p: Platform, cert: CertInfo, priv: Bytes, plaintext: Bytes, rnd: EciesEntropy,
                      sent: (Ieee1609Dot2Data, Bytes), r: Encoded)
    requires p.Lawful() && OpensFor(p, cert, priv)
    requires EncryptTo(p, cert, plaintext, rnd) == Ok(sent) && Finish(p, sent.0, sent.1) == Ok(r)
    ensures OpenRequest(p, r.bytes, cert, priv) == Some((r.aesKey, plaintext))
    ensures r.bytes != [] && r.aesKey == rnd.aesKey
  {
    EncryptedToOwner(p, cert, priv, plaintext, rnd, sent);
  }

  /** A self-signed envelope proves possession of the key that travels next to it, compressed. */
  lemma SelfSignedProves(p: Platform, payload: Bytes, key: Bytes, priv: Bytes, curve: Curve, rnd: SignEntropy)
    requires p.Lawful() && curve != NistP384 && payload != [] && key == p.publicOf(curve, priv)
    requires SelfSigned(p, payload, priv, curve, rnd) != []
    ensures var m := Unwrapped(p, SelfSigned(p, payload, priv, curve, rnd));
            m.Some? && m.value.payload == payload && ProvesPossession(p, m.value, KeyNode(curve, key))
    ensures WellFramed(p, SelfSigned(p, payload, priv, curve, rnd))
  {
    EnvelopeFramed(p, payload, [], priv, [], ZERO_HID8, curve, rnd);
    var sd, rs := EnvelopeDecodes(p, UnsecuredTbs(payload, rnd.generationTime), priv, [], ZERO_HID8, curve, rnd.nonce,
                                  payload);
    CompressedKeyMatches(p, curve, priv);
    var sec1 := ToSec1(FromSec1(key, ScalarLen(curve)), ScalarLen(curve));
    assert |sec1| == CompressedLen(curve);
    SignThenVerify(p, payload, sec1, priv, [], ZERO_HID8, curve, rnd);
  }

  /** What a successful encoding went through, outermost layer last. */
  lemma EnrolmentLayers(p: Platform, desc: EcDescription, ea: CertInfo, priv: Bytes, rnd: EcEntropy, r: Encoded)
      returns (pop: Bytes, outer: Bytes, sent: (Ieee1609Dot2Data, Bytes))
    requires EcRequest(p, desc, ea, priv, rnd) == Ok(r)
    ensures p.encInnerEc(InnerEc(desc)) != []
    ensures pop == SelfSigned(p, p.encInnerEc(InnerEc(desc)), priv, desc.curve, rnd.pop) && pop != []
    ensures outer == SelfSigned(p, [0x01, 0x80] + pop, priv, desc.curve, rnd.outer) && outer != []
    ensures EncryptTo(p, ea, outer, rnd.ecies) == Ok(sent) && Finish(p, sent.0, sent.1) == Ok(r)
  {
    pop := SelfSigned(p, p.encInnerEc(InnerEc(desc)), priv, desc.curve, rnd.pop);
    outer := SelfSigned(p, [0x01, 0x80] + pop, priv, desc.curve, rnd.outer);
    sent := EncryptTo(p, ea, outer, rnd.ecies).value;
  }

  lemma EaChecks(p: Platform, request: Bytes, ea: CertInfo, eaPriv: Bytes, key: Bytes, outer: Bytes, pop: Bytes,
                 inner: InnerEcRequest)
    requires OpenRequest(p, request, ea, eaPriv) == Some((key, outer))
    requires Unwrapped(p, outer).Some? && Unwrapped(p, outer).value.payload == [0x01, 0x80] + pop && pop != []
    requires Unwrapped(p, pop).Some? && p.decInnerEc(Unwrapped(p, pop).value.payload) == Some(inner)
    requires ProvesPossession(p, Unwrapped(p, outer).value, inner.verificationKey)
    requires ProvesPossession(p, Unwrapped(p, pop).value, inner.verificationKey)
    requires WellFramed(p, outer) && WellFramed(p, pop)
    ensures EaAcceptsEnrolment(p, request, ea, eaPriv) == Some((key, inner))
  {
    assert Tagged([0x01, 0x80] + pop, 0x80) == Some(pop);
  }

  /** Every enrolment request the client emits is accepted by its EA, which thereby learns the
      request as described and the key for the response. */
  lemma EnrolmentAccepted(p: Platform, desc: EcDescription, ea: CertInfo, priv: Bytes, rnd: EcEntropy,
                          eaPriv: Bytes, r: Encoded)
    requires p.Lawful() && desc.curve != NistP384 && desc.verificationKey == p.publicOf(desc.curve, priv)
    requires OpensFor(p, ea, eaPriv)
    requires EcRequest(p, desc, ea, priv, rnd) == Ok(r)
    ensures EaAcceptsEnrolment(p, r.bytes, ea, eaPriv) == Some((r.aesKey, InnerEc(desc)))
    ensures r.bytes != []
  {
    var pop, outer, sent := EnrolmentLayers(p, desc, ea, priv, rnd, r);
    var inner := p.encInnerEc(InnerEc(desc));
    FinishedOpens(p, ea, eaPriv, outer, rnd.ecies, sent, r);
    SelfSignedProves(p, [0x01, 0x80] + pop, desc.verificationKey, priv, desc.curve, rnd.outer);
    SelfSignedProves(p, inner, desc.verificationKey, priv, desc.curve, rnd.pop);
    EaChecks(p, r.bytes, ea, eaPriv, r.aesKey, outer, pop, InnerEc(desc));
  }

  /** What the EC signs: the double hash over the external payload, and its own certificate. */
  function EcDigest(p: Platform, sharedCoer: Bytes, ec: CertInfo, curve: Curve, generationTime: int): (r: Bytes)
    ensures |r| == HashLen(curve)
  {
    var tbs := ExternalTbs(HashForCurve(p, sharedCoer, curve), curve, generationTime);
    DoubleHash(p, CurveHash(curve), p.encTbsData(tbs), ec.certBytes)
  }

  /** The EC's certificate vouches for the request: it is filed under its own identity, and its key
      verifies what the private key signed, on the curve of the ticket as that is read back. */
  predicate EcVouches(p: Platform, desc: AtDescription, ec: CertInfo, ecPriv: Bytes, rnd: SignEntropy) {
    var digest := EcDigest(p, p.encShared(Shared(p, desc)), ec, desc.curve, rnd.generationTime);
    var rs := p.sign(desc.curve, ecPriv, digest, rnd.nonce);
    && OwnHid8(p, ec.certBytes, ec.hashedId8)
    && EcdsaVerifyDigest(p, ec.publicKey, digest, rs.0, rs.1, ReadBackCurve(desc.curve))
  }

  lemma SignedByEcIff(p: Platform, desc: AtDescription, ec: CertInfo, ecPriv: Bytes, rnd: SignEntropy, signed: Bytes)
    requires p.Lawful() && signed != []
    requires signed
          == ExternalPayload(p, HashForCurve(p, p.encShared(Shared(p, desc)), desc.curve), ec, ecPriv, desc.curve, rnd)
    ensures SignedByEc(p, signed, Shared(p, desc), ec) <==> EcVouches(p, desc, ec, ecPriv, rnd)
  {
    var tbs := ExternalTbs(HashForCurve(p, p.encShared(Shared(p, desc)), desc.curve), desc.curve, rnd.generationTime);
    var sd, rs := EnvelopeDecodes(p, tbs, ecPriv, ec.certBytes, ec.hashedId8, desc.curve, rnd.nonce, []);
    EnvelopeFramed(p, [], HashForCurve(p, p.encShared(Shared(p, desc)), desc.curve), ecPriv, ec.certBytes, ec.hashedId8,
                   desc.curve, rnd);
  }

  /** The EA validates a request exactly when it is the EA named in it and the EC vouches for it. */
  lemma EcSignatureValidatesIff(p: Platform, desc: AtDescription, ea: CertInfo, ec: CertInfo, ecPriv: Bytes,
                                rnd: AtEntropy, eaPriv: Bytes, inner: InnerAtRequest)
    requires p.Lawful() && OpensFor(p, ea, eaPriv) && inner.shared == Shared(p, desc)
    requires EcSignature(p, p.encShared(inner.shared), ea, ec, ecPriv, desc.curve, rnd)
          == Ok(inner.encryptedEcSignature)
    ensures EaValidates(p, inner, ea, eaPriv, ec) <==>
            desc.eaHid8 == ea.hashedId8 && EcVouches(p, desc, ec, ecPriv, rnd.ext)
  {
    var hash := HashForCurve(p, p.encShared(inner.shared), desc.curve);
    var signed := ExternalPayload(p, hash, ec, ecPriv, desc.curve, rnd.ext);
    var sent := EncryptTo(p, ea, signed, rnd.eciesEa).value;
    EncryptedToOwner(p, ea, eaPriv, signed, rnd.eciesEa, sent);
    SignedByEcIff(p, desc, ec, ecPriv, rnd.ext, signed);
  }

  /** The private key is that of the certificate, on this curve. */
  predicate Signs(p: Platform, curve: Curve, cert: CertInfo, priv: Bytes) {
    KeysMatch(p, curve, cert.publicKey, priv) && OwnHid8(p, cert.certBytes, cert.hashedId8)
  }

  /** A caller can tell beforehand: an EC key pair on the ticket's curve vouches, and an EC key that
      is no point of that curve does not. */
  lemma EcVouchesByCurve(p: Platform, desc: AtDescription, ec: CertInfo, ecPriv: Bytes, rnd: SignEntropy)
    requires p.Lawful()
    ensures desc.curve != NistP384 && Signs(p, desc.curve, ec, ecPriv) ==> EcVouches(p, desc, ec, ecPriv, rnd)
    ensures ImportPublic(p, ReadBackCurve(desc.curve), ec.publicKey).None? ==> !EcVouches(p, desc, ec, ecPriv, rnd)
  {
    if desc.curve != NistP384 && Signs(p, desc.curve, ec, ecPriv) {
      var digest := EcDigest(p, p.encShared(Shared(p, desc)), ec, desc.curve, rnd.generationTime);
      SignatureVerifies(p, ec.publicKey, ecPriv, digest, desc.curve, rnd.nonce);
    }
  }

  lemma AaChecks(p: Platform, request: Bytes, aa: CertInfo, aaPriv: Bytes, key: Bytes, outer: Bytes, body: Bytes,
                 inner: InnerAtRequest)
    requires OpenRequest(p, request, aa, aaPriv) == Some((key, outer))
    requires Unwrapped(p, outer).Some? && Unwrapped(p, outer).value.payload == [0x01, 0x82] + body && body != []
    requires p.decInnerAt(body) == Some(inner)
    requires ProvesPossession(p, Unwrapped(p, outer).value, inner.verificationKey)
    requires inner.shared.keyTag == p.hmac(inner.hmacKey, p.encKey(inner.verificationKey))[..16] && WellFramed(p, outer)
    ensures AaAcceptsAuthorization(p, request, aa, aaPriv) == Some((key, inner))
  {
    assert Tagged([0x01, 0x82] + body, 0x82) == Some(body);
  }

  lemma AuthorizationLayers(p: Platform, desc: AtDescription, aa: CertInfo, ea: CertInfo, ec: CertInfo, ecPriv: Bytes,
                            atPriv: Bytes, rnd: AtEntropy, r: Encoded)
      returns (inner: InnerAtRequest, outer: Bytes, sent: (Ieee1609Dot2Data, Bytes))
    requires p.CodecLaws() && AtRequest(p, desc, aa, ea, ec, ecPriv, atPriv, rnd) == Ok(r)
    ensures inner.verificationKey == KeyNode(desc.curve, desc.verificationKey)
    ensures inner.hmacKey == desc.hmacKey && inner.shared == Shared(p, desc)
    ensures EcSignature(p, p.encShared(inner.shared), ea, ec, ecPriv, desc.curve, rnd) == Ok(inner.encryptedEcSignature)
    ensures p.encInnerAt(inner) != []
    ensures outer == SelfSigned(p, [0x01, 0x82] + p.encInnerAt(inner), atPriv, desc.curve, rnd.pop) && outer != []
    ensures EncryptTo(p, aa, outer, rnd.eciesAa) == Ok(sent) && Finish(p, sent.0, sent.1) == Ok(r)
  {
    var shared := Shared(p, desc);
    assert p.decShared(p.encShared(shared)) == Some(shared);
    var ecSig := EcSignature(p, p.encShared(shared), ea, ec, ecPriv, desc.curve, rnd).value;
    inner := InnerAtRequest(KeyNode(desc.curve, desc.verificationKey), desc.hmacKey, shared, ecSig);
    outer := SelfSigned(p, [0x01, 0x82] + p.encInnerAt(inner), atPriv, desc.curve, rnd.pop);
    sent := EncryptTo(p, aa, outer, rnd.eciesAa).value;
  }

  /** The inner request as the AA sees it. */
  predicate Sees(p: Platform, seen: Option<(Bytes, InnerAtRequest)>, desc: AtDescription, aesKey: Bytes) {
    && seen.Some? && seen.value.0 == aesKey
    && seen.value.1.shared == Shared(p, desc) && seen.value.1.hmacKey == desc.hmacKey
    && seen.value.1.verificationKey == KeyNode(desc.curve, desc.verificationKey)
    && seen.value.1.shared.keyTag == p.hmac(desc.hmacKey, p.encKey(KeyNode(desc.curve, desc.verificationKey)))[..16]
  }

  /** Both authorities are content: the AA accepts, and the EA validates what the AA saw. */
  predicate Granted(p: Platform, request: Bytes, aa: CertInfo, aaPriv: Bytes, ea: CertInfo, eaPriv: Bytes,
                    ec: CertInfo) {
    var seen := AaAcceptsAuthorization(p, request, aa, aaPriv);
    seen.Some? && EaValidates(p, seen.value.1, ea, eaPriv, ec)
  }

  /** Every authorization request the client emits is accepted by the AA: it opens it, sees possession
      of the new key proved and the key tag recomputed. The EA opens the inner part and is content
      exactly when it is the one named and the EC's key verifies what the EC signed, which is
      the very shared request the AA holds. */
  lemma AuthorizationAccepted(p: Platform, desc: AtDescription, aa: CertInfo, ea: CertInfo, ec: CertInfo, ecPriv: Bytes,
                              atPriv: Bytes, rnd: AtEntropy, aaPriv: Bytes, eaPriv: Bytes, r: Encoded)
    requires p.Lawful() && desc.curve != NistP384 && desc.verificationKey == p.publicOf(desc.curve, atPriv)
    requires OpensFor(p, aa, aaPriv) && OpensFor(p, ea, eaPriv)
    requires AtRequest(p, desc, aa, ea, ec, ecPriv, atPriv, rnd) == Ok(r)
    ensures Sees(p, AaAcceptsAuthorization(p, r.bytes, aa, aaPriv), desc, r.aesKey)
    ensures Granted(p, r.bytes, aa, aaPriv, ea, eaPriv, ec) <==>
            desc.eaHid8 == ea.hashedId8 && EcVouches(p, desc, ec, ecPriv, rnd.ext)
    ensures r.bytes != []
  {
    var inner, outer, sent := AuthorizationLayers(p, desc, aa, ea, ec, ecPriv, atPriv, rnd, r);
    FinishedOpens(p, aa, aaPriv, outer, rnd.eciesAa, sent, r);
    SelfSignedProves(p, [0x01, 0x82] + p.encInnerAt(inner), desc.verificationKey, atPriv, desc.curve, rnd.pop);
    AaChecks(p, r.bytes, aa, aaPriv, r.aesKey, outer, p.encInnerAt(inner), inner);
    EcSignatureValidatesIff(p, desc, ea, ec, ecPriv, rnd, eaPriv, inner);
  }

  // --- The fourth curve ---

  /** The record validator admits NIST P-384, but the encoder has no variant for such a key and sends
      the request without one: no authority can accept it. */
  lemma NistP384NeverAccepted(p: Platform, desc: AtDescription, aa: CertInfo, ea: CertInfo, ec: CertInfo, ecPriv: Bytes,
                              atPriv: Bytes, rnd: AtEntropy, aaPriv: Bytes, r: Encoded)
    requires p.Lawful() && desc.curve == NistP384 && |desc.verificationKey| == PubkeyLen(NistP384)
    requires OpensFor(p, aa, aaPriv)
    requires AtRequest(p, desc, aa, ea, ec, ecPriv, atPriv, rnd) == Ok(r)
    ensures AaAcceptsAuthorization(p, r.bytes, aa, aaPriv) == None
  {
    var inner, outer, sent := AuthorizationLayers(p, desc, aa, ea, ec, ecPriv, atPriv, rnd, r);
    FinishedOpens(p, aa, aaPriv, outer, rnd.eciesAa, sent, r);
    SelfSignedUnwraps(p, [0x01, 0x82] + p.encInnerAt(inner), atPriv, NistP384, rnd.pop);
    AaRefuses(p, r.bytes, aa, aaPriv, r.aesKey, outer, p.encInnerAt(inner), inner);
  }

  lemma SelfSignedUnwraps(p: Platform, payload: Bytes, priv: Bytes, curve: Curve, rnd: SignEntropy)
    requires p.Lawful() && payload != [] && SelfSigned(p, payload, priv, curve, rnd) != []
    ensures p.PrivateOk(curve, priv)
    ensures var m := Unwrapped(p, SelfSigned(p, payload, priv, curve, rnd)); m.Some? && m.value.payload == payload
  {
    var sd, rs := EnvelopeDecodes(p, UnsecuredTbs(payload, rnd.generationTime), priv, [], ZERO_HID8, curve, rnd.nonce,
                                  payload);
  }

  lemma AaRefuses(p: Platform, request: Bytes, aa: CertInfo, aaPriv: Bytes, key: Bytes, outer: Bytes, body: Bytes,
                  inner: InnerAtRequest)
    requires OpenRequest(p, request, aa, aaPriv) == Some((key, outer))
    requires Unwrapped(p, outer).Some? && Unwrapped(p, outer).value.payload == [0x01, 0x82] + body && body != []
    requires p.decInnerAt(body) == Some(inner) && inner.verificationKey == VkNistP256(None)
    ensures AaAcceptsAuthorization(p, request, aa, aaPriv) == None
  {
    assert Tagged([0x01, 0x82] + body, 0x82) == Some(body);
    assert !ProvesPossession(p, Unwrapped(p, outer).value, inner.verificationKey);
  }

  lemma EaRefuses(p: Platform, request: Bytes, ea: CertInfo, eaPriv: Bytes, key: Bytes, outer: Bytes, pop: Bytes,
                  inner: InnerEcRequest)
    requires OpenRequest(p, request, ea, eaPriv) == Some((key, outer))
    requires Unwrapped(p, outer).Some? && Unwrapped(p, outer).value.payload == [0x01, 0x80] + pop && pop != []
    requires Unwrapped(p, pop).Some? && p.decInnerEc(Unwrapped(p, pop).value.payload) == Some(inner)
    requires inner.verificationKey == VkNistP256(None)
    ensures EaAcceptsEnrolment(p, request, ea, eaPriv) == None
  {
    assert Tagged([0x01, 0x80] + pop, 0x80) == Some(pop);
    assert !ProvesPossession(p, Unwrapped(p, outer).value, inner.verificationKey);
  }

  /** The same for enrolment: with a key of the record's curve, the EA accepts exactly the requests
      on the other three curves. */
  lemma EnrolmentAcceptedIff(p: Platform, desc: EcDescription, ea: CertInfo, priv: Bytes, rnd: EcEntropy,
                             eaPriv: Bytes, r: Encoded)
    requires p.Lawful() && desc.verificationKey == p.publicOf(desc.curve, priv) && OpensFor(p, ea, eaPriv)
    requires EcRequest(p, desc, ea, priv, rnd) == Ok(r)
    ensures EaAcceptsEnrolment(p, r.bytes, ea, eaPriv).Some? <==> desc.curve != NistP384
  {
    if desc.curve != NistP384 {
      EnrolmentAccepted(p, desc, ea, priv, rnd, eaPriv, r);
    } else {
      var pop, outer, sent := EnrolmentLayers(p, desc, ea, priv, rnd, r);
      FinishedOpens(p, ea, eaPriv, outer, rnd.ecies, sent, r);
      SelfSignedUnwraps(p, [0x01, 0x80] + pop, priv, NistP384, rnd.outer);
      SelfSignedUnwraps(p, p.encInnerEc(InnerEc(desc)), priv, NistP384, rnd.pop);
      EaRefuses(p, r.bytes, ea, eaPriv, r.aesKey, outer, pop, InnerEc(desc));
    }
  }

  /** With a key of the record's curve, the AA accepts exactly the requests on the other three curves,
      whatever the EC is. */
  lemma AuthorizationAcceptedIff(p: Platform, desc: AtDescription, aa: CertInfo, ea: CertInfo, ec: CertInfo,
                                 ecPriv: Bytes, atPriv: Bytes, rnd: AtEntropy, aaPriv: Bytes, r: Encoded)
    requires p.Lawful() && desc.verificationKey == p.publicOf(desc.curve, atPriv) && OpensFor(p, aa, aaPriv)
    requires AtRequest(p, desc, aa, ea, ec, ecPriv, atPriv, rnd) == Ok(r)
    ensures AaAcceptsAuthorization(p, r.bytes, aa, aaPriv).Some? <==> desc.curve != NistP384
  {
    var inner, outer, sent := AuthorizationLayers(p, desc, aa, ea, ec, ecPriv, atPriv, rnd, r);
    if desc.curve != NistP384 {
      FinishedOpens(p, aa, aaPriv, outer, rnd.eciesAa, sent, r);
      SelfSignedProves(p, [0x01, 0x82] + p.encInnerAt(inner), desc.verificationKey, atPriv, desc.curve, rnd.pop);
      AaChecks(p, r.bytes, aa, aaPriv, r.aesKey, outer, p.encInnerAt(inner), inner);
    } else {
      SelfSignedUnwraps(p, [0x01, 0x82] + p.encInnerAt(inner), atPriv, NistP384, rnd.pop);
      NistP384NeverAccepted(p, desc, aa, ea, ec, ecPriv, atPriv, rnd, aaPriv, r);
    }
  }

  /** Whether such a request is emitted at all depends on the codec. If it does not encode an absent
      point, every NIST P-384 record the validators admit ends in an encoding error. */
  lemma AbsentPointNotEncoded(p: Platform, ec: EcRecord, at: AtRecord, now: int, hmacKey: Bytes, aa: CertInfo,
                              ea: CertInfo, ecCert: CertInfo, priv: Bytes, atPriv: Bytes, ecRnd: EcEntropy,
                              atRnd: AtEntropy)
    requires ValidEcRecord(ec) && ec.curve == NistP384 && ValidAtRecord(at) && at.curve == NistP384
    ensures (forall x: InnerEcRequest :: x.verificationKey == VkNistP256(None) ==> p.encInnerEc(x) == []) ==>
              EcRequest(p, AssembleEc(ec, now), ea, priv, ecRnd) == Err(Encode)
    ensures p.encKey(VkNistP256(None)) == [] ==>
              AtRequest(p, AssembleAt(at, now, hmacKey), aa, ea, ecCert, priv, atPriv, atRnd) == Err(Encode)
  {
    assert InnerEc(AssembleEc(ec, now)).verificationKey == VkNistP256(None);
  }

  // --- An EC on another curve ---

  /** The EC signs on the ticket's curve, so a request is only ever emitted if the EC's private key is
      usable there; an EC key of the other size is refused, whatever the certificates. */
  lemma EcKeyOfOtherSizeRefused(p: Platform, desc: AtDescription, aa: CertInfo, ea: CertInfo, ec: CertInfo,
                                ecPriv: Bytes, atPriv: Bytes, rnd: AtEntropy, ecCurve: Curve)
    requires p.PrivateOk(ecCurve, ecPriv) && IsP256Size(ecCurve) != IsP256Size(desc.curve)
    ensures AtRequest(p, desc, aa, ea, ec, ecPriv, atPriv, rnd).Err?
  {
    var coer := p.encShared(Shared(p, desc));
    assert !p.PrivateOk(desc.curve, ecPriv);
    assert ExternalPayload(p, HashForCurve(p, coer, desc.curve), ec, ecPriv, desc.curve, rnd.ext) == [];
    assert EcSignature(p, coer, ea, ec, ecPriv, desc.curve, rnd) == Err(Crypto);
  }
}
