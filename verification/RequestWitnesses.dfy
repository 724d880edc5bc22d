/** Requests on the toy platforms: what the acceptance theorems assume can happen does happen, and
    where the code fails a promise, here is an input on which it fails. */
module RequestWitnesses {
  import opened Basics
  import opened Sizes
  import opened Asn
  import opened PlatformModel
  import opened CertParse
  import opened Ecies
  import opened SignedEnvelopes
  import opened EncryptedMessages
  import opened Requests
  import opened Authorities
  import opened ToyPlatform

  // --- Parties and messages ---

  const NO_SIGN := SignEntropy([], 0)

  /** The beginning of TAI. */
  const NOW := TAI_EPOCH_UNIX - TAI_MINUS_UTC

  function NoEcies(): EciesEntropy { EciesEntropy(Zeros(32), Zeros(16), Zeros(12)) }

  function Scalar(c: Curve): Bytes { Zeros(ScalarLen(c)) }

  /** A certificate without bytes whose key pair is on curve c. */
  function Holder(c: Curve): CertInfo {
    CertInfo([], ZERO_HID8, ToyPublic(c, Scalar(c)), [], NistP256, ZERO_HID8, false, [], [], [], c, Sha256, 0, 0, "")
  }

  function Authority(): CertInfo { Holder(NistP256) }

  lemma AuthorityOpens(p: Platform)
    requires ToyCrypto(p)
    ensures OpensFor(p, Authority(), Zeros(32))
  {
    ToyKeysMatch(p, NistP256, Zeros(32));
  }

  lemma HolderSigns(p: Platform, c: Curve)
    requires ToyCrypto(p)
    ensures Signs(p, c, Holder(c), Scalar(c))
  {
    ToyKeysMatch(p, c, Scalar(c));
  }

  function Enveloped(tbs: ToBeSignedData, c: Curve): Ieee1609Dot2Data {
    Wrap(SignedNode(tbs, [], ZERO_HID8, c, ToySignature(c)))
  }

  lemma EnvelopeIs(p: Platform, tbs: ToBeSignedData, c: Curve)
    requires ToyCrypto(p)
    ensures Envelope(p, tbs, Scalar(c), [], ZERO_HID8, c, []) == p.encData(Enveloped(tbs, c))
  {
    var digest := DoubleHash(p, CurveHash(c), p.encTbsData(tbs), []);
    assert EcdsaSignDigest(p, Scalar(c), digest, c, []) == Some(ToySignature(c));
  }

  /** The plaintext, encrypted to the authority. */
  function Sealed(plaintext: Bytes): EciesResult {
    var wrapped := Xor(ToyKdf([], ToyHash([], 32))[..16], Zeros(16));
    EciesResult(ToyPublic(NistP256, Zeros(32)), wrapped, Zeros(16), Zeros(12), plaintext, Zeros(16), Zeros(16))
  }

  function SentTo(plaintext: Bytes): Ieee1609Dot2Data { BuildEncryptedData(Sealed(plaintext), ZERO_HID8, NistP256) }

  lemma SealedIs(p: Platform, plaintext: Bytes)
    requires ToyCrypto(p)
    ensures EciesEncrypted(p, ToyPublic(NistP256, Zeros(32)), plaintext, ToyHash([], 32), NistP256, NoEcies())
         == Some(Sealed(plaintext))
  {
    PublicShape(NistP256, Zeros(32));
    ToyKdfIs(p, [], ToyHash([], 32));
    assert EcdhDerive(p, Zeros(32), ToyPublic(NistP256, Zeros(32)), NistP256) == Some([]);
    assert WrapTag(p, ToyKdf([], ToyHash([], 32)), Sealed(plaintext).encryptedKey) == Zeros(16);
  }

  lemma EncryptIs(p: Platform, plaintext: Bytes)
    requires ToyCrypto(p)
    ensures EncryptTo(p, Authority(), plaintext, NoEcies()) == Ok((SentTo(plaintext), Zeros(16)))
  {
    SealedIs(p, plaintext);
    assert p.sha256([]) == ToyHash([], 32);
  }

  /** The messages of one exchange: the innermost one, the signed request around what has the code 1,
      the encrypted request, the signed response and the encrypted response. */
  function Exchanged(first: Ieee1609Dot2Data, tag: bv8, c: Curve): seq<Ieee1609Dot2Data> {
    [first,
     Enveloped(UnsecuredTbs([0x01, tag] + Ones(1), 0), c),
     SentTo(Ones(2)),
     Enveloped(UnsecuredTbs([0x01, tag + 1] + Ones(1), 0), NistP256),
     EncryptedNode(PskRecipient([]), Zeros(12), Ones(4) + Zeros(16))]
  }

  /** The payload of a signed message; the others have none of this length. */
  function PayloadOf(d: Ieee1609Dot2Data): Bytes {
    match d.content
    case Some(Signed(Some(SignedData(_, Some(ToBeSignedData(Some(
           SignedDataPayload(Some(Ieee1609Dot2Data(_, Some(Unsecured(b)))), _)), _)), _, _)))) => b
    case _ => []
  }

  ghost predicate Distinct<T>(table: seq<T>) { forall i, j :: 0 <= i < j < |table| ==> table[i] != table[j] }

  lemma PlaceIs<T>(table: seq<T>, k: nat)
    requires k < |table| && Distinct(table)
    ensures CodeOf(table, table[k]) == Ones(k + 1)
  {
  }

  /** The innermost message is a signed one whose payload, if it has any, is short. */
  predicate Innermost(d: Ieee1609Dot2Data) {
    d.content.Some? && d.content.value.Signed? && |PayloadOf(d)| < 3
  }

  lemma InnermostMessages(c: Curve)
    ensures Innermost(Enveloped(UnsecuredTbs(Ones(1), 0), c)) && Innermost(Enveloped(EcSignedPart(c), c))
  {
  }

  lemma ExchangedDistinct(first: Ieee1609Dot2Data, tag: bv8, c: Curve)
    requires Innermost(first)
    ensures Distinct(Exchanged(first, tag, c))
  {
    var ms := Exchanged(first, tag, c);
    assert PayloadOf(ms[1]) == [0x01, tag] + Ones(1) && PayloadOf(ms[3]) == [0x01, tag + 1] + Ones(1);
    assert PayloadOf(ms[1])[1] == tag && PayloadOf(ms[3])[1] == tag + 1;
    assert ms[2] != ms[4];
  }

  /** What each message of the exchange is encoded as. */
  lemma ExchangedCodes(p: Platform, first: Ieee1609Dot2Data, tag: bv8, c: Curve)
    requires ToyCrypto(p) && Innermost(first) && forall x :: p.encData(x) == CodeOf(Exchanged(first, tag, c), x)
    ensures p.encData(first) == Ones(1)
    ensures SelfSigned(p, [0x01, tag] + Ones(1), Scalar(c), c, NO_SIGN) == Ones(2)
    ensures p.encData(SentTo(Ones(2))) == Ones(3)
    ensures SelfSigned(p, [0x01, tag + 1] + Ones(1), Scalar(NistP256), NistP256, NO_SIGN) == Ones(4)
    ensures p.encData(EncryptedNode(PskRecipient([]), Zeros(12), Ones(4) + Zeros(16))) == Ones(5)
  {
    var ms := Exchanged(first, tag, c);
    ExchangedDistinct(first, tag, c);
    PlaceIs(ms, 0);
    PlaceIs(ms, 1);
    PlaceIs(ms, 2);
    PlaceIs(ms, 3);
    PlaceIs(ms, 4);
    EnvelopeIs(p, UnsecuredTbs([0x01, tag] + Ones(1), 0), c);
    EnvelopeIs(p, UnsecuredTbs([0x01, tag + 1] + Ones(1), 0), NistP256);
  }

  lemma SingleCode<T>(x: T)
    ensures CodeOf([x], x) == Ones(1) && EntryOf([x], Ones(1)) == Some(x)
  {
  }

  // --- Enrolment ---

  function EcRecordOn(c: Curve): EcRecord {
    EcRecord(ToyPublic(c, Scalar(c)), ZERO_HID8, [PSID_SCR], 1, c, "s")
  }

  function EcRequestOn(c: Curve): InnerEcRequest { InnerEc(AssembleEc(EcRecordOn(c), NOW)) }

  function EcTables(c: Curve, certs: seq<CertificateBase>, response: InnerResponse): Tables {
    NO_TABLES.(messages := Exchanged(Enveloped(UnsecuredTbs(Ones(1), 0), c), 0x80, c), ecRequests := [EcRequestOn(c)],
               certs := certs, responses := [response])
  }

  function NoEcEntropy(): EcEntropy { EcEntropy(NO_SIGN, NO_SIGN, NoEcies()) }

  /** The layers of a request, put together. */
  lemma EcRequestIs(p: Platform, desc: EcDescription, ea: CertInfo, priv: Bytes, rnd: EcEntropy, inner: Bytes,
                    pop: Bytes, outer: Bytes, sent: Ieee1609Dot2Data, key: Bytes, bytes: Bytes)
    requires p.encInnerEc(InnerEc(desc)) == inner != []
    requires SelfSigned(p, inner, priv, desc.curve, rnd.pop) == pop != []
    requires SelfSigned(p, [0x01, 0x80] + pop, priv, desc.curve, rnd.outer) == outer != []
    requires EncryptTo(p, ea, outer, rnd.ecies) == Ok((sent, key)) && |key| == 16
    requires p.encData(sent) == bytes && 0 < |bytes| <= MAX_COER_MESSAGE
    ensures EcRequest(p, desc, ea, priv, rnd) == Ok(Encoded(bytes, key))
  {
  }

  lemma EcSigned(p: Platform, c: Curve, certs: seq<CertificateBase>, response: InnerResponse)
    requires ToyCrypto(p) && Follows(p, EcTables(c, certs, response))
    ensures p.encInnerEc(EcRequestOn(c)) == Ones(1)
    ensures SelfSigned(p, Ones(1), Scalar(c), c, NO_SIGN) == Ones(1)
    ensures SelfSigned(p, [0x01, 0x80] + Ones(1), Scalar(c), c, NO_SIGN) == Ones(2)
    ensures p.encData(SentTo(Ones(2))) == Ones(3)
  {
    ExchangedCodes(p, Enveloped(UnsecuredTbs(Ones(1), 0), c), 0x80, c);
    SingleCode(EcRequestOn(c));
    EnvelopeIs(p, UnsecuredTbs(Ones(1), 0), c);
  }

  /** On every curve there is an admitted record whose request is emitted. */
  lemma EnrolmentEmitted(p: Platform, c: Curve, certs: seq<CertificateBase>, response: InnerResponse)
    requires ToyCrypto(p) && Follows(p, EcTables(c, certs, response))
    ensures ValidEcRecord(EcRecordOn(c))
    ensures EcRequest(p, AssembleEc(EcRecordOn(c), NOW), Authority(), Scalar(c), NoEcEntropy())
         == Ok(Encoded(Ones(3), Zeros(16)))
  {
    PublicShape(c, Scalar(c));
    EcSigned(p, c, certs, response);
    EncryptIs(p, Ones(2));
    EcRequestIs(p, AssembleEc(EcRecordOn(c), NOW), Authority(), Scalar(c), NoEcEntropy(), Ones(1), Ones(1), Ones(2),
                SentTo(Ones(2)), Zeros(16), Ones(3));
  }

  /** Hence both halves of the acceptance theorem are met: for every curve there is an admitted
      record whose request is emitted, and it is accepted or, on NIST P-384, refused. */
  lemma EnrolmentWitness(c: Curve) returns (p: Platform, r: Requests.Encoded)
    ensures p.Lawful() && ValidEcRecord(EcRecordOn(c)) && EcRecordOn(c).publicKey == p.publicOf(c, Scalar(c))
    ensures OpensFor(p, Authority(), Zeros(32))
    ensures EcRequest(p, AssembleEc(EcRecordOn(c), NOW), Authority(), Scalar(c), NoEcEntropy()) == Ok(r)
    ensures EaAcceptsEnrolment(p, r.bytes, Authority(), Zeros(32)).Some? <==> c != NistP384
  {
    var t := EcTables(c, [], InnerResponse([], 0, None));
    p := ToyIsLawful(t);
    AuthorityOpens(p);
    EnrolmentEmitted(p, c, [], InnerResponse([], 0, None));
    r := Encoded(Ones(3), Zeros(16));
    EnrolmentAcceptedIff(p, AssembleEc(EcRecordOn(c), NOW), Authority(), Scalar(c), NoEcEntropy(), Zeros(32), r);
  }

  // --- Authorization, with an EC on any curve of the ticket's size ---

  function AtRecordOn(d: Curve): AtRecord {
    AtRecord(ToyPublic(d, Scalar(d)), ZERO_HID8, ZERO_HID8, [PSID_SCR], 1, d)
  }

  function AtDescriptionOn(d: Curve): AtDescription { AssembleAt(AtRecordOn(d), NOW, Zeros(32)) }

  function SharedRequest(): SharedAtRequest { SharedAtRequest(ZERO_HID8, Zeros(16), 1, Attributes(0, 1, [PSID_SCR])) }

  function AtRequestOn(d: Curve): InnerAtRequest {
    InnerAtRequest(KeyNode(d, ToyPublic(d, Scalar(d))), Zeros(32), SharedRequest(), SentTo(Ones(1)))
  }

  function EcSignedPart(d: Curve): ToBeSignedData { ExternalTbs(ToyHash(Ones(1), HashLen(d)), d, 0) }

  function AtTables(d: Curve, certs: seq<CertificateBase>, response: InnerResponse): Tables {
    NO_TABLES.(messages := Exchanged(Enveloped(EcSignedPart(d), d), 0x82, d), shared := [SharedRequest()],
               atRequests := [AtRequestOn(d)], certs := certs, responses := [response])
  }

  function NoAtEntropy(): AtEntropy { AtEntropy(NO_SIGN, NoEcies(), NO_SIGN, NoEcies()) }

  lemma SharedIs(p: Platform, d: Curve)
    requires ToyCrypto(p)
    ensures Shared(p, AtDescriptionOn(d)) == SharedRequest()
  {
    var key := p.encKey(KeyNode(d, ToyPublic(d, Scalar(d))));
    assert KeyTag(p, Zeros(32), key) == Zeros(16);
  }

  lemma EcPartIs(p: Platform, c: Curve, d: Curve)
    requires ToyCrypto(p) && ScalarLen(c) == ScalarLen(d)
    ensures ExternalPayload(p, HashForCurve(p, Ones(1), d), Holder(c), Scalar(c), d, NO_SIGN)
         == p.encData(Enveloped(EcSignedPart(d), d))
  {
    EnvelopeIs(p, EcSignedPart(d), d);
    assert Scalar(c) == Scalar(d);
    assert HashForCurve(p, Ones(1), d) == ToyHash(Ones(1), HashLen(d));
  }

  /** What the codec does with the parts of the request. */
  ghost predicate AtCodec(p: Platform, d: Curve) {
    && p.encShared(SharedRequest()) == Ones(1) && p.decShared(Ones(1)) == Some(SharedRequest())
    && p.encInnerAt(AtRequestOn(d)) == Ones(1)
    && forall x :: p.encData(x) == CodeOf(Exchanged(Enveloped(EcSignedPart(d), d), 0x82, d), x)
  }

  lemma AtFollowed(p: Platform, d: Curve, certs: seq<CertificateBase>, response: InnerResponse)
    requires Follows(p, AtTables(d, certs, response))
    ensures AtCodec(p, d)
  {
    SingleCode(SharedRequest());
    SingleCode(AtRequestOn(d));
  }

  /** The inner layers of the request are encoded, */
  ghost predicate InnerLayers(p: Platform, c: Curve, d: Curve) {
    && p.encKey(KeyNode(d, ToyPublic(d, Scalar(d)))) != [] && Shared(p, AtDescriptionOn(d)) == SharedRequest()
    && p.encShared(SharedRequest()) == Ones(1) && p.decShared(Ones(1)) == Some(SharedRequest())
    && ExternalPayload(p, HashForCurve(p, Ones(1), d), Holder(c), Scalar(c), d, NO_SIGN) == Ones(1)
    && EncryptTo(p, Authority(), Ones(1), NoEcies()) == Ok((SentTo(Ones(1)), Zeros(16)))
    && p.encInnerAt(AtRequestOn(d)) == Ones(1)
  }

  /** and so are the outer ones. */
  ghost predicate OuterLayers(p: Platform, d: Curve) {
    && SelfSigned(p, [0x01, 0x82] + Ones(1), Scalar(d), d, NO_SIGN) == Ones(2)
    && EncryptTo(p, Authority(), Ones(2), NoEcies()) == Ok((SentTo(Ones(2)), Zeros(16)))
    && p.encData(SentTo(Ones(2))) == Ones(3)
  }

  lemma InnerEncoded(p: Platform, c: Curve, d: Curve)
    requires ToyCrypto(p) && AtCodec(p, d) && ScalarLen(c) == ScalarLen(d)
    ensures InnerLayers(p, c, d)
  {
    assert p.encData(Enveloped(EcSignedPart(d), d)) == Ones(1) by {
      InnermostMessages(d);
      ExchangedCodes(p, Enveloped(EcSignedPart(d), d), 0x82, d);
    }
    EcPartIs(p, c, d);
    SharedIs(p, d);
    EncryptIs(p, Ones(1));
  }

  lemma OuterEncoded(p: Platform, d: Curve)
    requires ToyCrypto(p) && AtCodec(p, d)
    ensures OuterLayers(p, d)
  {
    InnermostMessages(d);
    ExchangedCodes(p, Enveloped(EcSignedPart(d), d), 0x82, d);
    EncryptIs(p, Ones(2));
  }

  lemma EcSignatureIs(p: Platform, shared: Bytes, ea: CertInfo, ec: CertInfo, ecPriv: Bytes, curve: Curve,
                      rnd: AtEntropy, ext: Bytes, data: Ieee1609Dot2Data, eaKey: Bytes)
    requires ExternalPayload(p, HashForCurve(p, shared, curve), ec, ecPriv, curve, rnd.ext) == ext != []
    requires EncryptTo(p, ea, ext, rnd.eciesEa) == Ok((data, eaKey))
    ensures EcSignature(p, shared, ea, ec, ecPriv, curve, rnd) == Ok(data)
  {
  }

  lemma AtOuterIs(p: Platform, inner: Bytes, aa: CertInfo, atPriv: Bytes, curve: Curve, rnd: AtEntropy, outer: Bytes,
                  sent: Ieee1609Dot2Data, key: Bytes, bytes: Bytes)
    requires inner != [] && SelfSigned(p, [0x01, 0x82] + inner, atPriv, curve, rnd.pop) == outer != []
    requires EncryptTo(p, aa, outer, rnd.eciesAa) == Ok((sent, key)) && |key| == 16
    requires p.encData(sent) == bytes && 0 < |bytes| <= MAX_COER_MESSAGE
    ensures AtOuter(p, inner, aa, atPriv, curve, rnd) == Ok(Encoded(bytes, key))
  {
  }

  lemma AtRequestJoined(p: Platform, desc: AtDescription, aa: CertInfo, ea: CertInfo, ec: CertInfo, ecPriv: Bytes,
                        atPriv: Bytes, rnd: AtEntropy, shared: Bytes, inner: InnerAtRequest, r: Encoded)
    requires p.encKey(KeyNode(desc.curve, desc.verificationKey)) != []
    requires p.encShared(Shared(p, desc)) == shared != [] && p.decShared(shared) == Some(Shared(p, desc))
    requires EcSignature(p, shared, ea, ec, ecPriv, desc.curve, rnd) == Ok(inner.encryptedEcSignature)
    requires inner.verificationKey == KeyNode(desc.curve, desc.verificationKey)
    requires inner.hmacKey == desc.hmacKey && inner.shared == Shared(p, desc)
    requires AtOuter(p, p.encInnerAt(inner), aa, atPriv, desc.curve, rnd) == Ok(r)
    ensures AtRequest(p, desc, aa, ea, ec, ecPriv, atPriv, rnd) == Ok(r)
  {
    var made := InnerAtRequest(KeyNode(desc.curve, desc.verificationKey), desc.hmacKey, Shared(p, desc),
                               inner.encryptedEcSignature);
    assert made == inner;
  }

  /** The layers of a request, put together. */
  lemma AtRequestIs(p: Platform, desc: AtDescription, aa: CertInfo, ea: CertInfo, ec: CertInfo, ecPriv: Bytes,
                    atPriv: Bytes, rnd: AtEntropy, shared: Bytes, ext: Bytes, inner: InnerAtRequest, outer: Bytes,
                    sent: Ieee1609Dot2Data, key: Bytes, eaKey: Bytes, bytes: Bytes)
    requires p.encKey(KeyNode(desc.curve, desc.verificationKey)) != []
    requires p.encShared(Shared(p, desc)) == shared != [] && p.decShared(shared) == Some(Shared(p, desc))
    requires ExternalPayload(p, HashForCurve(p, shared, desc.curve), ec, ecPriv, desc.curve, rnd.ext) == ext != []
    requires EncryptTo(p, ea, ext, rnd.eciesEa) == Ok((inner.encryptedEcSignature, eaKey))
    requires inner.verificationKey == KeyNode(desc.curve, desc.verificationKey)
    requires inner.hmacKey == desc.hmacKey && inner.shared == Shared(p, desc) && p.encInnerAt(inner) != []
    requires SelfSigned(p, [0x01, 0x82] + p.encInnerAt(inner), atPriv, desc.curve, rnd.pop) == outer != []
    requires EncryptTo(p, aa, outer, rnd.eciesAa) == Ok((sent, key)) && |key| == 16
    requires p.encData(sent) == bytes && 0 < |bytes| <= MAX_COER_MESSAGE
    ensures AtRequest(p, desc, aa, ea, ec, ecPriv, atPriv, rnd) == Ok(Encoded(bytes, key))
  {
    EcSignatureIs(p, shared, ea, ec, ecPriv, desc.curve, rnd, ext, inner.encryptedEcSignature, eaKey);
    AtOuterIs(p, p.encInnerAt(inner), aa, atPriv, desc.curve, rnd, outer, sent, key, bytes);
    AtRequestJoined(p, desc, aa, ea, ec, ecPriv, atPriv, rnd, shared, inner, Encoded(bytes, key));
  }

  lemma LayersEmitted(p: Platform, c: Curve, d: Curve)
    requires InnerLayers(p, c, d) && OuterLayers(p, d)
    ensures AtRequest(p, AtDescriptionOn(d), Authority(), Authority(), Holder(c), Scalar(c), Scalar(d), NoAtEntropy())
         == Ok(Encoded(Ones(3), Zeros(16)))
  {
    AtRequestIs(p, AtDescriptionOn(d), Authority(), Authority(), Holder(c), Scalar(c), Scalar(d), NoAtEntropy(),
                Ones(1), Ones(1), AtRequestOn(d), Ones(2), SentTo(Ones(2)), Zeros(16), Zeros(16), Ones(3));
  }

  lemma AtRecordAdmitted(d: Curve)
    ensures ValidAtRecord(AtRecordOn(d))
  {
    PublicShape(d, Scalar(d));
  }

  /** On these platforms an EC vouches for exactly the requests on its own curve. */
  lemma HolderVouches(p: Platform, c: Curve, d: Curve)
    requires p.Lawful() && ToyCrypto(p) && ScalarLen(c) == ScalarLen(d) && d != NistP384
    ensures EcVouches(p, AtDescriptionOn(d), Holder(c), Scalar(c), NO_SIGN) <==> c == d
  {
    EcVouchesByCurve(p, AtDescriptionOn(d), Holder(c), Scalar(c), NO_SIGN);
    HolderSigns(p, c);
    if c != d { ForeignPoint(p, c, d, Scalar(c)); }
  }

  /** One authorization: everything both sides hold and draw, and the request that is emitted. */
  datatype Exchange = Exchange(
    p: Platform, desc: AtDescription, aa: CertInfo, ea: CertInfo, ec: CertInfo, ecPriv: Bytes, atPriv: Bytes,
    rnd: AtEntropy, aaPriv: Bytes, eaPriv: Bytes, r: Requests.Encoded)
  {
    /** A ticket key on curve d and an EC whose key pair matches on curve c, sent to authorities that
        can open it. */
    ghost predicate Emitted(c: Curve, d: Curve) {
      && p.Lawful() && desc.curve == d && desc.verificationKey == p.publicOf(d, atPriv)
      && Signs(p, c, ec, ecPriv) && desc.eaHid8 == ea.hashedId8
      && OpensFor(p, aa, aaPriv) && OpensFor(p, ea, eaPriv)
      && AtRequest(p, desc, aa, ea, ec, ecPriv, atPriv, rnd) == Ok(r)
    }

    predicate IsGranted() { Granted(p, r.bytes, aa, aaPriv, ea, eaPriv, ec) }
  }

  lemma AuthorizationWitness(c: Curve, d: Curve) returns (x: Exchange)
    requires ScalarLen(c) == ScalarLen(d)
    ensures x.Emitted(c, d) && ValidAtRecord(AtRecordOn(d)) && x.desc == AssembleAt(AtRecordOn(d), NOW, Zeros(32))
    ensures x.IsGranted() <==> c == d && d != NistP384
  {
    var p := AtPlatform(c, d, [], InnerResponse([], 0, None));
    x := Exchange(p, AtDescriptionOn(d), Authority(), Authority(), Holder(c), Scalar(c), Scalar(d), NoAtEntropy(),
                  Zeros(32), Zeros(32), Encoded(Ones(3), Zeros(16)));
    AtRecordAdmitted(d);
    ToyExchange(x, c, d);
  }

  lemma AtPlatform(c: Curve, d: Curve, certs: seq<CertificateBase>, response: InnerResponse) returns (p: Platform)
    requires ScalarLen(c) == ScalarLen(d)
    ensures p.Lawful() && ToyCrypto(p) && Follows(p, AtTables(d, certs, response))
    ensures InnerLayers(p, c, d) && OuterLayers(p, d)
  {
    p := ToyIsLawful(AtTables(d, certs, response));
    AtFollowed(p, d, certs, response);
    InnerEncoded(p, c, d);
    OuterEncoded(p, d);
  }

  lemma ToyExchange(x: Exchange, c: Curve, d: Curve)
    requires x.p.Lawful() && ToyCrypto(x.p) && InnerLayers(x.p, c, d) && OuterLayers(x.p, d)
    requires x == Exchange(x.p, AtDescriptionOn(d), Authority(), Authority(), Holder(c), Scalar(c), Scalar(d),
                           NoAtEntropy(), Zeros(32), Zeros(32), Encoded(Ones(3), Zeros(16)))
    requires ScalarLen(c) == ScalarLen(d)
    ensures x.Emitted(c, d) && (x.IsGranted() <==> c == d && d != NistP384)
  {
    AuthorityOpens(x.p);
    HolderSigns(x.p, c);
    LayersEmitted(x.p, c, d);
    GrantedIff(x, c, d);
    if d != NistP384 { HolderVouches(x.p, c, d); }
  }

  lemma GrantedIff(x: Exchange, c: Curve, d: Curve)
    requires x.Emitted(c, d)
    ensures x.IsGranted() <==> d != NistP384 && EcVouches(x.p, x.desc, x.ec, x.ecPriv, x.rnd.ext)
  {
    AuthorizationAcceptedIff(x.p, x.desc, x.aa, x.ea, x.ec, x.ecPriv, x.atPriv, x.rnd, x.aaPriv, x.r);
    if d != NistP384 {
      AuthorizationAccepted(x.p, x.desc, x.aa, x.ea, x.ec, x.ecPriv, x.atPriv, x.rnd, x.aaPriv, x.eaPriv, x.r);
    }
  }

  /** Which curves are safe: every request that is emitted for a ticket on d with an EC on c is granted,
      on every lawful platform, exactly when the curves are equal and not NIST P-384, or of
      different sizes, and then none is emitted. */
  lemma GrantedByCurve(c: Curve, d: Curve)
    ensures (forall x: Exchange :: x.Emitted(c, d) ==> x.IsGranted()) <==>
            (c == d && d != NistP384) || ScalarLen(c) != ScalarLen(d)
    ensures ScalarLen(c) != ScalarLen(d) <==> forall x: Exchange :: !x.Emitted(c, d)
  {
    if ScalarLen(c) == ScalarLen(d) {
      var x := AuthorizationWitness(c, d);
    }
    forall x: Exchange | x.Emitted(c, d)
      ensures ScalarLen(c) == ScalarLen(d)
      ensures c == d && d != NistP384 ==> x.IsGranted()
    {
      if ScalarLen(c) != ScalarLen(d) {
        EcKeyOfOtherSizeRefused(x.p, x.desc, x.aa, x.ea, x.ec, x.ecPriv, x.atPriv, x.rnd, c);
      }
      GrantedIff(x, c, d);
      EcVouchesByCurve(x.p, x.desc, x.ec, x.ecPriv, x.rnd.ext);
    }
  }
}
