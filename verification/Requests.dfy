/** Enrolment and authorization requests (sections 6.2.3.2 and 6.2.3.3 of ETSI TS 102 941):
    validation, assembly and encoding. */
module Requests {
  import opened Basics
  import opened Sizes
  import opened Asn
  import opened PlatformModel
  import opened CurvePoints
  import opened CertParse
  import opened Ecies
  import opened SignedEnvelopes
  import opened EncryptedMessages

  datatype EcRecord = EcRecord(
    publicKey: Bytes, eaHid8: Hid8, psids: seq<int>, validityDays: int, curve: Curve, itsId: string)

  datatype AtRecord = AtRecord(
    publicKey: Bytes, aaHid8: Hid8, eaHid8: Hid8, psids: seq<int>, validityHours: int, curve: Curve)

  datatype EcDescription = EcDescription(
    itsId: string, verificationKey: Bytes, psids: seq<int>, validityStart: Uint32, validityHours: Uint16, eaHid8: Hid8,
    curve: Curve)

  datatype AtDescription = AtDescription(
    verificationKey: Bytes, psids: seq<int>, validityStart: Uint32, validityHours: Uint16, aaHid8: Hid8, eaHid8: Hid8,
    hmacKey: Bytes, curve: Curve)

  // --- Validators and assemblers ---

  predicate UncompressedFor(key: Bytes, curve: Curve) { |key| == PubkeyLen(curve) && key[0] == 0x04 }

  predicate ValidEcRecord(rec: EcRecord) {
    UncompressedFor(rec.publicKey, rec.curve) && rec.psids == [PSID_SCR] && 0 < rec.validityDays <= 3650
  }

  predicate ValidAtRecord(rec: AtRecord) {
    && UncompressedFor(rec.publicKey, rec.curve)
    && rec.psids != [] && (forall i :: 0 <= i < |rec.psids| ==> rec.psids[i] >= 0)
    && 0 < rec.validityHours <= 87600
  }

  method ValidateAtRecord(rec: AtRecord) returns (ok: bool)
    ensures ok <==> ValidAtRecord(rec)
  {
    if |rec.publicKey| != PubkeyLen(rec.curve) || rec.publicKey[0] != 0x04 { return false; }
    if rec.psids == [] { return false; }
    for i := 0 to |rec.psids|
      invariant forall j :: 0 <= j < i ==> rec.psids[j] >= 0
    {
      if rec.psids[i] < 0 { return false; }
    }
    if rec.validityHours <= 0 || rec.validityHours > 87600 { return false; }
    return true;
  }

  function AssembleEc(rec: EcRecord, now: int): EcDescription {
    EcDescription(
      if rec.itsId == "" then "v2xpki-its-s" else rec.itsId, rec.publicKey, rec.psids, UnixToTai32(now),
      rec.validityDays * 24 % TWO16, rec.eaHid8, rec.curve)
  }

  function AssembleAt(rec: AtRecord, now: int, hmacKey: Bytes): AtDescription {
    AtDescription(
      rec.publicKey, rec.psids, UnixToTai32(now), Min(rec.validityHours, 65535) % TWO16, rec.aaHid8, rec.eaHid8,
      hmacKey, rec.curve)
  }

  /** What the validators admit, in numbers. */
  lemma RecordsAdmittedIff(ec: EcRecord, at: AtRecord)
    ensures ValidEcRecord(ec) <==>
            && |ec.publicKey| == (if Is384(ec.curve) then 97 else 65) && ec.publicKey[0] == 0x04
            && ec.psids == [623] && 1 <= ec.validityDays <= 3650
    ensures ValidAtRecord(at) <==>
            && |at.publicKey| == (if Is384(at.curve) then 97 else 65) && at.publicKey[0] == 0x04
            && at.psids != [] && (forall psid :: psid in at.psids ==> psid >= 0) && 1 <= at.validityHours <= 87600
  {
    if forall psid :: psid in at.psids ==> psid >= 0 {
      forall i | 0 <= i < |at.psids| ensures at.psids[i] >= 0 { assert at.psids[i] in at.psids; }
    }
  }

  /** The hours that go on the wire, against the period that was admitted: an AT is capped, an EC
      wraps, and only up to 2730 days does the station ask for what was admitted. */
  lemma RequestedPeriods(ec: EcRecord, at: AtRecord, now: int, hmacKey: Bytes)
    requires ValidEcRecord(ec) && ValidAtRecord(at)
    ensures AssembleAt(at, now, hmacKey).validityHours == Min(at.validityHours, 65535)
    ensures AssembleAt(at, now, hmacKey).validityHours == at.validityHours <==> at.validityHours <= 65535
    ensures AssembleEc(ec, now).validityHours == ec.validityDays * 24 <==> ec.validityDays <= 2730
    ensures ec.validityDays > 2730 ==> AssembleEc(ec, now).validityHours == ec.validityDays * 24 - 65536
  {
  }

  /** The shortfall is real: an admitted record for 2731 days asks for 8 hours. */
  lemma WrappedPeriod(key: Bytes, now: int)
    requires UncompressedFor(key, NistP256)
    ensures var rec := EcRecord(key, ZERO_HID8, [PSID_SCR], 2731, NistP256, "");
            ValidEcRecord(rec) && AssembleEc(rec, now).validityHours == 8
  {
  }

  // --- Encoders ---

  datatype Encoded = Encoded(bytes: Bytes, aesKey: Bytes)

  datatype EcEntropy = EcEntropy(pop: SignEntropy, outer: SignEntropy, ecies: EciesEntropy)

  datatype AtEntropy = AtEntropy(ext: SignEntropy, eciesEa: EciesEntropy, pop: SignEntropy, eciesAa: EciesEntropy)

  /** The key variant by curve; NIST P-384 falls into the default, which takes 65-byte keys only. */
  function KeyNode(curve: Curve, key: Bytes): PublicVerificationKey {
    match curve
    case BrainpoolP256r1 => VkBrainpoolP256r1(FromSec1(key, 32))
    case BrainpoolP384r1 => VkBrainpoolP384r1(FromSec1(key, 48))
    case _ => VkNistP256(FromSec1(key, 32))
  }

  function PsidEntry(psid: int): PsidSsp { PsidSsp(psid % TWO64) }

  function Permissions(psids: seq<int>): seq<PsidSsp> {
    seq(|psids|, i requires 0 <= i < |psids| => PsidEntry(psids[i]))
  }

  function Attributes(start: Uint32, hours: Uint16, psids: seq<int>): SubjectAttributes {
    SubjectAttributes(ValidityPeriod(start, Some(Hours(hours))), Permissions(psids))
  }

  method BuildAttributes(start: Uint32, hours: Uint16, psids: seq<int>) returns (attrs: SubjectAttributes)
    ensures attrs == Attributes(start, hours, psids)
  {
    var perms: seq<PsidSsp> := [];
    for i := 0 to |psids|
      invariant |perms| == i && forall j :: 0 <= j < i ==> perms[j] == PsidEntry(psids[j])
    {
      perms := perms + [PsidSsp(psids[i] % TWO64)];
    }
    attrs := SubjectAttributes(ValidityPeriod(start, Some(Hours(hours))), perms);
  }

  /** Encryption to an authority: its encryption key, or its verification key if it has none, on the
      encryption curve, with P1 the hash of its certificate. */
  function EncryptTo(p: Platform, cert: CertInfo, plaintext: Bytes, rnd: EciesEntropy)
    : Result<(Ieee1609Dot2Data, Bytes)>
  {
    var key := if cert.encryptionKey == [] then cert.publicKey else cert.encryptionKey;
    if |key| < 33 then Err(InvalidArgument) else
    var e :- OkOr(EciesEncrypted(p, key, plaintext, p.sha256(cert.certBytes), cert.encCurve, rnd), Crypto);
    Ok((BuildEncryptedData(e, cert.hashedId8, cert.encCurve), e.aesKey))
  }

  function Finish(p: Platform, data: Ieee1609Dot2Data, aesKey: Bytes): Result<Encoded> {
    var bytes :- NonEmpty(p.encData(data), Encode);
    var bounded :- OkOr(Bounded(MAX_COER_MESSAGE, bytes), Encode);
    var key :- OkOr(Bounded(16, aesKey), Crypto);
    Ok(Encoded(bounded, key))
  }

  function InnerEc(desc: EcDescription): InnerEcRequest {
    InnerEcRequest(desc.itsId, 1, KeyNode(desc.curve, desc.verificationKey),
                   Attributes(desc.validityStart, desc.validityHours, desc.psids))
  }

  /** The proof of possession is signed, tagged, signed again and encrypted to the EA. */
  function EcRequest(p: Platform, desc: EcDescription, ea: CertInfo, priv: Bytes, rnd: EcEntropy): Result<Encoded> {
    var inner :- NonEmpty(p.encInnerEc(InnerEc(desc)), Encode);
    var pop :- NonEmpty(SelfSigned(p, inner, priv, desc.curve, rnd.pop), Crypto);
    var outer :- NonEmpty(SelfSigned(p, [0x01, 0x80] + pop, priv, desc.curve, rnd.outer), Crypto);
    var (data, aesKey) :- EncryptTo(p, ea, outer, rnd.ecies);
    Finish(p, data, aesKey)
  }

  function KeyTag(p: Platform, hmacKey: Bytes, keyBytes: Bytes): Bytes { p.hmac(hmacKey, keyBytes)[..16] }

  function Shared(p: Platform, desc: AtDescription): SharedAtRequest {
    SharedAtRequest(desc.eaHid8, KeyTag(p, desc.hmacKey, p.encKey(KeyNode(desc.curve, desc.verificationKey))), 1,
                    Attributes(desc.validityStart, desc.validityHours, desc.psids))
  }

  /** The part for the EA's eyes: the EC signs the hash of the shared request, encrypted to the EA. */
  function EcSignature(p: Platform, sharedCoer: Bytes, ea: CertInfo, ec: CertInfo, ecPriv: Bytes, curve: Curve,
                       rnd: AtEntropy)
    : Result<Ieee1609Dot2Data>
  {
    var signed :- NonEmpty(ExternalPayload(p, HashForCurve(p, sharedCoer, curve), ec, ecPriv, curve, rnd.ext), Crypto);
    var (data, _) :- EncryptTo(p, ea, signed, rnd.eciesEa);
    Ok(data)
  }

  function AtRequest(p: Platform, desc: AtDescription, aa: CertInfo, ea: CertInfo, ec: CertInfo, ecPriv: Bytes,
                     atPriv: Bytes, rnd: AtEntropy): Result<Encoded>
  {
    var key := KeyNode(desc.curve, desc.verificationKey);
    var _ :- NonEmpty(p.encKey(key), Encode);
    var sharedCoer :- NonEmpty(p.encShared(Shared(p, desc)), Encode);
    var ecSig :- EcSignature(p, sharedCoer, ea, ec, ecPriv, desc.curve, rnd);
    var shared :- OkOr(p.decShared(sharedCoer), Encode);
    AtOuter(p, p.encInnerAt(InnerAtRequest(key, desc.hmacKey, shared, ecSig)), aa, atPriv, desc.curve, rnd)
  }

  /** The inner request is tagged, signed and encrypted to the AA. */
  function AtOuter(p: Platform, innerCoer: Bytes, aa: CertInfo, atPriv: Bytes, curve: Curve, rnd: AtEntropy)
    : Result<Encoded>
  {
    var inner :- NonEmpty(innerCoer, Encode);
    var outer :- NonEmpty(SelfSigned(p, [0x01, 0x82] + inner, atPriv, curve, rnd.pop), Crypto);
    var (data, aesKey) :- EncryptTo(p, aa, outer, rnd.eciesAa);
    Finish(p, data, aesKey)
  }

  method EncryptForAuthority(p: Platform, cert: CertInfo, plaintext: Bytes, rnd: EciesEntropy)
    returns (r: Result<(Ieee1609Dot2Data, Bytes)>)
    ensures r == EncryptTo(p, cert, plaintext, rnd)
  {
    var key := if cert.encryptionKey == [] then cert.publicKey else cert.encryptionKey;
    if |key| < 33 { return Err(InvalidArgument); }
    var p1 := p.sha256(cert.certBytes);
    var e := EciesEncrypt(p, key, plaintext, p1, cert.encCurve, rnd);
    if e.None? { return Err(Crypto); }
    r := Ok((BuildEncryptedData(e.value, cert.hashedId8, cert.encCurve), e.value.aesKey));
  }

  /** Appends the message to its EtsiTs102941Data prefix, signs it and fails if there is nothing. */
  method SignTagged(p: Platform, tag: bv8, body: Bytes, priv: Bytes, curve: Curve, rnd: SignEntropy)
    returns (r: Result<Bytes>)
    ensures r == NonEmpty(SelfSigned(p, [0x01, tag] + body, priv, curve, rnd), Crypto)
  {
    var etsi: Bytes := [0x01];
    etsi := etsi + [tag];
    etsi := etsi + body;
    assert etsi == [0x01, tag] + body;
    var signed := FinalizeSignedData(p, UnsecuredTbs(etsi, rnd.generationTime), priv, [], ZERO_HID8, curve, rnd.nonce);
    r := if signed == [] then Err(Crypto) else Ok(signed);
  }

  method EncodeEcRequest(p: Platform, desc: EcDescription, ea: CertInfo, priv: Bytes, rnd: EcEntropy)
    returns (r: Result<Encoded>)
    ensures r == EcRequest(p, desc, ea, priv, rnd)
  {
    var attrs := BuildAttributes(desc.validityStart, desc.validityHours, desc.psids);
    var innerBytes := p.encInnerEc(InnerEcRequest(desc.itsId, 1, KeyNode(desc.curve, desc.verificationKey), attrs));
    if innerBytes == [] { return Err(Encode); }
    var pop := FinalizeSignedData(p, UnsecuredTbs(innerBytes, rnd.pop.generationTime), priv, [], ZERO_HID8, desc.curve,
                                  rnd.pop.nonce);
    if pop == [] { return Err(Crypto); }
    var outer :- SignTagged(p, 0x80, pop, priv, desc.curve, rnd.outer);
    var sent :- EncryptForAuthority(p, ea, outer, rnd.ecies);
    r := Finish(p, sent.0, sent.1);
  }

  method EncodeEcSignature(p: Platform, sharedCoer: Bytes, ea: CertInfo, ec: CertInfo, ecPriv: Bytes, curve: Curve,
                           rnd: AtEntropy)
    returns (r: Result<Ieee1609Dot2Data>)
    ensures r == EcSignature(p, sharedCoer, ea, ec, ecPriv, curve, rnd)
  {
    var extHash := HashForCurve(p, sharedCoer, curve);
    var signed := FinalizeSignedData(p, ExternalTbs(extHash, curve, rnd.ext.generationTime), ecPriv, ec.certBytes,
                                     ec.hashedId8, curve, rnd.ext.nonce);
    if signed == [] { return Err(Crypto); }
    var sent :- EncryptForAuthority(p, ea, signed, rnd.eciesEa);
    r := Ok(sent.0);
  }

  method EncodeAtRequest(p: Platform, desc: AtDescription, aa: CertInfo, ea: CertInfo, ec: CertInfo, ecPriv: Bytes,
                         atPriv: Bytes, rnd: AtEntropy) returns (r: Result<Encoded>)
    ensures r == AtRequest(p, desc, aa, ea, ec, ecPriv, atPriv, rnd)
  {
    var keyNode := KeyNode(desc.curve, desc.verificationKey);
    var keyBytes := p.encKey(keyNode);
    if keyBytes == [] { return Err(Encode); }
    var keyTag := p.hmac(desc.hmacKey, keyBytes)[..16];
    var attrs := BuildAttributes(desc.validityStart, desc.validityHours, desc.psids);
    var sharedCoer := p.encShared(SharedAtRequest(desc.eaHid8, keyTag, 1, attrs));
    if sharedCoer == [] { return Err(Encode); }
    var ecSig :- EncodeEcSignature(p, sharedCoer, ea, ec, ecPriv, desc.curve, rnd);
    var shared := p.decShared(sharedCoer);
    if shared.None? { return Err(Encode); }
    var innerBytes := p.encInnerAt(InnerAtRequest(keyNode, desc.hmacKey, shared.value, ecSig));
    if innerBytes == [] { return Err(Encode); }
    var outer :- SignTagged(p, 0x82, innerBytes, atPriv, desc.curve, rnd.pop);
    var sent :- EncryptForAuthority(p, aa, outer, rnd.eciesAa);
    r := Finish(p, sent.0, sent.1);
  }

  // --- What is emitted, and which error the first failing step gives ---

  lemma EncryptToOutcome(p: Platform, cert: CertInfo, plaintext: Bytes, rnd: EciesEntropy)
    ensures var key := if cert.encryptionKey != [] then cert.encryptionKey else cert.publicKey;
            var e := EciesEncrypted(p, key, plaintext, p.sha256(cert.certBytes), cert.encCurve, rnd);
            EncryptTo(p, cert, plaintext, rnd) ==
            if |key| <= 32 then Err(InvalidArgument)
            else if e.None? then Err(Crypto)
            else Ok((BuildEncryptedData(e.value, cert.hashedId8, cert.encCurve), rnd.aesKey))
  {
  }

  /** A request that is sent has 1 to 2048 bytes. */
  ghost predicate SentAs(p: Platform, sent: Result<(Ieee1609Dot2Data, Bytes)>, r: Result<Encoded>) {
    match sent
    case Err(e) => r == Err(e)
    case Ok((data, key)) =>
      if 1 <= |p.encData(data)| <= 2048 then r == Ok(Encoded(p.encData(data), key)) else r == Err(Encode)
  }

  lemma EcRequestOutcome(p: Platform, desc: EcDescription, ea: CertInfo, priv: Bytes, rnd: EcEntropy)
    ensures var r := EcRequest(p, desc, ea, priv, rnd);
            var inner := p.encInnerEc(InnerEc(desc));
            if inner == [] then r == Err(Encode) else
            var pop := SelfSigned(p, inner, priv, desc.curve, rnd.pop);
            var outer := SelfSigned(p, [0x01, 0x80] + pop, priv, desc.curve, rnd.outer);
            if pop == [] || outer == [] then r == Err(Crypto)
            else SentAs(p, EncryptTo(p, ea, outer, rnd.ecies), r)
  {
  }

  /** The part for the EA signs the hash of the shared request, of the size of the curve. */
  lemma EcSignatureOutcome(p: Platform, sharedCoer: Bytes, ea: CertInfo, ec: CertInfo, ecPriv: Bytes, curve: Curve,
                           rnd: AtEntropy)
    ensures var r := EcSignature(p, sharedCoer, ea, ec, ecPriv, curve, rnd);
            var hash: Bytes := if Is384(curve) then p.sha384(sharedCoer) else p.sha256(sharedCoer);
            var signed := ExternalPayload(p, hash, ec, ecPriv, curve, rnd.ext);
            if signed == [] then r == Err(Crypto) else
            match EncryptTo(p, ea, signed, rnd.eciesEa)
            case Err(e) => r == Err(e)
            case Ok((data, _)) => r == Ok(data)
  {
  }

  lemma AtOuterOutcome(p: Platform, inner: Bytes, aa: CertInfo, atPriv: Bytes, curve: Curve, rnd: AtEntropy)
    ensures var r := AtOuter(p, inner, aa, atPriv, curve, rnd);
            if inner == [] then r == Err(Encode) else
            var outer := SelfSigned(p, [0x01, 0x82] + inner, atPriv, curve, rnd.pop);
            if outer == [] then r == Err(Crypto) else SentAs(p, EncryptTo(p, aa, outer, rnd.eciesAa), r)
  {
  }

  lemma AtRequestOutcome(p: Platform, desc: AtDescription, aa: CertInfo, ea: CertInfo, ec: CertInfo, ecPriv: Bytes,
                         atPriv: Bytes, rnd: AtEntropy)
    requires p.CodecLaws()
    ensures var r := AtRequest(p, desc, aa, ea, ec, ecPriv, atPriv, rnd);
            var key := KeyNode(desc.curve, desc.verificationKey);
            var shared := Shared(p, desc);
            if p.encKey(key) == [] || p.encShared(shared) == [] then r == Err(Encode) else
            match EcSignature(p, p.encShared(shared), ea, ec, ecPriv, desc.curve, rnd)
            case Err(e) => r == Err(e)
            case Ok(ecSig) =>
              var inner := p.encInnerAt(InnerAtRequest(key, desc.hmacKey, shared, ecSig));
              r == AtOuter(p, inner, aa, atPriv, desc.curve, rnd)
  {
    if p.encShared(Shared(p, desc)) != [] {
      assert p.decShared(p.encShared(Shared(p, desc))) == Some(Shared(p, desc));
    }
  }
}
