/** Building and opening encrypted data, and the responses that travel in it. */
module EncryptedMessages {
  import opened Basics
  import opened Sizes
  import opened Asn
  import opened PlatformModel
  import opened CurvePoints
  import opened CertParse
  import opened Ecies
  import opened SignedMessages
  import opened SignedEnvelopes

  function EncryptedNode(recipient: RecipientInfo, nonce: Bytes, joined: Bytes): Ieee1609Dot2Data {
    Ieee1609Dot2Data(3, Some(Encrypted(Some(EncryptedData(
      Some([Some(recipient)]), Some(Aes128Ccm(Some(CcmCiphertext(nonce, joined)))))))))
  }

  /** The ephemeral key travels compressed, and the CCM tag travels behind the ciphertext. */
  function BuildEncryptedData(e: EciesResult, recipientHid8: Hid8, curve: Curve): Ieee1609Dot2Data {
    var key := Some(EciesKey(FromSec1(e.ephemeralPubkey, 32), e.encryptedKey, e.tagKdf));
    var brainpool := curve.BrainpoolP256r1? || curve.BrainpoolP384r1?;
    var encKey := if brainpool then KeyBrainpoolP256r1(key) else KeyNistP256(key);
    EncryptedNode(CertRecipient(Some(PkRecipient(recipientHid8, Some(encKey)))), e.nonceCcm, e.ciphertext + e.tagCcm)
  }

  /** Nonce, ciphertext and tag, split at the last 16 bytes. */
  datatype SealedParts = SealedParts(nonce: Bytes, ciphertext: Bytes, tag: Bytes)

  function Split(enc: EncryptedData): Option<SealedParts> {
    match enc.ciphertext
    case Some(Aes128Ccm(Some(ccm))) =>
      var n := |ccm.ccmCiphertext|;
      if n < 16 then None
      else Some(SealedParts(ccm.nonce, ccm.ccmCiphertext[..n - 16], ccm.ccmCiphertext[n - 16..]))
    case _ => None
  }

  /** The ECIES parameters addressed to a certificate, with the curve its variant names. */
  function EciesPart(ri: RecipientInfo, parts: SealedParts): Option<(EciesResult, Curve)> {
    match ri
    case CertRecipient(Some(PkRecipient(_, Some(key)))) =>
      if key.KeyOther? || key.ecies.None? || key.ecies.value.v.None? then None else
      var k := key.ecies.value;
      var eph := ToSec1(k.v, 32);
      if eph == [] then None else
      Some((EciesResult(eph, k.c, k.t, parts.nonce, parts.ciphertext, parts.tag, []),
            if key.KeyBrainpoolP256r1? then BrainpoolP256r1 else NistP256))
    case _ => None
  }

  function FirstRecipient(enc: EncryptedData): Option<RecipientInfo> {
    if enc.recipients.None? || enc.recipients.value == [] then None else enc.recipients.value[0]
  }

  /** The client's own decryption: by the shared request key, or by ECIES with an empty P1. */
  function Decrypted(p: Platform, enc: Option<EncryptedData>, priv: Bytes, requestKey: Bytes): Option<Bytes> {
    var e :- enc;
    var parts :- Split(e);
    var ri :- FirstRecipient(e);
    if ri.PskRecipient? && requestKey != [] then CcmOpen(p, requestKey, parts.nonce, parts.ciphertext, parts.tag) else
    var (params, curve) :- EciesPart(ri, parts);
    EciesDecrypted(p, priv, params, [], curve)
  }

  function EncryptedContent(d: Ieee1609Dot2Data): Option<EncryptedData> {
    match d.content
    case Some(Encrypted(e)) => e
    case _ => None
  }

  /** What a request's recipient opens with its private key and the P1 it expects: the content
      key and the plaintext, provided the message is addressed to it. */
  function OpenedFor(p: Platform, d: Ieee1609Dot2Data, own: Hid8, priv: Bytes, p1: Bytes): Option<(Bytes, Bytes)> {
    var e :- EncryptedContent(d);
    var parts :- Split(e);
    var ri :- FirstRecipient(e);
    if !ri.CertRecipient? || ri.info.None? || ri.info.value.recipientId != own then None else
    var (params, curve) :- EciesPart(ri, parts);
    var key :- UnwrappedKey(p, priv, params, p1, curve);
    var plaintext :- EciesDecrypted(p, priv, params, p1, curve);
    Some((key, plaintext))
  }

  lemma JoinSplit(a: Bytes, tag: Bytes)
    requires |tag| == 16
    ensures (a + tag)[..|a + tag| - 16] == a && (a + tag)[|a + tag| - 16..] == tag
  {
  }

  /** Encrypt then decrypt through the wire form: compression of the ephemeral key and the joined
      tag lose nothing, for every plaintext and P1 on both ECIES curves. */
  lemma WireRoundTrip(p: Platform, recipientKey: Bytes, priv: Bytes, plaintext: Bytes, p1: Bytes, curve: Curve,
                      rnd: EciesEntropy, own: Hid8, e: EciesResult)
    requires p.Lawful() && IsP256Size(curve) && KeysMatch(p, curve, recipientKey, priv)
    requires EciesEncrypted(p, recipientKey, plaintext, p1, curve, rnd) == Some(e)
    ensures var d := BuildEncryptedData(e, own, curve);
            && OpenedFor(p, d, own, priv, p1) == Some((rnd.aesKey, plaintext))
            && (p1 == [] ==> forall psk :: Decrypted(p, EncryptedContent(d), priv, psk) == Some(plaintext))
  {
    var d := BuildEncryptedData(e, own, curve);
    var pt := FromSec1(e.ephemeralPubkey, 32);
    var eph := ToSec1(pt, 32);
    CompressedKeyMatches(p, curve, rnd.ephemeral);
    EciesRoundTrip(p, recipientKey, priv, plaintext, p1, curve, rnd, e, eph);
    assert p.seal(rnd.aesKey, rnd.nonce, plaintext).Some?;
    JoinSplit(e.ciphertext, e.tagCcm);
    var enc := EncryptedContent(d).value;
    var parts := SealedParts(e.nonceCcm, e.ciphertext, e.tagCcm);
    assert Split(enc) == Some(parts);
    var params := e.(ephemeralPubkey := eph, aesKey := []);
    assert EciesPart(FirstRecipient(enc).value, parts) == Some((params, curve));
    SameOpening(p, priv, e.(ephemeralPubkey := eph), p1, curve);
  }

  /** The content key field of the record is the sender's note; opening never reads it. */
  lemma SameOpening(p: Platform, priv: Bytes, e: EciesResult, p1: Bytes, curve: Curve)
    ensures UnwrappedKey(p, priv, e.(aesKey := []), p1, curve) == UnwrappedKey(p, priv, e, p1, curve)
    ensures EciesDecrypted(p, priv, e.(aesKey := []), p1, curve) == EciesDecrypted(p, priv, e, p1, curve)
  {
  }

  // --- Responses ---

  function StripTag(payload: Bytes, tag: bv8): Bytes {
    if |payload| > 2 && payload[0] == 0x01 && payload[1] == tag then payload[2..] else payload
  }

  function DecryptAndUnwrap(p: Platform, response: Bytes, priv: Bytes, requestKey: Bytes, tag: bv8, signer: CertInfo)
    : Result<Bytes>
  {
    var outer :- OkOr(p.decData(response), Decode);
    if outer.content.None? || !outer.content.value.Encrypted? then Err(Decode) else
    var plaintext :- OkOr(Decrypted(p, outer.content.value.encryptedData, priv, requestKey), Crypto);
    var m :- OkOr(Unwrapped(p, plaintext), Decode);
    if !Verifies(p, m, signer.publicKey, signer.certBytes) then Err(SignatureInvalid)
    else Ok(StripTag(m.payload, tag))
  }

  /** The leftmost 16 bytes of SHA-256 over the request exactly as sent. */
  predicate RequestHashMatches(p: Platform, request: Bytes, hash: Bytes) {
    request != [] && |hash| == 16 && hash == p.sha256(request)[..16]
  }

  datatype Response = Response(code: int, requestHash: Bytes, certificate: Option<CertInfo>)

  const EC_RESPONSE_TAG: bv8 := 0x81
  const AT_RESPONSE_TAG: bv8 := 0x83

  function ResponseCert(p: Platform, cert: Option<CertificateBase>, name: string): Option<CertInfo> {
    match cert
    case Some(c) => Some(FromStruct(p, c, p.encCert(c)).(name := name))
    case None => None
  }

  /** decode_ec_response and decode_at_response: they differ in the tag and the name only. */
  function DecodeResponse(p: Platform, tag: bv8, response: Bytes, priv: Bytes, requestKey: Bytes, request: Bytes,
                          signer: CertInfo)
    : Result<Response>
  {
    var inner :- DecryptAndUnwrap(p, response, priv, requestKey, tag, signer);
    var resp :- OkOr(p.decResponse(inner), Decode);
    var hash :- OkOr(Bounded(16, resp.requestHash), Decode);
    if !RequestHashMatches(p, request, hash) then Err(SignatureInvalid) else
    var name := if tag == EC_RESPONSE_TAG then "ec_response" else "at_response";
    Ok(Response(resp.responseCode, hash, ResponseCert(p, resp.certificate, name)))
  }

  /** The parts of an encrypted message, and what opens it: its last 16 bytes are the CCM tag, and the key
      is the one sent with the request if the message is addressed to a pre-shared key and there is
      one, and otherwise what ECIES with an empty P1 unwraps. */
  ghost predicate OpensAs(p: Platform, enc: EncryptedData, priv: Bytes, requestKey: Bytes, plaintext: Bytes,
                          ri: RecipientInfo, nonce: Bytes, ct: Bytes, tag: Bytes)
  {
    && enc.recipients.Some? && enc.recipients.value != [] && enc.recipients.value[0] == Some(ri)
    && enc.ciphertext == Some(Aes128Ccm(Some(CcmCiphertext(nonce, ct + tag)))) && |tag| == 16
    && if ri.PskRecipient? && requestKey != []
       then |requestKey| == 16 && |nonce| == 12 && p.open(requestKey, nonce, ct, tag) == Some(plaintext)
       else exists e, curve ::
              EciesPart(ri, SealedParts(nonce, ct, tag)) == Some((e, curve))
              && EciesDecrypted(p, priv, e, [], curve) == Some(plaintext)
  }

  ghost predicate Opens(p: Platform, enc: EncryptedData, priv: Bytes, requestKey: Bytes, plaintext: Bytes) {
    exists ri, nonce, ct, tag :: OpensAs(p, enc, priv, requestKey, plaintext, ri, nonce, ct, tag)
  }

  lemma DecryptedIff(p: Platform, enc: EncryptedData, priv: Bytes, requestKey: Bytes, plaintext: Bytes)
    ensures Decrypted(p, Some(enc), priv, requestKey) == Some(plaintext) <==> Opens(p, enc, priv, requestKey, plaintext)
  {
    if Decrypted(p, Some(enc), priv, requestKey) == Some(plaintext) {
      var parts := Split(enc).value;
      var ri := FirstRecipient(enc).value;
      assert enc.ciphertext.value.ccm.value.ccmCiphertext == parts.ciphertext + parts.tag;
      assert enc.ciphertext == Some(Aes128Ccm(Some(CcmCiphertext(parts.nonce, parts.ciphertext + parts.tag))));
      assert OpensAs(p, enc, priv, requestKey, plaintext, ri, parts.nonce, parts.ciphertext, parts.tag);
    }
    if Opens(p, enc, priv, requestKey, plaintext) {
      var ri, nonce, ct, tag :| OpensAs(p, enc, priv, requestKey, plaintext, ri, nonce, ct, tag);
      JoinSplit(ct, tag);
      assert Split(enc) == Some(SealedParts(nonce, ct, tag));
    }
  }

  /** The body of a payload: what follows the two bytes 01 and tag, if it begins with them and goes on, and
      otherwise the payload itself. */
  ghost predicate HasBody(payload: Bytes, tag: bv8, body: Bytes) {
    || (payload == [0x01, tag] + body && body != [])
    || (payload == body && !exists rest :: payload == [0x01, tag] + rest && rest != [])
  }

  lemma StripTagIff(payload: Bytes, tag: bv8, body: Bytes)
    ensures StripTag(payload, tag) == body <==> HasBody(payload, tag, body)
  {
    if |payload| > 2 && payload[0] == 0x01 && payload[1] == tag {
      assert payload == [0x01, tag] + payload[2..];
    }
  }

  /** What it takes for a response to count: it opens, it was signed by the authority, and it
      answers the request that was sent. */
  ghost predicate Genuine(p: Platform, tag: bv8, response: Bytes, priv: Bytes, requestKey: Bytes, request: Bytes,
                          signer: CertInfo, enc: EncryptedData, plaintext: Bytes, m: SignedMessage, body: Bytes,
                          resp: InnerResponse)
  {
    && (exists version :: p.decData(response) == Some(Ieee1609Dot2Data(version, Some(Encrypted(Some(enc))))))
    && Opens(p, enc, priv, requestKey, plaintext)
    && Unwrapped(p, plaintext) == Some(m) && m.tbsCoer != []
    && SignatureHolds(p, m.sigCurve, signer.publicKey, Is384(m.sigCurve), m.tbsCoer, signer.certBytes, m.sigR, m.sigS)
    && (m.hasSignerDigest ==> m.signerHid8 == ComputeHid8(p, signer.certBytes))
    && HasBody(m.payload, tag, body) && p.decResponse(body) == Some(resp)
    && request != [] && resp.requestHash == p.sha256(request)[..16]
  }

  /** What an accepted response says. */
  function Told(p: Platform, tag: bv8, resp: InnerResponse): Response {
    var name := if tag == 0x81 then "ec_response" else "at_response";
    Response(resp.responseCode, resp.requestHash,
             if resp.certificate.None? then None
             else Some(FromStruct(p, resp.certificate.value, p.encCert(resp.certificate.value)).(name := name)))
  }

  lemma DecodedIfGenuine(p: Platform, tag: bv8, response: Bytes, priv: Bytes, requestKey: Bytes, request: Bytes,
                         signer: CertInfo, enc: EncryptedData, plaintext: Bytes, m: SignedMessage, body: Bytes,
                         resp: InnerResponse)
    requires Genuine(p, tag, response, priv, requestKey, request, signer, enc, plaintext, m, body, resp)
    ensures DecodeResponse(p, tag, response, priv, requestKey, request, signer) == Ok(Told(p, tag, resp))
  {
    DecryptedIff(p, enc, priv, requestKey, plaintext);
    VerifiesIff(p, m, signer.publicKey, signer.certBytes);
    StripTagIff(m.payload, tag, body);
  }

  /** A response is accepted, and as saying r, exactly when it is genuine and says r. */
  lemma ResponseAcceptedIff(p: Platform, tag: bv8, response: Bytes, priv: Bytes, requestKey: Bytes, request: Bytes,
                            signer: CertInfo, r: Response)
    ensures DecodeResponse(p, tag, response, priv, requestKey, request, signer) == Ok(r) <==>
            exists enc, plaintext, m, body, resp ::
              Genuine(p, tag, response, priv, requestKey, request, signer, enc, plaintext, m, body, resp)
              && r == Told(p, tag, resp)
    ensures DecodeResponse(p, tag, response, priv, requestKey, request, signer) == Ok(r) ==>
              request != [] && r.requestHash == p.sha256(request)[..16]
  {
    if DecodeResponse(p, tag, response, priv, requestKey, request, signer) == Ok(r) {
      var outer := p.decData(response).value;
      var enc := outer.content.value.encryptedData.value;
      var plaintext := Decrypted(p, Some(enc), priv, requestKey).value;
      var m := Unwrapped(p, plaintext).value;
      var body := StripTag(m.payload, tag);
      var resp := p.decResponse(body).value;
      DecryptedIff(p, enc, priv, requestKey, plaintext);
      VerifiesIff(p, m, signer.publicKey, signer.certBytes);
      StripTagIff(m.payload, tag, body);
      assert outer == Ieee1609Dot2Data(outer.protocolVersion, Some(Encrypted(Some(enc))));
      assert Genuine(p, tag, response, priv, requestKey, request, signer, enc, plaintext, m, body, resp);
    }
    forall enc, plaintext, m, body, resp
      | Genuine(p, tag, response, priv, requestKey, request, signer, enc, plaintext, m, body, resp)
      ensures DecodeResponse(p, tag, response, priv, requestKey, request, signer) == Ok(Told(p, tag, resp))
    {
      DecodedIfGenuine(p, tag, response, priv, requestKey, request, signer, enc, plaintext, m, body, resp);
    }
  }

  /** Which error the first failing step gives. */
  lemma ResponseErrors(p: Platform, tag: bv8, response: Bytes, priv: Bytes, requestKey: Bytes, request: Bytes,
                       signer: CertInfo)
    ensures var r := DecodeResponse(p, tag, response, priv, requestKey, request, signer);
            match p.decData(response)
            case Some(Ieee1609Dot2Data(_, Some(Encrypted(enc)))) =>
              (match Decrypted(p, enc, priv, requestKey)
               case None => r == Err(Crypto)
               case Some(plaintext) =>
                 match Unwrapped(p, plaintext)
                 case None => r == Err(Decode)
                 case Some(m) =>
                   if !Verifies(p, m, signer.publicKey, signer.certBytes) then r == Err(SignatureInvalid)
                   else match p.decResponse(StripTag(m.payload, tag))
                        case None => r == Err(Decode)
                        case Some(resp) =>
                          var answers := request != [] && resp.requestHash == p.sha256(request)[..16];
                          if |resp.requestHash| > 16 then r == Err(Decode)
                          else !answers ==> r == Err(SignatureInvalid))
            case _ => r == Err(Decode)
  {
  }

  /** An authority's reply: tag the payload, sign it with the certificate's key, encrypt it under
      the key that came with the request. */
  function Reply(p: Platform, tag: bv8, inner: InnerResponse, signer: CertInfo, signerPriv: Bytes, requestKey: Bytes,
                 nonce: CcmNonce, pskId: Bytes, rnd: SignEntropy): Bytes
  {
    var body := p.encResponse(inner);
    if body == [] then [] else
    var signed := SignedByCert(p, [0x01, tag] + body, signer, signerPriv, signer.curve, rnd);
    if signed == [] then [] else
    match CcmSeal(p, requestKey, nonce, signed)
    case None => []
    case Some((ct, ctag)) => p.encData(EncryptedNode(PskRecipient(pskId), nonce, ct + ctag))
  }

  /** Every reply that was built over the request's key and hash is accepted, and read as it was meant. */
  lemma ReplyAccepted(p: Platform, tag: bv8, inner: InnerResponse, signer: CertInfo, signerPriv: Bytes,
                      requestKey: Bytes, nonce: CcmNonce, pskId: Bytes, rnd: SignEntropy, priv: Bytes,
                      request: Bytes)
    requires p.Lawful() && signer.curve != NistP384 && KeysMatch(p, signer.curve, signer.publicKey, signerPriv)
    requires OwnHid8(p, signer.certBytes, signer.hashedId8)
    requires Reply(p, tag, inner, signer, signerPriv, requestKey, nonce, pskId, rnd) != []
    requires RequestHashMatches(p, request, inner.requestHash)
    ensures var reply := Reply(p, tag, inner, signer, signerPriv, requestKey, nonce, pskId, rnd);
            var name := if tag == EC_RESPONSE_TAG then "ec_response" else "at_response";
            DecodeResponse(p, tag, reply, priv, requestKey, request, signer) ==
            Ok(Response(inner.responseCode, inner.requestHash, ResponseCert(p, inner.certificate, name)))
  {
    var body := p.encResponse(inner);
    var payload := [0x01, tag] + body;
    var signed := SignedByCert(p, payload, signer, signerPriv, signer.curve, rnd);
    var sealed := CcmSeal(p, requestKey, nonce, signed).value;
    var node := EncryptedNode(PskRecipient(pskId), nonce, sealed.0 + sealed.1);
    ReplyOpens(p, requestKey, nonce, pskId, signed, sealed, priv);
    SignThenVerify(p, payload, signer.publicKey, signerPriv, signer.certBytes, signer.hashedId8, signer.curve, rnd);
    assert StripTag(payload, tag) == body;
    assert p.decData(p.encData(node)) == Some(node);
    assert DecryptAndUnwrap(p, p.encData(node), priv, requestKey, tag, signer) == Ok(body);
  }

  lemma ReplyOpens(p: Platform, key: Bytes, nonce: CcmNonce, pskId: Bytes, plaintext: Bytes,
                   sealed: (Bytes, Bytes), priv: Bytes)
    requires p.CipherLaws() && CcmSeal(p, key, nonce, plaintext) == Some(sealed)
    ensures var node := EncryptedNode(PskRecipient(pskId), nonce, sealed.0 + sealed.1);
            Decrypted(p, EncryptedContent(node), priv, key) == Some(plaintext)
  {
    assert p.seal(key, nonce, plaintext).Some?;
    JoinSplit(sealed.0, sealed.1);
    var enc := EncryptedContent(EncryptedNode(PskRecipient(pskId), nonce, sealed.0 + sealed.1)).value;
    assert Split(enc) == Some(SealedParts(nonce, sealed.0, sealed.1));
  }
}
