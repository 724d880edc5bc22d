/** Unwrapping and verifying signed data (section 5.3.1 of IEEE 1609.2). */
module SignedMessages {
  import opened Basics
  import opened Sizes
  import opened Asn
  import opened PlatformModel
  import opened CurvePoints
  import opened CertParse

  datatype SignedMessage = SignedMessage(
    payload: Bytes,
    tbsCoer: Bytes,
    signerHid8: Hid8,
    hasSignerDigest: bool,
    sigR: Bytes,
    sigS: Bytes,
    sigCurve: Curve)

  /** Some trust list producers emit non-canonical OER, so decoding falls back to it. */
  function DecodeLenient(p: Platform, coer: Bytes): Option<Ieee1609Dot2Data> {
    var strict := p.decData(coer);
    if strict.Some? then strict else p.decDataBasic(coer)
  }

  /** What the verifier keeps of a SignedData, next to its payload. */
  function SignedFields(p: Platform, sd: SignedData, tbs: ToBeSignedData, payload: Bytes): SignedMessage {
    var digest := if sd.signer.Some? && sd.signer.value.SignerDigest? then sd.signer.value.digest else [];
    var rs := ExtractSig(sd.signature);
    SignedMessage(
      payload := payload,
      tbsCoer := p.encTbsData(tbs),
      signerHid8 := DigestOrZero(digest),
      hasSignerDigest := |digest| == 8,
      sigR := if rs.Some? then rs.value.r else [],
      sigS := if rs.Some? then rs.value.s else [],
      sigCurve := if rs.Some? then rs.value.curve else NistP256)
  }

  function SignedContent(d: Ieee1609Dot2Data): Option<SignedData> {
    match d.content
    case Some(Signed(sd)) => sd
    case _ => None
  }

  function UnsecuredPayload(pl: SignedDataPayload): Option<Bytes> {
    match pl.data
    case Some(Ieee1609Dot2Data(_, Some(Unsecured(b)))) => if b == [] then None else Some(b)
    case _ => None
  }

  function Unwrapped(p: Platform, coer: Bytes): Option<SignedMessage> {
    var outer :- DecodeLenient(p, coer);
    var sd :- SignedContent(outer);
    var tbs :- sd.tbsData;
    var pl :- tbs.payload;
    var bytes :- UnsecuredPayload(pl);
    Some(SignedFields(p, sd, tbs, bytes))
  }

  predicate Verifies(p: Platform, m: SignedMessage, pubkey: Bytes, signerCert: Bytes) {
    && pubkey != [] && m.tbsCoer != []
    && |m.sigR| == ScalarLen(m.sigCurve) && |m.sigS| == ScalarLen(m.sigCurve)
    && (m.hasSignerDigest ==> ComputeHid8(p, signerCert) == m.signerHid8)
    && EcdsaVerifyDigest(p, pubkey, DoubleHash(p, CurveHash(m.sigCurve), m.tbsCoer, signerCert), m.sigR, m.sigS,
                         m.sigCurve)
  }

  method Unwrap(p: Platform, coer: Bytes) returns (r: Option<SignedMessage>)
    ensures r == Unwrapped(p, coer)
  {
    var outer := p.decData(coer);
    if outer.None? { outer := p.decDataBasic(coer); }
    if outer.None? { return None; }
    if outer.value.content.None? || !outer.value.content.value.Signed? { return None; }
    var content := outer.value.content.value.signedData;
    if content.None? || content.value.tbsData.None? || content.value.tbsData.value.payload.None? { return None; }
    var sd, tbs := content.value, content.value.tbsData.value;
    var result := SignedMessage([], p.encTbsData(tbs), ZERO_HID8, false, [], [], NistP256);
    if sd.signer.Some? && sd.signer.value.SignerDigest? && |sd.signer.value.digest| == 8 {
      result := result.(signerHid8 := sd.signer.value.digest, hasSignerDigest := true);
    }
    var rs := ExtractSig(sd.signature);
    if rs.Some? {
      result := result.(sigR := rs.value.r, sigS := rs.value.s, sigCurve := rs.value.curve);
    }
    var data := tbs.payload.value.data;
    if data.None? || data.value.content.None? || !data.value.content.value.Unsecured? { return None; }
    result := result.(payload := data.value.content.value.bytes);
    if result.payload == [] { return None; }
    r := Some(result);
  }

  method Verify(p: Platform, data: SignedMessage, pubkey: Bytes, signerCert: Bytes) returns (ok: bool)
    ensures ok == Verifies(p, data, pubkey, signerCert)
  {
    if pubkey == [] || data.tbsCoer == [] { return false; }
    var slen := ScalarLen(data.sigCurve);
    if |data.sigR| != slen || |data.sigS| != slen { return false; }
    if data.hasSignerDigest {
      var computed := ComputeHid8(p, signerCert);
      if computed != data.signerHid8 { return false; }
    }
    var concat := HashForCurve(p, data.tbsCoer, data.sigCurve);
    concat := concat + HashForCurve(p, signerCert, data.sigCurve);
    var digest := HashForCurve(p, concat, data.sigCurve);
    var sigR, sigS := Bounded(48, data.sigR), Bounded(48, data.sigS);
    if sigR.None? || sigS.None? { return false; }
    ok := EcdsaVerifyDigest(p, pubkey, digest, sigR.value, sigS.value, data.sigCurve);
  }

  /** Verification, in terms of the primitives: the message has a signed part, the signature holds on
      the curve it names, and a signer digest is the identity of the certificate given. */
  lemma VerifiesIff(p: Platform, m: SignedMessage, pubkey: Bytes, signerCert: Bytes)
    ensures Verifies(p, m, pubkey, signerCert) <==>
            && m.tbsCoer != []
            && SignatureHolds(p, m.sigCurve, pubkey, Is384(m.sigCurve), m.tbsCoer, signerCert, m.sigR, m.sigS)
            && (m.hasSignerDigest ==> m.signerHid8 == ComputeHid8(p, signerCert))
  {
    if |m.sigR| == |m.sigS| == ScalarLen(m.sigCurve) {
      DigestCheckIff(p, m.sigCurve, pubkey, CurveHash(m.sigCurve), m.tbsCoer, signerCert, m.sigR, m.sigS);
    }
    if SignatureHolds(p, m.sigCurve, pubkey, Is384(m.sigCurve), m.tbsCoer, signerCert, m.sigR, m.sigS) {
      assert pubkey != [];
    }
  }

  /** The bytes are a signed message with this payload: decoded strictly, or leniently if that fails. */
  ghost predicate CarriesPayload(p: Platform, coer: Bytes, sd: SignedData, tbs: ToBeSignedData, payload: Bytes) {
    exists version, inner, hash ::
      && (p.decData(coer) == Some(Ieee1609Dot2Data(version, Some(Signed(Some(sd)))))
          || (p.decData(coer).None? && p.decDataBasic(coer) == Some(Ieee1609Dot2Data(version, Some(Signed(Some(sd)))))))
      && sd.tbsData == Some(tbs)
      && tbs.payload == Some(SignedDataPayload(Some(Ieee1609Dot2Data(inner, Some(Unsecured(payload)))), hash))
      && payload != []
  }

  /** What is kept of it: the signed part encoded again, an 8-byte signer digest if there is one, and
      r, s and curve of the signature if it can be read. */
  ghost predicate Keeps(p: Platform, sd: SignedData, tbs: ToBeSignedData, m: SignedMessage) {
    && m.tbsCoer == p.encTbsData(tbs)
    && (if m.hasSignerDigest then sd.signer == Some(SignerDigest(m.signerHid8))
        else m.signerHid8 == ZERO_HID8 && forall d: Hid8 :: sd.signer != Some(SignerDigest(d)))
    && match ExtractSig(sd.signature)
       case Some(SigRS(r, s, curve)) => m.sigR == r && m.sigS == s && m.sigCurve == curve
       case None => m.sigR == [] && m.sigS == [] && m.sigCurve == NistP256
  }

  lemma UnwrappedIff(p: Platform, coer: Bytes, m: SignedMessage)
    ensures Unwrapped(p, coer) == Some(m) <==>
            exists sd, tbs :: CarriesPayload(p, coer, sd, tbs, m.payload) && Keeps(p, sd, tbs, m)
  {
    if Unwrapped(p, coer) == Some(m) {
      var outer := DecodeLenient(p, coer).value;
      var sd := SignedContent(outer).value;
      var tbs := sd.tbsData.value;
      var data := tbs.payload.value.data.value;
      assert data == Ieee1609Dot2Data(data.protocolVersion, Some(Unsecured(m.payload)));
      assert outer == Ieee1609Dot2Data(outer.protocolVersion, Some(Signed(Some(sd))));
      assert tbs.payload == Some(SignedDataPayload(Some(data), tbs.payload.value.extDataHash));
      assert CarriesPayload(p, coer, sd, tbs, m.payload);
      assert Keeps(p, sd, tbs, m);
    }
    forall sd, tbs | CarriesPayload(p, coer, sd, tbs, m.payload) && Keeps(p, sd, tbs, m)
      ensures Unwrapped(p, coer) == Some(m)
    {
      KeepsIs(p, sd, tbs, m);
    }
  }

  lemma KeepsIs(p: Platform, sd: SignedData, tbs: ToBeSignedData, m: SignedMessage)
    requires Keeps(p, sd, tbs, m)
    ensures m == SignedFields(p, sd, tbs, m.payload)
  {
  }
}
