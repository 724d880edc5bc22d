/** Building signed data, and the proof that the verifier accepts what the builder makes. */
module SignedEnvelopes {
  import opened Basics
  import opened Sizes
  import opened Asn
  import opened PlatformModel
  import opened CurvePoints
  import opened CertParse
  import opened SignedMessages

  /** The ECDSA nonce and the clock value one signature draws. */
  datatype SignEntropy = SignEntropy(nonce: Bytes, generationTime: int)

  function SignerNode(signerCert: Bytes, signerHid8: Hid8): SignerIdentifier {
    if signerCert == [] then SignerSelf else SignerDigest(signerHid8)
  }

  function SignedNode(tbs: ToBeSignedData, signerCert: Bytes, signerHid8: Hid8, curve: Curve, rs: (Bytes, Bytes))
    : SignedData
  {
    SignedData(
      if IsP256Size(curve) then AlgSha256 else AlgSha384,
      Some(tbs),
      Some(SignerNode(signerCert, signerHid8)),
      Some(BuildAsnSignature(rs.0, rs.1, curve)))
  }

  function Wrap(sd: SignedData): Ieee1609Dot2Data { Ieee1609Dot2Data(3, Some(Signed(Some(sd)))) }

  /** The signed and encoded envelope; no bytes if any step fails. */
  function Envelope(p: Platform, tbs: ToBeSignedData, priv: Bytes, signerCert: Bytes, signerHid8: Hid8, curve: Curve,
                    nonce: Bytes): Bytes
  {
    var tbsBytes := p.encTbsData(tbs);
    if tbsBytes == [] then [] else
    var rs := EcdsaSignDigest(p, priv, DoubleHash(p, CurveHash(curve), tbsBytes, signerCert), curve, nonce);
    if rs.None? then [] else p.encData(Wrap(SignedNode(tbs, signerCert, signerHid8, curve, rs.value)))
  }

  method FinalizeSignedData(p: Platform, tbs: ToBeSignedData, priv: Bytes, signerCert: Bytes, signerHid8: Hid8,
                            curve: Curve, nonce: Bytes) returns (r: Bytes)
    ensures r == Envelope(p, tbs, priv, signerCert, signerHid8, curve, nonce)
  {
    var sd := SignedData(if IsP256Size(curve) then AlgSha256 else AlgSha384, Some(tbs), None, None);
    var tbsBytes := p.encTbsData(tbs);
    if tbsBytes == [] { return []; }
    var concat := HashForCurve(p, tbsBytes, curve);
    concat := concat + HashForCurve(p, signerCert, curve);
    var e := HashForCurve(p, concat, curve);
    var sig := EcdsaSignDigest(p, priv, e, curve, nonce);
    if sig.None? { return []; }
    if signerCert == [] {
      sd := sd.(signer := Some(SignerSelf));
    } else {
      sd := sd.(signer := Some(SignerDigest(signerHid8)));
    }
    sd := sd.(signature := Some(BuildAsnSignature(sig.value.0, sig.value.1, curve)));
    r := p.encData(Ieee1609Dot2Data(3, Some(Signed(Some(sd)))));
  }

  function UnsecuredTbs(payload: Bytes, generationTime: int): ToBeSignedData {
    ToBeSignedData(
      Some(SignedDataPayload(Some(Ieee1609Dot2Data(3, Some(Unsecured(payload)))), None)),
      HeaderInfo(PSID_SCR, generationTime, []))
  }

  function ExternalTbs(extDataHash: Bytes, curve: Curve, generationTime: int): ToBeSignedData {
    ToBeSignedData(
      Some(SignedDataPayload(None, Some(
        if IsP256Size(curve) then Sha256HashedData(extDataHash) else Sha384HashedData(extDataHash)))),
      HeaderInfo(PSID_SCR, generationTime, []))
  }

  function SelfSigned(p: Platform, payload: Bytes, priv: Bytes, curve: Curve, rnd: SignEntropy): Bytes {
    Envelope(p, UnsecuredTbs(payload, rnd.generationTime), priv, [], ZERO_HID8, curve, rnd.nonce)
  }

  function SignedByCert(p: Platform, payload: Bytes, signer: CertInfo, priv: Bytes, curve: Curve, rnd: SignEntropy)
    : Bytes
  {
    Envelope(p, UnsecuredTbs(payload, rnd.generationTime), priv, signer.certBytes, signer.hashedId8, curve, rnd.nonce)
  }

  function ExternalPayload(p: Platform, extDataHash: Bytes, signer: CertInfo, priv: Bytes, curve: Curve,
                           rnd: SignEntropy)
    : Bytes
  {
    Envelope(p, ExternalTbs(extDataHash, curve, rnd.generationTime), priv, signer.certBytes, signer.hashedId8, curve,
             rnd.nonce)
  }

  // --- Sign then verify ---

  /** A signer whose certificate, if it has bytes, is filed under its own HashedId8. */
  predicate OwnHid8(p: Platform, signerCert: Bytes, signerHid8: Hid8) {
    signerCert != [] ==> signerHid8 == ComputeHid8(p, signerCert)
  }

  /** Every envelope that was built decodes to its parts, with r and s intact and the curve as
      it is read back. */
  lemma EnvelopeDecodes(p: Platform, tbs: ToBeSignedData, priv: Bytes, signerCert: Bytes, signerHid8: Hid8,
                        curve: Curve, nonce: Bytes, payload: Bytes)
      returns (sd: SignedData, rs: (Bytes, Bytes))
    requires p.Lawful()
    requires Envelope(p, tbs, priv, signerCert, signerHid8, curve, nonce) != []
    ensures p.encTbsData(tbs) != [] && p.PrivateOk(curve, priv)
    ensures EcdsaSignDigest(p, priv, DoubleHash(p, CurveHash(curve), p.encTbsData(tbs), signerCert), curve, nonce)
         == Some(rs)
    ensures p.decData(Envelope(p, tbs, priv, signerCert, signerHid8, curve, nonce)) == Some(Wrap(sd))
            && sd.tbsData == Some(tbs)
    ensures var m := SignedFields(p, sd, tbs, payload);
            && m.payload == payload && m.tbsCoer == p.encTbsData(tbs)
            && m.hasSignerDigest == (signerCert != []) && (signerCert != [] ==> m.signerHid8 == signerHid8)
            && m.sigR == rs.0 && m.sigS == rs.1 && m.sigCurve == ReadBackCurve(curve)
            && |rs.0| == |rs.1| == ScalarLen(curve)
  {
    var digest := DoubleHash(p, CurveHash(curve), p.encTbsData(tbs), signerCert);
    rs := EcdsaSignDigest(p, priv, digest, curve, nonce).value;
    sd := SignedNode(tbs, signerCert, signerHid8, curve, rs);
    assert p.PrivateOk(curve, priv) && |digest| == HashLen(curve);
    SignatureReadBack(rs.0, rs.1, curve);
  }

  /** The hash algorithm that goes with a signature variant. */
  function AlgorithmOf(sig: Option<Signature>): HashAlgorithm {
    match sig
    case Some(SigNistP256(_)) => AlgSha256
    case Some(SigBrainpoolP256r1(_)) => AlgSha256
    case Some(SigBrainpoolP384r1(_)) => AlgSha384
    case Some(SigNistP384(_)) => AlgSha384
    case _ => AlgOther
  }

  /** The frame of a signed message: protocol version 3, the SCR service, no other header field, and the
      hash that goes with the signature. */
  predicate WellFramed(p: Platform, coer: Bytes) {
    match p.decData(coer)
    case Some(Ieee1609Dot2Data(version, Some(Signed(Some(SignedData(hashId, Some(tbs), _, sig)))))) =>
      version == 3 && hashId == AlgorithmOf(sig) && tbs.headerInfo.psid == 623 && tbs.headerInfo.rest == []
    case _ => false
  }

  /** Every envelope that was built is well framed, and carries the time it was built at. */
  lemma EnvelopeFramed(p: Platform, payload: Bytes, hash: Bytes, priv: Bytes, signerCert: Bytes, signerHid8: Hid8,
                       curve: Curve, rnd: SignEntropy)
    requires p.Lawful()
    ensures var e := Envelope(p, UnsecuredTbs(payload, rnd.generationTime), priv, signerCert, signerHid8, curve,
                              rnd.nonce);
            e != [] ==> WellFramed(p, e)
    ensures var e := Envelope(p, ExternalTbs(hash, curve, rnd.generationTime), priv, signerCert, signerHid8, curve,
                              rnd.nonce);
            e != [] ==> WellFramed(p, e)
    ensures UnsecuredTbs(payload, rnd.generationTime).headerInfo.generationTime == rnd.generationTime
    ensures ExternalTbs(hash, curve, rnd.generationTime).headerInfo.generationTime == rnd.generationTime
  {
  }

  /** On the three curves the builder can name, the verifier accepts every envelope built with the
      matching key, for any payload that travels in it. */
  lemma EnvelopeVerifies(p: Platform, tbs: ToBeSignedData, pub: Bytes, priv: Bytes, signerCert: Bytes, signerHid8: Hid8,
                         curve: Curve, nonce: Bytes, payload: Bytes)
      returns (sd: SignedData)
    requires p.Lawful() && curve != NistP384 && KeysMatch(p, curve, pub, priv)
    requires OwnHid8(p, signerCert, signerHid8)
    requires Envelope(p, tbs, priv, signerCert, signerHid8, curve, nonce) != []
    ensures p.decData(Envelope(p, tbs, priv, signerCert, signerHid8, curve, nonce)) == Some(Wrap(sd))
            && sd.tbsData == Some(tbs)
    ensures Verifies(p, SignedFields(p, sd, tbs, payload), pub, signerCert)
  {
    var rs;
    sd, rs := EnvelopeDecodes(p, tbs, priv, signerCert, signerHid8, curve, nonce, payload);
    SignatureVerifies(p, pub, priv, DoubleHash(p, CurveHash(curve), p.encTbsData(tbs), signerCert), curve, nonce);
  }

  /** Unwrapping an envelope around a payload gives exactly that payload back, and nothing if it
      is empty; the matching key then verifies it. */
  lemma SignThenVerify(p: Platform, payload: Bytes, pub: Bytes, priv: Bytes, signerCert: Bytes, signerHid8: Hid8,
                       curve: Curve, rnd: SignEntropy)
    requires p.Lawful() && curve != NistP384 && KeysMatch(p, curve, pub, priv)
    requires OwnHid8(p, signerCert, signerHid8)
    requires Envelope(p, UnsecuredTbs(payload, rnd.generationTime), priv, signerCert, signerHid8, curve,
                      rnd.nonce) != []
    ensures var m := Unwrapped(p, Envelope(p, UnsecuredTbs(payload, rnd.generationTime), priv, signerCert, signerHid8,
                                           curve, rnd.nonce));
            && (m.Some? <==> payload != [])
            && (m.Some? ==> m.value.payload == payload && Verifies(p, m.value, pub, signerCert))
  {
    var sd := EnvelopeVerifies(p, UnsecuredTbs(payload, rnd.generationTime), pub, priv, signerCert, signerHid8, curve,
                               rnd.nonce, payload);
  }

  /** A NIST P-384 envelope is read back as Brainpool P-384, so the verifier checks it on the
      wrong curve: the outcome is whatever that curve says of the same digest, r and s. */
  lemma NistP384ReadAsBrainpool(p: Platform, payload: Bytes, pub: Bytes, priv: Bytes, signer: CertInfo,
                                rnd: SignEntropy)
    requires p.Lawful() && payload != [] && pub != [] && OwnHid8(p, signer.certBytes, signer.hashedId8)
    requires SignedByCert(p, payload, signer, priv, NistP384, rnd) != []
    ensures var m := Unwrapped(p, SignedByCert(p, payload, signer, priv, NistP384, rnd));
            && m.Some? && m.value.sigCurve == BrainpoolP384r1
            && (Verifies(p, m.value, pub, signer.certBytes) <==>
                var digest := DoubleHash(p, Sha384, p.encTbsData(UnsecuredTbs(payload, rnd.generationTime)),
                                         signer.certBytes);
                var rs := p.sign(NistP384, priv, digest, rnd.nonce);
                EcdsaVerifyDigest(p, pub, digest, rs.0, rs.1, BrainpoolP384r1))
  {
    var sd, rs := EnvelopeDecodes(p, UnsecuredTbs(payload, rnd.generationTime), priv, signer.certBytes,
                                  signer.hashedId8, NistP384, rnd.nonce, payload);
  }
}
