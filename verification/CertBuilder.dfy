/** Building certificates, and the proof that built chains validate. */
module CertBuilder {
  import opened Basics
  import opened Sizes
  import opened Asn
  import opened PlatformModel
  import opened CurvePoints
  import opened CertParse
  import opened TrustStore

  const DURATION_YEARS := 30

  function TbsStruct(name: string, key: Bytes, isCa: bool): ToBeSignedCertificate
    requires |key| == 65
  {
    ToBeSignedCertificate(
      name,
      Some(ValidityPeriod(0, Some(Years(DURATION_YEARS)))),
      isCa,
      None,
      Some(VerificationKey(Some(VkNistP256(Some(Uncompressed(key[1..33], key[33..65])))))),
      [])
  }

  function CertStruct(tbs: ToBeSignedCertificate, issuerHid8: Hid8, isSelfSigned: bool, rs: (Bytes, Bytes))
    : CertificateBase
  {
    CertificateBase(
      3,
      Some(if isSelfSigned then SelfIssued(AlgSha256) else Sha256AndDigest(issuerHid8)),
      Some(tbs),
      Some(SigNistP256(Some(EcdsaSignature(Some(XOnly(Fixed(rs.0, 32))), Fixed(rs.1, 32))))),
      [])
  }

  /** The record as the builder fills it, next to the encoded certificate. */
  function BuiltInfo(p: Platform, name: string, key: Bytes, issuerHid8: Hid8, isSelfSigned: bool, rs: (Bytes, Bytes),
                     tbsCoer: Bytes, coer: Bytes): CertInfo
  {
    CertInfo(
      certBytes := coer,
      hashedId8 := ComputeHid8(p, coer),
      publicKey := key,
      encryptionKey := [],
      encCurve := NistP256,
      issuerHashId8 := if isSelfSigned then ZERO_HID8 else issuerHid8,
      isSelfSigned := isSelfSigned,
      tbsBytes := tbsCoer,
      signatureR := rs.0,
      signatureS := rs.1,
      curve := NistP256,
      issuerHash := Sha256,
      validityStart := 0,
      validityDuration := DURATION_YEARS * YEAR_SECONDS,
      name := name)
  }

  function BuildSignedCert(p: Platform, name: string, subjectKey: Bytes, issuerPriv: Bytes, issuerHid8: Hid8,
                           isCa: bool, isSelfSigned: bool, issuerCert: Bytes, nonce: Bytes): Option<CertInfo>
  {
    if |subjectKey| != 65 then None else
    var tbs := TbsStruct(name, subjectKey, isCa);
    var tbsCoer := p.encTbsCert(tbs);
    if tbsCoer == [] then None else
    var concat := p.sha256(tbsCoer) + p.sha256(if isSelfSigned then [] else issuerCert);
    var rs :- EcdsaSignDigest(p, issuerPriv, p.sha256(concat), NistP256, nonce);
    var certBytes := p.encCert(CertStruct(tbs, issuerHid8, isSelfSigned, rs));
    if certBytes == [] then None else
    var cb :- Bounded(MAX_COER_MESSAGE, certBytes);
    var tb :- Bounded(MAX_COER_MESSAGE, tbsCoer);
    Some(BuiltInfo(p, name, subjectKey, issuerHid8, isSelfSigned, rs, tb, cb))
  }

  function BuildRootCert(p: Platform, name: string, key: Bytes, priv: Bytes, nonce: Bytes): Option<CertInfo> {
    BuildSignedCert(p, name, key, priv, ZERO_HID8, true, true, [], nonce)
  }

  /** Issued by a certificate the caller holds. */
  function BuildIssued(p: Platform, name: string, key: Bytes, issuer: CertInfo, issuerPriv: Bytes, isCa: bool,
                       nonce: Bytes)
    : Option<CertInfo>
  {
    BuildSignedCert(p, name, key, issuerPriv, issuer.hashedId8, isCa, false, issuer.certBytes, nonce)
  }

  /** What any 65-byte key reads back as: the prefix is not kept. */
  function AsUncompressed(key: Bytes): Bytes
    requires |key| == 65
  {
    [0x04] + key[1..]
  }

  /** What a successful build went through. */
  lemma BuildSteps(p: Platform, name: string, key: Bytes, issuerPriv: Bytes, issuerHid8: Hid8, isCa: bool,
                   isSelfSigned: bool, issuerCert: Bytes, nonce: Bytes, ci: CertInfo)
      returns (cert: CertificateBase, rs: (Bytes, Bytes))
    requires p.SignatureLaws() && p.CodecLaws()
    requires BuildSignedCert(p, name, key, issuerPriv, issuerHid8, isCa, isSelfSigned, issuerCert, nonce) == Some(ci)
    ensures |key| == 65 && |rs.0| == |rs.1| == 32
    ensures cert == CertStruct(TbsStruct(name, key, isCa), issuerHid8, isSelfSigned, rs)
    ensures 0 < |ci.certBytes| <= MAX_COER_MESSAGE && p.decCert(ci.certBytes) == Some(cert)
    ensures |ci.tbsBytes| <= MAX_COER_MESSAGE && ci.tbsBytes == p.encTbsCert(TbsStruct(name, key, isCa))
    ensures ci == BuiltInfo(p, name, key, issuerHid8, isSelfSigned, rs, ci.tbsBytes, ci.certBytes)
  {
    rs := (ci.signatureR, ci.signatureS);
    cert := CertStruct(TbsStruct(name, key, isCa), issuerHid8, isSelfSigned, rs);
    assert p.PrivateOk(NistP256, issuerPriv);
  }

  /** Field by field, parsing the structure the builder encodes gives the record it fills, but for
      the prefix of the key. */
  lemma StructReparses(p: Platform, name: string, key: Bytes, issuerHid8: Hid8, isCa: bool, isSelfSigned: bool,
                       rs: (Bytes, Bytes), coer: Bytes)
    requires |key| == 65 && |rs.0| == |rs.1| == 32 && 0 < |coer| <= MAX_COER_MESSAGE
    requires |p.encTbsCert(TbsStruct(name, key, isCa))| <= MAX_COER_MESSAGE
    requires p.decCert(coer) == Some(CertStruct(TbsStruct(name, key, isCa), issuerHid8, isSelfSigned, rs))
    ensures FromCoer(p, coer)
         == Some(BuiltInfo(p, "", AsUncompressed(key), issuerHid8, isSelfSigned, rs,
                           p.encTbsCert(TbsStruct(name, key, isCa)), coer))
  {
    SignatureReadBack(rs.0, rs.1, NistP256);
    var cert := CertStruct(TbsStruct(name, key, isCa), issuerHid8, isSelfSigned, rs);
    assert Some(BuildAsnSignature(rs.0, rs.1, NistP256)) == cert.signature;
    assert [0x04] + key[1..33] + key[33..65] == AsUncompressed(key);
  }

  /** The builder fills the record by hand; parsing the bytes it produced gives the same record,
      exactly when the key it was given has the prefix of an uncompressed point. */
  lemma BuiltCertReparses(p: Platform, name: string, key: Bytes, issuerPriv: Bytes, issuerHid8: Hid8, isCa: bool,
                          isSelfSigned: bool, issuerCert: Bytes, nonce: Bytes, ci: CertInfo)
    requires p.Lawful()
    requires BuildSignedCert(p, name, key, issuerPriv, issuerHid8, isCa, isSelfSigned, issuerCert, nonce) == Some(ci)
    ensures |key| == 65 && FromCoer(p, ci.certBytes) == Some(ci.(name := "", publicKey := AsUncompressed(key)))
    ensures FromCoer(p, ci.certBytes) == Some(ci.(name := "")) <==> key[0] == 0x04
    ensures WellParsed(p, ci)
  {
    var cert, rs := BuildSteps(p, name, key, issuerPriv, issuerHid8, isCa, isSelfSigned, issuerCert, nonce, ci);
    StructReparses(p, name, key, issuerHid8, isCa, isSelfSigned, rs, ci.certBytes);
    assert AsUncompressed(key)[0] == 0x04;
    if key[0] == 0x04 { assert AsUncompressed(key) == key; }
  }

  /** What a built certificate says on the wire: its name, thirty years from the beginning of TAI, the given key,
      whether it may issue, and who issued it. */
  lemma BuiltCertContents(p: Platform, name: string, key: Bytes, issuerPriv: Bytes, issuerHid8: Hid8, isCa: bool,
                          isSelfSigned: bool, issuerCert: Bytes, nonce: Bytes, ci: CertInfo)
    requires p.Lawful()
    requires BuildSignedCert(p, name, key, issuerPriv, issuerHid8, isCa, isSelfSigned, issuerCert, nonce) == Some(ci)
    ensures |key| == 65 && p.decCert(ci.certBytes).Some?
    ensures var cert := p.decCert(ci.certBytes).value;
            && cert.version == 3 && cert.toBeSigned.Some?
            && cert.issuer == Some(if isSelfSigned then SelfIssued(AlgSha256) else Sha256AndDigest(issuerHid8))
            && var tbs := cert.toBeSigned.value;
            && tbs.id == name && tbs.certIssuePermissions == isCa && tbs.encryptionKey == None
            && tbs.validityPeriod == Some(ValidityPeriod(0, Some(Years(30))))
            && var pt := Uncompressed(key[1..33], key[33..]);
               tbs.verifyKeyIndicator == Some(VerificationKey(Some(VkNistP256(Some(pt)))))
  {
    var cert, rs := BuildSteps(p, name, key, issuerPriv, issuerHid8, isCa, isSelfSigned, issuerCert, nonce, ci);
    assert key[33..65] == key[33..];
  }

  /** The builder's double hash is the one the verifier computes. */
  lemma BuiltCertVerifies(p: Platform, name: string, key: Bytes, issuerPriv: Bytes, issuerHid8: Hid8, isCa: bool,
                          isSelfSigned: bool, issuerCert: Bytes, nonce: Bytes, ci: CertInfo, issuer: CertInfo)
    requires p.Lawful() && issuer.curve == NistP256 && KeysMatch(p, NistP256, issuer.publicKey, issuerPriv)
    requires BuildSignedCert(p, name, key, issuerPriv, issuerHid8, isCa, isSelfSigned, issuerCert, nonce) == Some(ci)
    requires !isSelfSigned ==> issuerCert == issuer.certBytes
    ensures VerifiesCert(p, ci, issuer)
  {
    var digest := DoubleHash(p, Sha256, ci.tbsBytes, if isSelfSigned then [] else issuerCert);
    SignatureVerifies(p, issuer.publicKey, issuerPriv, digest, NistP256, nonce);
  }

  predicate InWindow(t: int) { 0 <= t < DURATION_YEARS * YEAR_SECONDS }

  /** `ci` names `issuer`, carries its signature and is valid for the 30 years. */
  ghost predicate IssuedBy(p: Platform, ci: CertInfo, issuer: CertInfo) {
    && !ci.isSelfSigned && ci.issuerHashId8 == issuer.hashedId8 && VerifiesCert(p, ci, issuer)
    && forall t :: InWindow(t) ==> ci.ValidAt(t)
  }

  ghost predicate RootOfTrust(p: Platform, root: CertInfo) {
    root.isSelfSigned && VerifiesCert(p, root, root) && forall t :: InWindow(t) ==> root.ValidAt(t)
  }

  lemma BuiltRoot(p: Platform, name: string, key: Bytes, priv: Bytes, nonce: Bytes, root: CertInfo)
    requires p.Lawful() && KeysMatch(p, NistP256, key, priv) && BuildRootCert(p, name, key, priv, nonce) == Some(root)
    ensures RootOfTrust(p, root) && root.publicKey == key && root.curve == NistP256
  {
    BuiltCertVerifies(p, name, key, priv, ZERO_HID8, true, true, [], nonce, root, root);
  }

  lemma BuiltUnder(p: Platform, name: string, key: Bytes, issuer: CertInfo, issuerPriv: Bytes, isCa: bool,
                   nonce: Bytes, ci: CertInfo)
    requires p.Lawful() && issuer.curve == NistP256 && KeysMatch(p, NistP256, issuer.publicKey, issuerPriv)
    requires BuildIssued(p, name, key, issuer, issuerPriv, isCa, nonce) == Some(ci)
    ensures IssuedBy(p, ci, issuer) && ci.publicKey == key && ci.curve == NistP256
  {
    BuiltCertVerifies(p, name, key, issuerPriv, issuer.hashedId8, isCa, false, issuer.certBytes, nonce, ci, issuer);
  }

  /** A root and a certificate it issued: the chain validates for the whole 30 years, with the root
      anywhere among the stored certificates. */
  lemma TwoLevelChain(p: Platform, certs: Store, root: CertInfo, leaf: CertInfo, t: int)
    requires RootOfTrust(p, root) && IssuedBy(p, leaf, root) && InWindow(t)
    requires root.hashedId8 in certs && certs[root.hashedId8] == root
    ensures ValidChain(p, certs, map[], leaf, t)
  {
    assert Reaches(p, certs, map[], root, t, 1);
  }

  lemma ThreeLevelChain(p: Platform, certs: Store, root: CertInfo, ca: CertInfo, leaf: CertInfo, t: int)
    requires RootOfTrust(p, root) && IssuedBy(p, ca, root) && IssuedBy(p, leaf, ca) && InWindow(t)
    requires root.hashedId8 in certs && certs[root.hashedId8] == root
    requires ca.hashedId8 in certs && certs[ca.hashedId8] == ca
    ensures ValidChain(p, certs, map[], leaf, t)
  {
    assert Reaches(p, certs, map[], root, t, 0);
    assert Reaches(p, certs, map[], ca, t, 1);
  }

  /** Whatever is built from matching keys validates in every store that files the issuers under
      their own HashedId8: an authority under a root, and a certificate under that authority. */
  lemma BuiltChainsValidate(p: Platform, certs: Store, rootKey: Bytes, rootPriv: Bytes, caKey: Bytes, caPriv: Bytes,
                            leafKey: Bytes, root: CertInfo, ca: CertInfo, leaf: CertInfo,
                            names: (string, string, string), nonces: (Bytes, Bytes, Bytes), t: int)
    requires p.Lawful() && KeysMatch(p, NistP256, rootKey, rootPriv) && KeysMatch(p, NistP256, caKey, caPriv)
    requires BuildRootCert(p, names.0, rootKey, rootPriv, nonces.0) == Some(root)
    requires BuildIssued(p, names.1, caKey, root, rootPriv, true, nonces.1) == Some(ca)
    requires BuildIssued(p, names.2, leafKey, ca, caPriv, false, nonces.2) == Some(leaf)
    requires root.hashedId8 in certs && certs[root.hashedId8] == root && InWindow(t)
    ensures ValidChain(p, certs, map[], ca, t)
    ensures ca.hashedId8 in certs && certs[ca.hashedId8] == ca ==> ValidChain(p, certs, map[], leaf, t)
  {
    BuiltRoot(p, names.0, rootKey, rootPriv, nonces.0, root);
    BuiltUnder(p, names.1, caKey, root, rootPriv, true, nonces.1, ca);
    BuiltUnder(p, names.2, leafKey, ca, caPriv, false, nonces.2, leaf);
    TwoLevelChain(p, certs, root, ca, t);
    if ca.hashedId8 in certs && certs[ca.hashedId8] == ca { ThreeLevelChain(p, certs, root, ca, leaf, t); }
  }
}
