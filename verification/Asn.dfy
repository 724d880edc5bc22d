/** The ASN.1 structures that cross the wire, as values. A pointer that the client tests
    for null is an Option; a CHOICE has one constructor for each variant the client looks at and
    one for all the others. Fields that the client never reads but that are part of what it
    encodes again are held in a `rest`. */
module Asn {
  import opened Basics

  type Uint16 = n: nat | n < 0x1_0000
  type Uint32 = n: nat | n < 0x1_0000_0000

  datatype HashAlgorithm = AlgSha256 | AlgSha384 | AlgOther

  /** EccP256CurvePoint and EccP384CurvePoint differ only in the coordinate size. */
  datatype CurvePoint =
    | XOnly(x: Bytes)
    | CompressedY0(x: Bytes)
    | CompressedY1(x: Bytes)
    | Uncompressed(x: Bytes, y: Bytes)
    | OtherPoint

  datatype EcdsaSignature = EcdsaSignature(rSig: Option<CurvePoint>, sSig: Bytes)

  datatype Signature =
    | SigNistP256(ecdsa: Option<EcdsaSignature>)
    | SigBrainpoolP256r1(ecdsa: Option<EcdsaSignature>)
    | SigBrainpoolP384r1(ecdsa: Option<EcdsaSignature>)
    | SigNistP384(ecdsa: Option<EcdsaSignature>)
    | SigOther

  datatype PublicVerificationKey =
    | VkNistP256(point: Option<CurvePoint>)
    | VkBrainpoolP256r1(point: Option<CurvePoint>)
    | VkBrainpoolP384r1(point: Option<CurvePoint>)
    | VkNistP384(point: Option<CurvePoint>)
    | VkOther

  // --- Certificates ---

  datatype Duration =
    | Microseconds(n: Uint16) | Milliseconds(n: Uint16) | Seconds(n: Uint16) | Minutes(n: Uint16)
    | Hours(n: Uint16) | SixtyHours(n: Uint16) | Years(n: Uint16) | OtherDuration

  datatype ValidityPeriod = ValidityPeriod(start: Uint32, duration: Option<Duration>)

  datatype VerificationKeyIndicator =
    | VerificationKey(key: Option<PublicVerificationKey>)
    | ReconstructionValue(point: CurvePoint)
    | OtherIndicator

  datatype EncryptionKey =
    | EkNistP256(point: Option<CurvePoint>)
    | EkBrainpoolP256r1(point: Option<CurvePoint>)
    | EkOther

  datatype ToBeSignedCertificate = ToBeSignedCertificate(
    id: string,
    validityPeriod: Option<ValidityPeriod>,
    certIssuePermissions: bool,
    encryptionKey: Option<EncryptionKey>,
    verifyKeyIndicator: Option<VerificationKeyIndicator>,
    rest: Bytes)

  datatype IssuerIdentifier =
    | SelfIssued(alg: HashAlgorithm)
    | Sha256AndDigest(digest: Bytes)
    | Sha384AndDigest(digest: Bytes)
    | OtherIssuer

  datatype CertificateBase = CertificateBase(
    version: int,
    issuer: Option<IssuerIdentifier>,
    toBeSigned: Option<ToBeSignedCertificate>,
    signature: Option<Signature>,
    rest: Bytes)

  // --- IEEE 1609.2 data ---

  datatype HashedData = Sha256HashedData(hash: Bytes) | Sha384HashedData(hash: Bytes) | OtherHashedData

  datatype HeaderInfo = HeaderInfo(psid: int, generationTime: int, rest: Bytes)

  datatype SignedDataPayload = SignedDataPayload(data: Option<Ieee1609Dot2Data>, extDataHash: Option<HashedData>)

  datatype ToBeSignedData = ToBeSignedData(payload: Option<SignedDataPayload>, headerInfo: HeaderInfo)

  datatype SignerIdentifier = SignerSelf | SignerDigest(digest: Bytes) | SignerOther

  datatype SignedData = SignedData(
    hashId: HashAlgorithm,
    tbsData: Option<ToBeSignedData>,
    signer: Option<SignerIdentifier>,
    signature: Option<Signature>)

  datatype EciesKey = EciesKey(v: Option<CurvePoint>, c: Bytes, t: Bytes)

  datatype EncryptedKey =
    | KeyNistP256(ecies: Option<EciesKey>)
    | KeyBrainpoolP256r1(ecies: Option<EciesKey>)
    | KeyOther

  datatype PkRecipient = PkRecipient(recipientId: Bytes, encKey: Option<EncryptedKey>)

  datatype RecipientInfo =
    | PskRecipient(pskId: Bytes)
    | CertRecipient(info: Option<PkRecipient>)
    | OtherRecipient

  datatype CcmCiphertext = CcmCiphertext(nonce: Bytes, ccmCiphertext: Bytes)

  datatype SymmetricCiphertext = Aes128Ccm(ccm: Option<CcmCiphertext>) | OtherCiphertext

  datatype EncryptedData = EncryptedData(
    recipients: Option<seq<Option<RecipientInfo>>>,
    ciphertext: Option<SymmetricCiphertext>)

  datatype Content =
    | Unsecured(bytes: Bytes)
    | Signed(signedData: Option<SignedData>)
    | Encrypted(encryptedData: Option<EncryptedData>)
    | OtherContent

  datatype Ieee1609Dot2Data = Ieee1609Dot2Data(protocolVersion: int, content: Option<Content>)

  // --- ETSI TS 102 941 requests and responses ---

  datatype PsidSsp = PsidSsp(psid: nat)

  datatype SubjectAttributes = SubjectAttributes(validity: ValidityPeriod, appPermissions: seq<PsidSsp>)

  datatype InnerEcRequest = InnerEcRequest(
    itsId: string,
    certificateFormat: int,
    verificationKey: PublicVerificationKey,
    attributes: SubjectAttributes)

  datatype SharedAtRequest = SharedAtRequest(
    eaId: Bytes,
    keyTag: Bytes,
    certificateFormat: int,
    attributes: SubjectAttributes)

  datatype InnerAtRequest = InnerAtRequest(
    verificationKey: PublicVerificationKey,
    hmacKey: Bytes,
    shared: SharedAtRequest,
    encryptedEcSignature: Ieee1609Dot2Data)

  /** InnerEcResponse and InnerAtResponse have the same shape. */
  datatype InnerResponse = InnerResponse(
    requestHash: Bytes,
    responseCode: int,
    certificate: Option<CertificateBase>)

  // --- ETSI TS 102 941 trust and revocation lists ---

  datatype CtlEntry =
    | RcaEntry(cert: Option<CertificateBase>)
    | EaEntry(cert: Option<CertificateBase>, aaAccessPoint: string, itsAccessPoint: Option<string>)
    | AaEntry(cert: Option<CertificateBase>, accessPoint: string)
    | DcEntry(url: string, serves: seq<Bytes>)
    | TlmEntry(cert: Option<CertificateBase>)
    | OtherEntry

  datatype CtlCommand = AddEntry(entry: Option<CtlEntry>) | DeleteEntry

  datatype CtlFormat = CtlFormat(nextUpdate: Uint32, ctlCommands: seq<Option<CtlCommand>>)

  datatype ToBeSignedCrl = ToBeSignedCrl(thisUpdate: Uint32, nextUpdate: Uint32, entries: seq<Bytes>)

  datatype EtsiContent =
    | TrustListTlm(ctl: Option<CtlFormat>)
    | TrustListRca(ctl: Option<CtlFormat>)
    | RevocationList(crl: Option<ToBeSignedCrl>)
    | OtherEtsiContent

  datatype EtsiTs102941Data = EtsiTs102941Data(content: Option<EtsiContent>)
}
