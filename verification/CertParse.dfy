/** Parsed certificates: the fields the client keeps of a CertificateBase. */
module CertParse {
  import opened Basics
  import opened Sizes
  import opened Asn
  import opened PlatformModel
  import opened CurvePoints

  datatype CertInfo = CertInfo(
    certBytes: Bytes,
    hashedId8: Hid8,
    publicKey: Bytes,
    encryptionKey: Bytes,
    encCurve: Curve,
    issuerHashId8: Hid8,
    isSelfSigned: bool,
    tbsBytes: Bytes,
    signatureR: Bytes,
    signatureS: Bytes,
    curve: Curve,
    issuerHash: SigHash,
    validityStart: nat,
    validityDuration: nat,
    name: string)
  {
    /** Start inclusive, end exclusive, in the client's 64-bit arithmetic. */
    predicate ValidAt(t: int) {
      && validityDuration != 0
      && t >= validityStart
      && t < ToInt64(validityStart + ToInt64(validityDuration))
    }

    function Start(): int { validityStart }

    function End(): int { validityStart + validityDuration }

    /** The fields are machine words. */
    predicate Machine() { validityStart < TWO32 && validityDuration < TWO64 }
  }

  const MAX_DURATION := 65535 * YEAR_SECONDS

  // --- HashedId8 ---

  function WholeCertHashCurve(cert: Option<CertificateBase>): Curve {
    match cert
    case Some(CertificateBase(_, _, Some(tbs), _, _)) =>
      (match tbs.verifyKeyIndicator
       case Some(VerificationKey(Some(VkBrainpoolP384r1(_)))) => BrainpoolP384r1
       case Some(VerificationKey(Some(VkNistP384(_)))) => NistP384
       case _ => NistP256)
    case _ => NistP256
  }

  function Last8(h: Bytes): Hid8 { if |h| < 8 then ZERO_HID8 else h[|h| - 8..] }

  function StructHid8(p: Platform, cert: Option<CertificateBase>, coer: Bytes): Hid8 {
    Last8(HashForCurve(p, coer, WholeCertHashCurve(cert)))
  }

  function ComputeHid8(p: Platform, coer: Bytes): Hid8 { StructHid8(p, p.decCert(coer), coer) }

  // --- Fields ---

  /** Section 6.4.10 of IEEE 1609.2; an absent or unknown duration is 0 and reads as expired. */
  function DurationSeconds(d: Option<Duration>): nat {
    match d
    case Some(Microseconds(n)) => n / 1000000
    case Some(Milliseconds(n)) => n / 1000
    case Some(Seconds(n)) => n
    case Some(Minutes(n)) => n * 60
    case Some(Hours(n)) => n * 3600
    case Some(SixtyHours(n)) => n * SIXTY_HOURS_SECONDS
    case Some(Years(n)) => n * YEAR_SECONDS
    case _ => 0
  }

  function OrEmpty(o: Option<Bytes>): Bytes { if o.Some? then o.value else [] }

  /** Curve and SEC1 key of a populated verification key; an unpopulated one leaves the defaults. */
  function ParsedKey(vki: Option<VerificationKeyIndicator>): (Curve, Bytes) {
    match vki
    case Some(VerificationKey(Some(VkNistP256(Some(pt))))) => (NistP256, OrEmpty(Bounded(97, ToSec1(Some(pt), 32))))
    case Some(VerificationKey(Some(VkBrainpoolP256r1(Some(pt))))) =>
      (BrainpoolP256r1, OrEmpty(Bounded(97, ToSec1(Some(pt), 32))))
    case Some(VerificationKey(Some(VkBrainpoolP384r1(Some(pt))))) =>
      (BrainpoolP384r1, OrEmpty(Bounded(97, ToSec1(Some(pt), 48))))
    case Some(VerificationKey(Some(VkNistP384(Some(pt))))) => (NistP384, OrEmpty(Bounded(97, ToSec1(Some(pt), 48))))
    case _ => (NistP256, [])
  }

  function ParsedEncryptionKey(ek: Option<EncryptionKey>): (Curve, Bytes) {
    match ek
    case Some(EkNistP256(Some(pt))) => (NistP256, OrEmpty(Bounded(65, ToSec1(Some(pt), 32))))
    case Some(EkBrainpoolP256r1(Some(pt))) => (BrainpoolP256r1, OrEmpty(Bounded(65, ToSec1(Some(pt), 32))))
    case _ => (NistP256, [])
  }

  function DigestOrZero(b: Bytes): Hid8 { if |b| == 8 then b else ZERO_HID8 }

  /** Self-signed flag, signature hash and issuer digest. */
  function ParsedIssuer(issuer: Option<IssuerIdentifier>): (bool, SigHash, Hid8) {
    match issuer
    case Some(SelfIssued(alg)) => (true, if alg.AlgSha384? then Sha384 else Sha256, ZERO_HID8)
    case Some(Sha256AndDigest(d)) => (false, Sha256, DigestOrZero(d))
    case Some(Sha384AndDigest(d)) => (false, Sha384, DigestOrZero(d))
    case _ => (false, Sha256, ZERO_HID8)
  }

  function FromStruct(p: Platform, cert: CertificateBase, coer: Bytes): CertInfo {
    var (self, issuerHash, issuerId) := ParsedIssuer(cert.issuer);
    var tbs := cert.toBeSigned;
    var (curve, key) := ParsedKey(if tbs.Some? then tbs.value.verifyKeyIndicator else None);
    var (encCurve, encKey) := ParsedEncryptionKey(if tbs.Some? then tbs.value.encryptionKey else None);
    var vp := if tbs.Some? then tbs.value.validityPeriod else None;
    var rs := ExtractSig(cert.signature);
    CertInfo(
      certBytes := OrEmpty(Bounded(MAX_COER_MESSAGE, coer)),
      hashedId8 := StructHid8(p, Some(cert), coer),
      publicKey := key,
      encryptionKey := encKey,
      encCurve := encCurve,
      issuerHashId8 := issuerId,
      isSelfSigned := self,
      tbsBytes := if tbs.Some? then OrEmpty(Bounded(MAX_COER_MESSAGE, p.encTbsCert(tbs.value))) else [],
      signatureR := if rs.Some? then OrEmpty(Bounded(48, rs.value.r)) else [],
      signatureS := if rs.Some? then OrEmpty(Bounded(48, rs.value.s)) else [],
      curve := curve,
      issuerHash := issuerHash,
      validityStart := if vp.Some? then vp.value.start else 0,
      validityDuration := if vp.Some? then DurationSeconds(vp.value.duration) else 0,
      name := "")
  }

  /** None stands for the empty CertInfo that callers recognise by its empty certBytes. */
  function FromCoer(p: Platform, coer: Bytes): Option<CertInfo> {
    var cert :- p.decCert(coer);
    var ci := FromStruct(p, cert, coer);
    if ci.certBytes == [] then None else Some(ci)
  }

  // --- Properties ---

  /** What the trust store relies on: a certificate that kept its bytes carries the HashedId8 of
      those bytes, and its duration is within the range of a 16-bit count. */
  ghost predicate WellParsed(p: Platform, ci: CertInfo) {
    && (ci.certBytes != [] ==> ci.hashedId8 == ComputeHid8(p, ci.certBytes))
    && ci.validityStart < TWO32
    && ci.validityDuration <= MAX_DURATION
  }

  lemma DurationBound(d: Option<Duration>)
    ensures DurationSeconds(d) <= MAX_DURATION
  {
    if d.Some? && !d.value.OtherDuration? {
      var n := d.value.n;
      assert n <= 65535;
      assert n * YEAR_SECONDS <= MAX_DURATION;
      assert n / 1000000 <= n && n / 1000 <= n;
    }
  }

  /** Parsing from bytes and parsing a decoded structure with its own encoding agree on the identity. */
  lemma ParsedIdentity(p: Platform, cert: CertificateBase, coer: Bytes)
    requires p.decCert(coer) == Some(cert) || coer == []
    ensures WellParsed(p, FromStruct(p, cert, coer))
  {
    if cert.toBeSigned.Some? && cert.toBeSigned.value.validityPeriod.Some? {
      DurationBound(cert.toBeSigned.value.validityPeriod.value.duration);
    }
  }

  /** The key choice names a 384-bit curve but carries no point. */
  predicate Unpopulated384(cert: CertificateBase) {
    && cert.toBeSigned.Some?
    && match cert.toBeSigned.value.verifyKeyIndicator
       case Some(VerificationKey(Some(VkBrainpoolP384r1(None)))) => true
       case Some(VerificationKey(Some(VkNistP384(None)))) => true
       case _ => false
  }

  /** Two pieces of code choose a hash for the same certificate, one for its HashedId8 and one for
      its key; they choose alike exactly when no 384-bit key choice is left empty. */
  lemma HashDispatchAgrees(p: Platform, cert: CertificateBase, coer: Bytes)
    ensures var ci := FromStruct(p, cert, coer);
            && (!Unpopulated384(cert) ==> ci.hashedId8 == Last8(HashForCurve(p, coer, ci.curve)))
            && (IsP256Size(WholeCertHashCurve(Some(cert))) == IsP256Size(ci.curve) <==> !Unpopulated384(cert))
  {
  }

  /** The comment on the field gives the HashedId8 as the last 8 bytes of SHA-256. Whatever the
      hashes are, that holds of exactly the certificates whose key choice is not a 384-bit one. */
  lemma Sha256IdIff(cert: CertificateBase, coer: Bytes)
    ensures (forall p: Platform :: FromStruct(p, cert, coer).hashedId8 == Last8(p.sha256(coer))) <==>
            IsP256Size(WholeCertHashCurve(Some(cert)))
  {
    if !IsP256Size(WholeCertHashCurve(Some(cert))) {
      var some: Platform := *;
      var zero, ones: Bytes := seq(32, _ => 0), seq(48, _ => 1);
      var p := some.(sha256 := (b: Bytes) => zero, sha384 := (b: Bytes) => ones);
      assert Last8(p.sha384(coer))[0] != Last8(p.sha256(coer))[0];
      assert FromStruct(p, cert, coer).hashedId8 != Last8(p.sha256(coer));
    }
  }

  /** A certificate with a Brainpool P-384 key. */
  function Cert384(pt: CurvePoint): CertificateBase {
    var key := VerificationKey(Some(VkBrainpoolP384r1(Some(pt))));
    CertificateBase(
      3, Some(SelfIssued(AlgSha384)), Some(ToBeSignedCertificate("", None, false, None, Some(key), [])), None, [])
  }

  /** It breaks the comment wherever the two hashes of its encoding end differently. */
  lemma Sha256IdFails(p: Platform, pt: CurvePoint, coer: Bytes)
    ensures FromStruct(p, Cert384(pt), coer).hashedId8 == Last8(p.sha256(coer)) <==>
            Last8(p.sha384(coer)) == Last8(p.sha256(coer))
  {
  }

  /** The window test is the half-open interval of unbounded arithmetic exactly when the end of
      the window fits in 63 bits. */
  lemma WindowExact(ci: CertInfo)
    requires ci.Machine() && ci.validityDuration != 0
    ensures (forall t :: -TWO63 <= t < TWO63 ==> (ci.ValidAt(t) <==> ci.Start() <= t < ci.End())) <==> ci.End() < TWO63
  {
    if ci.End() >= TWO63 {
      var t := ci.validityStart;
      assert -TWO63 <= t < TWO63 && ci.Start() <= t < ci.End();
      assert !ci.ValidAt(t);
    }
  }

  lemma WellParsedWindow(p: Platform, ci: CertInfo, t: int)
    requires WellParsed(p, ci)
    ensures ci.ValidAt(t) <==> ci.Start() <= t < ci.End()
  {
  }

  /** The length of one unit in microseconds; a year is the mean Gregorian year of 365.2425 days. */
  function UnitMicros(d: Duration): nat {
    match d
    case Microseconds(_) => 1
    case Milliseconds(_) => 1000
    case Seconds(_) => 1000 * 1000
    case Minutes(_) => 60 * 1000 * 1000
    case Hours(_) => 60 * 60 * 1000 * 1000
    case SixtyHours(_) => 60 * 60 * 60 * 1000 * 1000
    case Years(_) => 3652425 * 24 * 60 * 60 * 100
    case OtherDuration => 0
  }

  function ExactMicros(d: Duration): nat { if d.OtherDuration? then 0 else d.n * UnitMicros(d) }

  /** Every unit is read as the whole seconds of the time it denotes, hence durations that denote
      the same time are read alike, whatever their units. */
  lemma DurationIsFloor(d: Duration)
    ensures DurationSeconds(Some(d)) == ExactMicros(d) / 1000000
  {
    match d
    case Microseconds(n) =>
    case Milliseconds(n) =>
    case Seconds(n) => assert n * 1000000 / 1000000 == n;
    case Minutes(n) => assert n * 60 * 1000000 / 1000000 == n * 60;
    case Hours(n) => assert n * 3600 * 1000000 / 1000000 == n * 3600;
    case SixtyHours(n) => assert n * SIXTY_HOURS_SECONDS * 1000000 / 1000000 == n * SIXTY_HOURS_SECONDS;
    case Years(n) => assert n * YEAR_SECONDS * 1000000 / 1000000 == n * YEAR_SECONDS;
    case OtherDuration =>
  }

  // --- Keys ---

  function VerificationKeyOn(c: Curve, pt: CurvePoint): PublicVerificationKey {
    match c
    case NistP256 => VkNistP256(Some(pt))
    case BrainpoolP256r1 => VkBrainpoolP256r1(Some(pt))
    case NistP384 => VkNistP384(Some(pt))
    case BrainpoolP384r1 => VkBrainpoolP384r1(Some(pt))
  }

  /** Either form in which a certificate can carry the public half of `priv`. */
  ghost predicate Carries(p: Platform, c: Curve, priv: Bytes, pt: CurvePoint)
    requires p.CurveLaws() && p.PrivateOk(c, priv)
  {
    var pub := p.publicOf(c, priv);
    pt == Uncompressed(pub[1..1 + ScalarLen(c)], pub[1 + ScalarLen(c)..]) || Some(pt) == FromSec1(pub, ScalarLen(c))
  }

  lemma CarriedPointMatches(p: Platform, c: Curve, priv: Bytes, pt: CurvePoint)
    requires p.CurveLaws() && p.PrivateOk(c, priv) && Carries(p, c, priv, pt)
    ensures KeysMatch(p, c, ToSec1(Some(pt), ScalarLen(c)), priv)
  {
    var n := ScalarLen(c);
    var pub := p.publicOf(c, priv);
    if pt.Uncompressed? {
      BothFormsMatch(p, c, priv);
      assert [0x04] + pub[1..1 + n] + pub[1 + n..] == pub;
    } else {
      CompressedKeyMatches(p, c, priv);
    }
  }

  /** A certificate's keys, compressed or not, parse to keys that the matching private key works
      with, on the curve the variant names: all four for verification, two for encryption. */
  lemma ParsedKeysMatch(p: Platform, c: Curve, priv: Bytes, pt: CurvePoint)
    requires p.CurveLaws() && p.PrivateOk(c, priv) && Carries(p, c, priv, pt)
    ensures var (curve, key) := ParsedKey(Some(VerificationKey(Some(VerificationKeyOn(c, pt)))));
            curve == c && KeysMatch(p, c, key, priv)
    ensures c.NistP256? ==>
              var (curve, key) := ParsedEncryptionKey(Some(EkNistP256(Some(pt))));
              curve == c && KeysMatch(p, c, key, priv)
    ensures c.BrainpoolP256r1? ==>
              var (curve, key) := ParsedEncryptionKey(Some(EkBrainpoolP256r1(Some(pt))));
              curve == c && KeysMatch(p, c, key, priv)
  {
    CarriedPointMatches(p, c, priv, pt);
    var key := ToSec1(Some(pt), ScalarLen(c));
    assert |key| == PubkeyLen(c) || |key| == CompressedLen(c);
    assert ParsedKey(Some(VerificationKey(Some(VerificationKeyOn(c, pt))))) == (c, key);
  }

  // --- What a parsed certificate says ---

  /** Who signed it: the hash and the identity each choice of issuer gives. */
  lemma IssuerParsed(p: Platform, cert: CertificateBase, coer: Bytes, d: Hid8)
    ensures var ci := FromStruct(p, cert, coer);
            && (cert.issuer == Some(SelfIssued(AlgSha256)) ==> ci.isSelfSigned && ci.issuerHash == Sha256)
            && (cert.issuer == Some(SelfIssued(AlgSha384)) ==> ci.isSelfSigned && ci.issuerHash == Sha384)
            && (cert.issuer == Some(Sha256AndDigest(d)) ==>
                  !ci.isSelfSigned && ci.issuerHash == Sha256 && ci.issuerHashId8 == d)
            && (cert.issuer == Some(Sha384AndDigest(d)) ==>
                  !ci.isSelfSigned && ci.issuerHash == Sha384 && ci.issuerHashId8 == d)
  {
  }

  /** When it is valid: from the start of its period for the whole seconds of its duration, and never without
      either. */
  lemma PeriodParsed(p: Platform, cert: CertificateBase, coer: Bytes, t: int)
    ensures FromStruct(p, cert, coer).ValidAt(t) <==>
            && cert.toBeSigned.Some? && cert.toBeSigned.value.validityPeriod.Some?
            && var vp := cert.toBeSigned.value.validityPeriod.value;
               vp.duration.Some? && vp.start <= t < vp.start + ExactMicros(vp.duration.value) / 1000000
  {
    if cert.toBeSigned.Some? && cert.toBeSigned.value.validityPeriod.Some? {
      var d := cert.toBeSigned.value.validityPeriod.value.duration;
      DurationBound(d);
      if d.Some? { DurationIsFloor(d.value); }
    }
  }

  /** Whose it is: bytes and signed part if they fit, r and s as extracted, and the last 8 bytes of the hash. */
  lemma BytesParsed(p: Platform, cert: CertificateBase, coer: Bytes)
    ensures var ci := FromStruct(p, cert, coer);
            && ci.certBytes == (if |coer| <= 2048 then coer else [])
            && ci.hashedId8 ==
               (if Is384(WholeCertHashCurve(Some(cert))) then p.sha384(coer)[40..] else p.sha256(coer)[24..])
            && (cert.toBeSigned.Some? && |p.encTbsCert(cert.toBeSigned.value)| <= 2048 ==>
                  ci.tbsBytes == p.encTbsCert(cert.toBeSigned.value))
            && match ExtractSig(cert.signature)
               case Some(rs) => ci.signatureR == rs.r && ci.signatureS == rs.s
               case None => ci.signatureR == [] && ci.signatureS == []
  {
  }

  /** Which keys it carries: on the curve its choice names, as the SEC1 bytes of the point. */
  lemma KeysParsed(p: Platform, cert: CertificateBase, coer: Bytes, tbs: ToBeSignedCertificate, c: Curve,
                   pt: CurvePoint)
    requires cert.toBeSigned == Some(tbs)
    ensures var ci := FromStruct(p, cert, coer);
            var key := ToSec1(Some(pt), if Is384(c) then 48 else 32);
            && (tbs.verifyKeyIndicator == Some(VerificationKey(Some(VerificationKeyOn(c, pt)))) && |key| <= 97 ==>
                  ci.curve == c && ci.publicKey == key)
            && (tbs.encryptionKey == Some(EkNistP256(Some(pt))) && |ToSec1(Some(pt), 32)| <= 65 ==>
                  ci.encCurve == NistP256 && ci.encryptionKey == ToSec1(Some(pt), 32))
            && (tbs.encryptionKey == Some(EkBrainpoolP256r1(Some(pt))) && |ToSec1(Some(pt), 32)| <= 65 ==>
                  ci.encCurve == BrainpoolP256r1 && ci.encryptionKey == ToSec1(Some(pt), 32))
            && (tbs.encryptionKey == None ==> ci.encryptionKey == [])
  {
  }
}
