/** The foreign code the client stands on: OpenSSL and the generated COER codecs. A platform is
    any choice of these functions; `Lawful` lists everything that is assumed of them. Every
    theorem of the project holds for every lawful platform. Nothing is assumed about collisions
    of the hashes, and no encoding is assumed to succeed. */
module PlatformModel {
  import opened Basics
  import opened Sizes
  import opened Asn

  datatype Platform = Platform(
    sha256: Bytes -> Digest32,
    sha384: Bytes -> Digest48,
    hmac: (Bytes, Bytes) -> Digest32,
    // Elliptic curves: is this a usable scalar, its public point, point checks, ECDH, ECDSA.
    scalarOk: (Curve, Bytes) -> bool,
    publicOf: (Curve, Bytes) -> Bytes,
    onCurve: (Curve, Bytes) -> bool,
    decompress: (Curve, Bytes) -> Option<Bytes>,
    dh: (Curve, Bytes, Bytes) -> Option<Bytes>,
    sign: (Curve, Bytes, Bytes, Bytes) -> (Bytes, Bytes),
    check: (Curve, Bytes, Bytes, Bytes, Bytes) -> bool,
    // AES-128-CCM.
    seal: (Bytes, Bytes, Bytes) -> Option<(Bytes, Bytes)>,
    open: (Bytes, Bytes, Bytes, Bytes) -> Option<Bytes>,
    // Codecs: an encoder returns no bytes when it fails.
    encData: Ieee1609Dot2Data -> Bytes,
    decData: Bytes -> Option<Ieee1609Dot2Data>,
    decDataBasic: Bytes -> Option<Ieee1609Dot2Data>,
    encTbsData: ToBeSignedData -> Bytes,
    encCert: CertificateBase -> Bytes,
    decCert: Bytes -> Option<CertificateBase>,
    encTbsCert: ToBeSignedCertificate -> Bytes,
    encKey: PublicVerificationKey -> Bytes,
    encShared: SharedAtRequest -> Bytes,
    decShared: Bytes -> Option<SharedAtRequest>,
    encInnerAt: InnerAtRequest -> Bytes,
    decInnerAt: Bytes -> Option<InnerAtRequest>,
    encInnerEc: InnerEcRequest -> Bytes,
    decInnerEc: Bytes -> Option<InnerEcRequest>,
    encResponse: InnerResponse -> Bytes,
    decResponse: Bytes -> Option<InnerResponse>,
    decEtsi: Bytes -> Option<EtsiTs102941Data>,
    decEtsiBasic: Bytes -> Option<EtsiTs102941Data>)
  {
    /** A private key the client can import for this curve. */
    predicate PrivateOk(c: Curve, priv: Bytes) {
      |priv| == ScalarLen(c) && scalarOk(c, priv)
    }

    ghost predicate CurveLaws() {
      && (forall c, a :: PrivateOk(c, a) ==>
            && |publicOf(c, a)| == PubkeyLen(c)
            && publicOf(c, a)[0] == 0x04
            && onCurve(c, publicOf(c, a))
            && decompress(c, CompressedForm(c, publicOf(c, a))) == Some(publicOf(c, a)))
      && (forall c, a, b :: PrivateOk(c, a) && PrivateOk(c, b) ==>
            dh(c, a, publicOf(c, b)) == dh(c, b, publicOf(c, a)))
    }

    ghost predicate SignatureLaws() {
      forall c, a, digest, nonce :: PrivateOk(c, a) && |digest| == HashLen(c) ==>
        var rs := sign(c, a, digest, nonce);
        && |rs.0| == ScalarLen(c) && |rs.1| == ScalarLen(c)
        && check(c, publicOf(c, a), digest, rs.0, rs.1)
    }

    ghost predicate CipherLaws() {
      forall k, n, m :: seal(k, n, m).Some? ==>
        var ct := seal(k, n, m).value;
        |ct.1| == 16 && open(k, n, ct.0, ct.1) == Some(m)
    }

    ghost predicate CodecLaws() {
      && (forall x :: encData(x) != [] ==> decData(encData(x)) == Some(x))
      && (forall x :: encCert(x) != [] ==> decCert(encCert(x)) == Some(x))
      && (forall x :: encShared(x) != [] ==> decShared(encShared(x)) == Some(x))
      && (forall x :: encInnerAt(x) != [] ==> decInnerAt(encInnerAt(x)) == Some(x))
      && (forall x :: encInnerEc(x) != [] ==> decInnerEc(encInnerEc(x)) == Some(x))
      && (forall x :: encResponse(x) != [] ==> decResponse(encResponse(x)) == Some(x))
    }

    ghost predicate Lawful() {
      CurveLaws() && SignatureLaws() && CipherLaws() && CodecLaws()
    }
  }

  /** SEC1 compression: parity of the last byte of Y, then X. */
  function CompressedForm(c: Curve, pub: Bytes): Bytes {
    if |pub| == PubkeyLen(c)
    then [if pub[|pub| - 1] & 1 != 0 then 0x03 else 0x02] + pub[1..1 + ScalarLen(c)]
    else []
  }

  // --- What crypto_ec.cpp adds around the foreign calls ---

  function Hash(p: Platform, h: SigHash, data: Bytes): (r: Bytes)
    ensures |r| == if h.Sha384? then 48 else 32
  {
    if h.Sha384? then p.sha384(data) else p.sha256(data)
  }

  function HashForCurve(p: Platform, data: Bytes, c: Curve): (r: Bytes)
    ensures |r| == HashLen(c)
  {
    match c
    case NistP256 => p.sha256(data)
    case BrainpoolP256r1 => p.sha256(data)
    case NistP384 => p.sha384(data)
    case BrainpoolP384r1 => p.sha384(data)
  }

  /** Section 5.3.1 of IEEE 1609.2: H( H(toBeSigned) || H(signerIdentifierInput) ). */
  function DoubleHash(p: Platform, h: SigHash, tbs: Bytes, signer: Bytes): Bytes {
    Hash(p, h, Hash(p, h, tbs) + Hash(p, h, signer))
  }

  /** A public key is taken in uncompressed or compressed form, by size and prefix. */
  function ImportPublic(p: Platform, c: Curve, pub: Bytes): Option<Bytes> {
    if |pub| == PubkeyLen(c) && pub[0] == 0x04 then
      if p.onCurve(c, pub) then Some(pub) else None
    else if |pub| == CompressedLen(c) && (pub[0] == 0x02 || pub[0] == 0x03) then
      p.decompress(c, pub)
    else
      None
  }

  function EcdsaSignDigest(p: Platform, priv: Bytes, digest: Bytes, c: Curve, nonce: Bytes): Option<(Bytes, Bytes)> {
    if |digest| != HashLen(c) || !p.PrivateOk(c, priv) then None
    else Some(p.sign(c, priv, digest, nonce))
  }

  predicate EcdsaVerifyDigest(p: Platform, pub: Bytes, digest: Bytes, r: Bytes, s: Bytes, c: Curve) {
    && |digest| == HashLen(c)
    && ImportPublic(p, c, pub).Some?
    && p.check(c, ImportPublic(p, c, pub).value, digest, r, s)
  }

  function EcdhDerive(p: Platform, priv: Bytes, peer: Bytes, c: Curve): Option<Bytes> {
    var q :- ImportPublic(p, c, peer);
    if p.PrivateOk(c, priv) then p.dh(c, priv, q) else None
  }

  function CcmSeal(p: Platform, key: Bytes, nonce: Bytes, plaintext: Bytes): Option<(Bytes, Bytes)> {
    if |key| != 16 || |nonce| != 12 then None else p.seal(key, nonce, plaintext)
  }

  function CcmOpen(p: Platform, key: Bytes, nonce: Bytes, ciphertext: Bytes, tag: Bytes): Option<Bytes> {
    if |key| != 16 || |nonce| != 12 || |tag| != 16 then None else p.open(key, nonce, ciphertext, tag)
  }

  /** `pub` stands for the public half of `priv`, in either SEC1 form. */
  predicate KeysMatch(p: Platform, c: Curve, pub: Bytes, priv: Bytes) {
    p.PrivateOk(c, priv) && ImportPublic(p, c, pub) == Some(p.publicOf(c, priv))
  }

  /** Either SEC1 form of a public key is imported as the same point. */
  lemma BothFormsMatch(p: Platform, c: Curve, priv: Bytes)
    requires p.CurveLaws() && p.PrivateOk(c, priv)
    ensures KeysMatch(p, c, p.publicOf(c, priv), priv)
    ensures KeysMatch(p, c, CompressedForm(c, p.publicOf(c, priv)), priv)
  {
  }

  /** Signing succeeds exactly for a usable key and a digest of the curve's own length, and the
      matching public key then verifies it. */
  lemma SignatureVerifies(p: Platform, pub: Bytes, priv: Bytes, digest: Bytes, c: Curve, nonce: Bytes)
    requires p.SignatureLaws() && KeysMatch(p, c, pub, priv) && |digest| == HashLen(c)
    ensures var sig := EcdsaSignDigest(p, priv, digest, c, nonce);
            && sig.Some?
            && |sig.value.0| == ScalarLen(c) && |sig.value.1| == ScalarLen(c)
            && EcdsaVerifyDigest(p, pub, digest, sig.value.0, sig.value.1, c)
  {
    var rs := p.sign(c, priv, digest, nonce);
    assert p.check(c, p.publicOf(c, priv), digest, rs.0, rs.1);
  }

  // --- Signatures in terms of the primitives ---

  predicate Is384(c: Curve) { c.NistP384? || c.BrainpoolP384r1? }

  /** The SEC1 string names the point q: it is q itself, uncompressed and on the curve, or it
      decompresses to q. */
  ghost predicate NamesPoint(p: Platform, c: Curve, pub: Bytes, q: Bytes) {
    var n := if Is384(c) then 48 else 32;
    || (|pub| == 2 * n + 1 && pub[0] == 0x04 && p.onCurve(c, pub) && q == pub)
    || (|pub| == n + 1 && (pub[0] == 0x02 || pub[0] == 0x03) && p.decompress(c, pub) == Some(q))
  }

  /** Section 5.3.1 of IEEE 1609.2, written out: r and s are a signature by the named point over the
      hash of the two hashes, all with the hash of the curve's own size. */
  ghost predicate SignatureHolds(p: Platform, c: Curve, pub: Bytes, with384: bool, tbs: Bytes, signer: Bytes, r: Bytes,
                                 s: Bytes)
  {
    var digest: Bytes :=
      if with384 then p.sha384(p.sha384(tbs) + p.sha384(signer)) else p.sha256(p.sha256(tbs) + p.sha256(signer));
    && with384 == Is384(c)
    && |r| == |s| == (if Is384(c) then 48 else 32)
    && exists q :: NamesPoint(p, c, pub, q) && p.check(c, q, digest, r, s)
  }

  lemma ImportNames(p: Platform, c: Curve, pub: Bytes, q: Bytes)
    ensures ImportPublic(p, c, pub) == Some(q) <==> NamesPoint(p, c, pub, q)
  {
  }

  /** The digest test of the verifier, with its length guard, is exactly that. */
  lemma DigestCheckIff(p: Platform, c: Curve, pub: Bytes, h: SigHash, tbs: Bytes, signer: Bytes, r: Bytes, s: Bytes)
    requires |r| == |s| == ScalarLen(c)
    ensures EcdsaVerifyDigest(p, pub, DoubleHash(p, h, tbs, signer), r, s, c) <==>
            SignatureHolds(p, c, pub, h.Sha384?, tbs, signer, r, s)
  {
    var q := ImportPublic(p, c, pub);
    if q.Some? { ImportNames(p, c, pub, q.value); }
    if SignatureHolds(p, c, pub, h.Sha384?, tbs, signer, r, s) {
      var q' :| NamesPoint(p, c, pub, q') && p.check(c, q', DoubleHash(p, h, tbs, signer), r, s);
      ImportNames(p, c, pub, q');
    }
  }
}
