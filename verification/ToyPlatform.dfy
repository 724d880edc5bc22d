/** Concrete lawful platforms: the assumed contracts are consistent. The cryptography is no
    cryptography, only the contracts matter; the codec encodes exactly what is on its tables. */
module ToyPlatform {
  import opened Basics
  import opened Sizes
  import opened Asn
  import opened PlatformModel
  import opened Ecies

  // --- Cryptography ---

  function Zeros(n: nat): (r: Bytes)
    ensures |r| == n
  {
    seq(n, _ => 0)
  }

  /** The code of the n-th entry of a table. */
  function Ones(n: nat): (r: Bytes)
    ensures |r| == n
  {
    seq(n, _ => 1)
  }

  /** Ends in the first 8 bytes of its input. */
  function ToyHash(b: Bytes, n: nat): (r: Bytes)
    requires n >= 8
    ensures |r| == n
  {
    Zeros(n - 8) + Fixed(b, 8)
  }

  function ToyHash32(b: Bytes): Digest32 { ToyHash(b, 32) }

  function ToyHash48(b: Bytes): Digest48 { ToyHash(b, 48) }

  function ToyHmac(k: Bytes, b: Bytes): Digest32 { Zeros(32) }

  /** Curves of the same size differ in the second coordinate of all their points. */
  function YPart(c: Curve): (r: Bytes)
    ensures |r| == ScalarLen(c)
  {
    seq(ScalarLen(c), _ => if c.NistP256? || c.NistP384? then 0 else 2)
  }

  function ToyPublic(c: Curve, a: Bytes): Bytes { [0x04] + a + YPart(c) }

  predicate ToyOnCurve(c: Curve, q: Bytes) { |q| == PubkeyLen(c) && q[1 + ScalarLen(c)..] == YPart(c) }

  function ToySignature(c: Curve): (Bytes, Bytes) { (Zeros(ScalarLen(c)), Zeros(ScalarLen(c))) }

  /** What the primitives of these platforms compute. */
  ghost predicate ToyCrypto(p: Platform) {
    && (forall b :: p.sha256(b) == ToyHash(b, 32))
    && (forall b :: p.sha384(b) == ToyHash(b, 48))
    && (forall k, b :: p.hmac(k, b) == Zeros(32))
    && (forall c, a :: p.scalarOk(c, a))
    && (forall c, a :: p.publicOf(c, a) == ToyPublic(c, a))
    && (forall c, q :: p.onCurve(c, q) <==> ToyOnCurve(c, q))
    && (forall c, q :: p.decompress(c, q) == if q == [] then None else Some(ToyPublic(c, q[1..])))
    && (forall c, a, q :: p.dh(c, a, q) == Some([]))
    && (forall c, a, d, n :: p.sign(c, a, d, n) == ToySignature(c))
    && (forall c, q, d, r, s :: p.check(c, q, d, r, s))
    && (forall k, n, m :: p.seal(k, n, m) == Some((m, Zeros(16))))
    && (forall k, n, m, t :: p.open(k, n, m, t) == Some(m))
    && (forall x :: p.encTbsData(x) == [1])
    && (forall x :: p.encTbsCert(x) == [1])
    && (forall x :: p.encKey(x) == [1])
  }

  lemma PublicShape(c: Curve, a: Bytes)
    requires |a| == ScalarLen(c)
    ensures |ToyPublic(c, a)| == PubkeyLen(c) && ToyPublic(c, a)[0] == 0x04 && ToyOnCurve(c, ToyPublic(c, a))
    ensures CompressedForm(c, ToyPublic(c, a)) != [] && CompressedForm(c, ToyPublic(c, a))[1..] == a
  {
  }

  lemma ToyCurveLaws(p: Platform)
    requires ToyCrypto(p)
    ensures p.CurveLaws()
  {
    forall c, a | p.PrivateOk(c, a)
      ensures |p.publicOf(c, a)| == PubkeyLen(c) && p.publicOf(c, a)[0] == 0x04 && p.onCurve(c, p.publicOf(c, a))
      ensures p.decompress(c, CompressedForm(c, p.publicOf(c, a))) == Some(p.publicOf(c, a))
    {
      PublicShape(c, a);
    }
  }

  lemma ToyKeysMatch(p: Platform, c: Curve, a: Bytes)
    requires ToyCrypto(p) && |a| == ScalarLen(c)
    ensures KeysMatch(p, c, ToyPublic(c, a), a)
  {
    PublicShape(c, a);
  }

  /** A point of one curve is none of the other curve of its size. */
  lemma ForeignPoint(p: Platform, c: Curve, d: Curve, a: Bytes)
    requires ToyCrypto(p) && |a| == ScalarLen(c) && c != d && ScalarLen(c) == ScalarLen(d)
    ensures ImportPublic(p, d, ToyPublic(c, a)).None?
  {
    PublicShape(c, a);
    assert ToyPublic(c, a)[1 + ScalarLen(c)..] == YPart(c);
    assert YPart(c)[0] != YPart(d)[0];
  }

  // --- The key derivation, whatever the codec ---

  function ToyBlocks(z: Bytes, p1: Bytes): nat -> Digest32 { (i: nat) => ToyHash32(z + Be32(Counter(i)) + p1) }

  function ToyKdf(z: Bytes, p1: Bytes): (r: Bytes)
    ensures |r| == 48
  {
    Joined(ToyBlocks(z, p1), 2)[..48]
  }

  lemma {:induction false} SameBlocks(a: nat -> Digest32, b: nat -> Digest32, n: nat)
    requires forall i :: a(i) == b(i)
    ensures Joined(a, n) == Joined(b, n)
  {
    if n > 0 { SameBlocks(a, b, n - 1); }
  }

  lemma ToyKdfIs(p: Platform, z: Bytes, p1: Bytes)
    requires ToyCrypto(p)
    ensures Kdf2(p, z, p1, 48) == ToyKdf(z, p1)
  {
    SameBlocks(KdfBlocks(p, z, p1), ToyBlocks(z, p1), 2);
  }

  // --- Codecs from tables ---

  /** The place of the first occurrence, counted from 1; 0 if there is none. */
  function Place<T(==)>(table: seq<T>, x: T): (n: nat)
    ensures n <= |table|
    ensures n > 0 ==> table[n - 1] == x
    ensures x in table <==> n > 0
    ensures forall i :: 0 <= i < n - 1 ==> table[i] != x
  {
    if table == [] then 0
    else if table[0] == x then 1
    else
      var n := Place(table[1..], x);
      assert table == [table[0]] + table[1..];
      if n == 0 then 0 else n + 1
  }

  function CodeOf<T(==)>(table: seq<T>, x: T): Bytes { Ones(Place(table, x)) }

  function EntryOf<T>(table: seq<T>, b: Bytes): Option<T> {
    if 0 < |b| <= |table| then Some(table[|b| - 1]) else None
  }

  datatype Tables = Tables(
    messages: seq<Ieee1609Dot2Data>,
    certs: seq<CertificateBase>,
    ecRequests: seq<InnerEcRequest>,
    shared: seq<SharedAtRequest>,
    atRequests: seq<InnerAtRequest>,
    responses: seq<InnerResponse>,
    lists: seq<EtsiTs102941Data>)

  const NO_TABLES := Tables([], [], [], [], [], [], [])

  function Toy(t: Tables): Platform {
    Platform(
      sha256 := (b: Bytes) => ToyHash32(b),
      sha384 := (b: Bytes) => ToyHash48(b),
      hmac := (k: Bytes, b: Bytes) => ToyHmac(k, b),
      scalarOk := (c: Curve, a: Bytes) => true,
      publicOf := (c: Curve, a: Bytes) => ToyPublic(c, a),
      onCurve := (c: Curve, q: Bytes) => ToyOnCurve(c, q),
      decompress := (c: Curve, q: Bytes) => if q == [] then None else Some(ToyPublic(c, q[1..])),
      dh := (c: Curve, a: Bytes, q: Bytes) => Some([]),
      sign := (c: Curve, a: Bytes, d: Bytes, n: Bytes) => ToySignature(c),
      check := (c: Curve, q: Bytes, d: Bytes, r: Bytes, s: Bytes) => true,
      seal := (k: Bytes, n: Bytes, m: Bytes) => Some((m, Zeros(16))),
      open := (k: Bytes, n: Bytes, m: Bytes, t: Bytes) => Some(m),
      encData := (x: Ieee1609Dot2Data) => CodeOf(t.messages, x),
      decData := (b: Bytes) => EntryOf(t.messages, b),
      decDataBasic := (b: Bytes) => None,
      encTbsData := (x: ToBeSignedData) => [1],
      encCert := (x: CertificateBase) => CodeOf(t.certs, x),
      decCert := (b: Bytes) => EntryOf(t.certs, b),
      encTbsCert := (x: ToBeSignedCertificate) => [1],
      encKey := (x: PublicVerificationKey) => [1],
      encShared := (x: SharedAtRequest) => CodeOf(t.shared, x),
      decShared := (b: Bytes) => EntryOf(t.shared, b),
      encInnerAt := (x: InnerAtRequest) => CodeOf(t.atRequests, x),
      decInnerAt := (b: Bytes) => EntryOf(t.atRequests, b),
      encInnerEc := (x: InnerEcRequest) => CodeOf(t.ecRequests, x),
      decInnerEc := (b: Bytes) => EntryOf(t.ecRequests, b),
      encResponse := (x: InnerResponse) => CodeOf(t.responses, x),
      decResponse := (b: Bytes) => EntryOf(t.responses, b),
      decEtsi := (b: Bytes) => EntryOf(t.lists, b),
      decEtsiBasic := (b: Bytes) => None)
  }

  /** What the codecs of a platform do with the first entries of its tables. */
  ghost predicate Follows(p: Platform, t: Tables) {
    && (forall x :: p.encData(x) == CodeOf(t.messages, x)) && (forall b :: p.decData(b) == EntryOf(t.messages, b))
    && (forall x :: p.encCert(x) == CodeOf(t.certs, x)) && (forall b :: p.decCert(b) == EntryOf(t.certs, b))
    && (forall x :: p.encShared(x) == CodeOf(t.shared, x)) && (forall b :: p.decShared(b) == EntryOf(t.shared, b))
    && (forall x :: p.encInnerAt(x) == CodeOf(t.atRequests, x))
    && (forall b :: p.decInnerAt(b) == EntryOf(t.atRequests, b))
    && (forall x :: p.encInnerEc(x) == CodeOf(t.ecRequests, x))
    && (forall b :: p.decInnerEc(b) == EntryOf(t.ecRequests, b))
    && (forall x :: p.encResponse(x) == CodeOf(t.responses, x))
    && (forall b :: p.decResponse(b) == EntryOf(t.responses, b))
    && (forall b :: p.decEtsi(b) == EntryOf(t.lists, b))
  }

  lemma ToyHasCrypto(t: Tables)
    ensures ToyCrypto(Toy(t))
  {
  }

  lemma ToyFollows(t: Tables)
    ensures Follows(Toy(t), t)
  {
  }

  lemma ToySignatureLaws(p: Platform)
    requires ToyCrypto(p)
    ensures p.SignatureLaws() && p.CipherLaws()
  {
  }

  lemma CodeRoundTrip<T>(table: seq<T>, x: T)
    ensures CodeOf(table, x) != [] ==> EntryOf(table, CodeOf(table, x)) == Some(x)
  {
  }

  lemma ToyCodecLaws(p: Platform, t: Tables)
    requires Follows(p, t)
    ensures p.CodecLaws()
  {
    forall x ensures p.encData(x) != [] ==> p.decData(p.encData(x)) == Some(x) { CodeRoundTrip(t.messages, x); }
    forall x ensures p.encCert(x) != [] ==> p.decCert(p.encCert(x)) == Some(x) { CodeRoundTrip(t.certs, x); }
    forall x ensures p.encShared(x) != [] ==> p.decShared(p.encShared(x)) == Some(x) { CodeRoundTrip(t.shared, x); }
    forall x ensures p.encInnerAt(x) != [] ==> p.decInnerAt(p.encInnerAt(x)) == Some(x) {
      CodeRoundTrip(t.atRequests, x);
    }
    forall x ensures p.encInnerEc(x) != [] ==> p.decInnerEc(p.encInnerEc(x)) == Some(x) {
      CodeRoundTrip(t.ecRequests, x);
    }
    forall x ensures p.encResponse(x) != [] ==> p.decResponse(p.encResponse(x)) == Some(x) {
      CodeRoundTrip(t.responses, x);
    }
  }

  lemma FollowingIsLawful(p: Platform, t: Tables)
    requires ToyCrypto(p) && Follows(p, t)
    ensures p.Lawful()
  {
    ToyCurveLaws(p);
    ToySignatureLaws(p);
    ToyCodecLaws(p, t);
  }

  /** Whatever is on the tables, there is a platform with that codec that meets all contracts at once. */
  lemma ToyIsLawful(t: Tables) returns (p: Platform)
    ensures p.Lawful() && ToyCrypto(p) && Follows(p, t)
  {
    p := Toy(t);
    ToyHasCrypto(t);
    ToyFollows(t);
    FollowingIsLawful(p, t);
  }
}
