/** Chains, whole exchanges and a discovery on the toy platforms. */
module RunWitnesses {
  import opened Basics
  import opened Sizes
  import opened Asn
  import opened PlatformModel
  import opened CertParse
  import opened SignedEnvelopes
  import opened EncryptedMessages
  import opened Requests
  import opened Authorities
  import opened TrustStore
  import opened CertBuilder
  import opened ClientOps
  import opened EndToEnd
  import opened ToyPlatform
  import opened RequestWitnesses

  // --- Chains ---

  function Key(): (r: Bytes)
    ensures |r| == 65 && r[0] == 0x04
  {
    ToyPublic(NistP256, Zeros(32))
  }

  /** The HashedId8 of the certificate with code n. */
  function HidOf(n: nat): Hid8 { Fixed(Ones(n), 8) }

  function Structure(name: string, issuer: Hid8, isCa: bool, isSelf: bool): CertificateBase {
    CertStruct(TbsStruct(name, Key(), isCa), issuer, isSelf, ToySignature(NistP256))
  }

  function Info(p: Platform, name: string, issuer: Hid8, isSelf: bool, n: nat): CertInfo {
    BuiltInfo(p, name, Key(), issuer, isSelf, ToySignature(NistP256), [1], Ones(n))
  }

  /** A root, an authority under it and a certificate under that. */
  function ChainStructures(): seq<CertificateBase> {
    [Structure("root", ZERO_HID8, true, true), Structure("ca", HidOf(1), true, false),
     Structure("leaf", HidOf(2), false, false)]
  }

  ghost predicate ChainCodec(p: Platform) {
    && (forall x :: p.encCert(x) == CodeOf(ChainStructures(), x))
    && (forall b :: p.decCert(b) == EntryOf(ChainStructures(), b))
  }

  lemma ChainCodes(p: Platform)
    requires ChainCodec(p)
    ensures p.encCert(ChainStructures()[0]) == Ones(1)
    ensures p.encCert(ChainStructures()[1]) == Ones(2)
    ensures p.encCert(ChainStructures()[2]) == Ones(3)
  {
    var cs := ChainStructures();
    assert |cs[0].toBeSigned.value.id| == 4 && |cs[1].toBeSigned.value.id| == 2 && cs[2].toBeSigned.value.id[0] == 'l';
    assert cs[0].toBeSigned.value.id[0] == 'r';
    PlaceIs(cs, 0);
    PlaceIs(cs, 1);
    PlaceIs(cs, 2);
  }

  lemma IdentityOf(p: Platform, name: string, issuer: Hid8, isSelf: bool, n: nat)
    requires ToyCrypto(p) && 0 < n <= 3 && ChainCodec(p)
    ensures Info(p, name, issuer, isSelf, n).hashedId8 == HidOf(n)
  {
    assert ToyHash(Ones(n), 32)[24..] == Fixed(Ones(n), 8);
    assert p.decCert(Ones(n)) == Some(ChainStructures()[n - 1]);
    assert IsP256Size(WholeCertHashCurve(p.decCert(Ones(n))));
  }

  lemma Built(p: Platform, name: string, issuer: Hid8, isCa: bool, isSelf: bool, issuerCert: Bytes, n: nat)
    requires ToyCrypto(p) && 0 < n <= 8
    requires p.encCert(Structure(name, issuer, isCa, isSelf)) == Ones(n)
    requires p.decCert(Ones(n)) == Some(Structure(name, issuer, isCa, isSelf))
    ensures BuildSignedCert(p, name, Key(), Zeros(32), issuer, isCa, isSelf, issuerCert, [])
         == Some(Info(p, name, issuer, isSelf, n))
  {
    var concat := p.sha256([1]) + p.sha256(if isSelf then [] else issuerCert);
    assert EcdsaSignDigest(p, Zeros(32), p.sha256(concat), NistP256, []) == Some(ToySignature(NistP256));
  }

  /** A root, an authority and a certificate are built, each under the one before. */
  lemma ChainBuilt(p: Platform)
    requires ToyCrypto(p)
    requires ChainCodec(p)
    ensures var root := Info(p, "root", ZERO_HID8, true, 1);
            var ca := Info(p, "ca", HidOf(1), false, 2);
            && BuildRootCert(p, "root", Key(), Zeros(32), []) == Some(root) && root.hashedId8 == HidOf(1)
            && BuildIssued(p, "ca", Key(), root, Zeros(32), true, []) == Some(ca) && ca.hashedId8 == HidOf(2)
            && BuildIssued(p, "leaf", Key(), ca, Zeros(32), false, []) == Some(Info(p, "leaf", HidOf(2), false, 3))
  {
    ChainCodes(p);
    IdentityOf(p, "root", ZERO_HID8, true, 1);
    IdentityOf(p, "ca", HidOf(1), false, 2);
    Built(p, "root", ZERO_HID8, true, true, [], 1);
    Built(p, "ca", HidOf(1), true, false, Ones(1), 2);
    Built(p, "leaf", HidOf(2), false, false, Ones(2), 3);
  }

  /** A root and an authority are stored under their own identities. */
  function ChainStore(p: Platform): Store {
    map[HidOf(1) := Info(p, "root", ZERO_HID8, true, 1), HidOf(2) := Info(p, "ca", HidOf(1), false, 2)]
  }

  lemma ChainValidates(p: Platform, t: int)
    requires p.Lawful() && ToyCrypto(p) && InWindow(t)
    requires ChainCodec(p)
    ensures ValidChain(p, ChainStore(p), map[], Info(p, "ca", HidOf(1), false, 2), t)
    ensures ValidChain(p, ChainStore(p), map[], Info(p, "leaf", HidOf(2), false, 3), t)
  {
    ChainBuilt(p);
    ToyKeysMatch(p, NistP256, Zeros(32));
    assert HidOf(1)[1] != HidOf(2)[1];
    var root, ca := Info(p, "root", ZERO_HID8, true, 1), Info(p, "ca", HidOf(1), false, 2);
    var leaf := Info(p, "leaf", HidOf(2), false, 3);
    BuiltChainsValidate(p, ChainStore(p), Key(), Zeros(32), Key(), Zeros(32), Key(), root, ca, leaf,
                        ("root", "ca", "leaf"), ([], [], []), t);
  }

  /** Chains of the builder exist, under distinct HashedId8 values, and are accepted. */
  lemma ChainWitness(t: int) returns (p: Platform, ca: CertInfo, leaf: CertInfo)
    requires InWindow(t)
    ensures p.Lawful() && ca.hashedId8 in ChainStore(p) && ChainStore(p)[ca.hashedId8] == ca
    ensures leaf.issuerHashId8 == ca.hashedId8 && leaf.hashedId8 != ca.hashedId8
    ensures ValidChain(p, ChainStore(p), map[], ca, t) && ValidChain(p, ChainStore(p), map[], leaf, t)
  {
    p := ToyIsLawful(NO_TABLES.(certs := ChainStructures()));
    ca, leaf := Info(p, "ca", HidOf(1), false, 2), Info(p, "leaf", HidOf(2), false, 3);
    ChainValidates(p, t);
    IdentityOf(p, "ca", HidOf(1), false, 2);
    IdentityOf(p, "leaf", HidOf(2), false, 3);
    assert HidOf(2)[2] != HidOf(3)[2];
  }

  // --- Whole exchanges ---

  /** The authority issues the certificate that the root signed. */
  function TheIssue(): Issue { Issue(ChainStructures()[1], Zeros(12), [], NO_SIGN) }

  function TheResponse(): InnerResponse { InnerResponse(Zeros(16), 0, Some(TheIssue().cert)) }

  /** A client that knows the root and the authority. */
  function ClientWith(p: Platform): ClientState {
    ClientState(map[HidOf(1) := Info(p, "root", ZERO_HID8, true, 1), ZERO_HID8 := Authority()], map[], None, "ea", "aa")
  }

  lemma IssuedParses(p: Platform, issue: Issue, coer: Bytes, ci: CertInfo, name: string)
    requires p.encCert(issue.cert) == coer && p.decCert(coer) == Some(issue.cert)
    requires FromCoer(p, coer) == Some(ci.(name := ""))
    ensures Issued(p, issue, name) == ci.(name := name)
  {
  }

  lemma IssuedIs(p: Platform, name: string)
    requires p.Lawful() && ToyCrypto(p) && ChainCodec(p)
    ensures Issued(p, TheIssue(), name) == Info(p, "ca", HidOf(1), false, 2).(name := name)
  {
    var ca := Info(p, "ca", HidOf(1), false, 2);
    ChainBuilt(p);
    assert FromCoer(p, Ones(2)) == Some(ca.(name := "")) by {
      BuiltCertReparses(p, "ca", Key(), Zeros(32), HidOf(1), true, false, Ones(1), [], ca);
    }
    ChainCodes(p);
    IssuedParses(p, TheIssue(), Ones(2), ca, name);
  }

  lemma RootIssued(p: Platform)
    requires p.Lawful() && ToyCrypto(p) && ChainCodec(p)
    ensures var root := Info(p, "root", ZERO_HID8, true, 1);
            root.hashedId8 == HidOf(1) && RootOfTrust(p, root) && IssuedBy(p, Info(p, "ca", HidOf(1), false, 2), root)
  {
    var root, ca := Info(p, "root", ZERO_HID8, true, 1), Info(p, "ca", HidOf(1), false, 2);
    ChainBuilt(p);
    ToyKeysMatch(p, NistP256, Zeros(32));
    BuiltRoot(p, "root", Key(), Zeros(32), [], root);
    BuiltUnder(p, "ca", Key(), root, Zeros(32), true, [], ca);
  }

  lemma IssuedValidates(p: Platform, name: string, t: int)
    requires p.Lawful() && ToyCrypto(p) && ChainCodec(p) && InWindow(t)
    ensures ValidChain(p, ClientWith(p).certs, map[], Issued(p, TheIssue(), name), t)
  {
    IssuedIs(p, name);
    RootIssued(p);
    assert HidOf(1)[0] != ZERO_HID8[0];
    var root, ca := Info(p, "root", ZERO_HID8, true, 1), Info(p, "ca", HidOf(1), false, 2);
    RenamedChain(p, ClientWith(p).certs, root, ca, name, t);
  }

  lemma RenamedChain(p: Platform, certs: Store, root: CertInfo, leaf: CertInfo, name: string, t: int)
    requires RootOfTrust(p, root) && IssuedBy(p, leaf, root) && InWindow(t)
    requires root.hashedId8 in certs && certs[root.hashedId8] == root
    ensures ValidChain(p, certs, map[], leaf.(name := name), t)
  {
    TwoLevelChain(p, certs, root, leaf.(name := name), t);
  }

  /** The layers of a reply, put together. */
  lemma ReplyMade(p: Platform, tag: bv8, inner: InnerResponse, signer: CertInfo, priv: Bytes, key: Bytes,
                  nonce: CcmNonce, rnd: SignEntropy, body: Bytes, signed: Bytes, sealed: (Bytes, Bytes))
    requires p.encResponse(inner) == body != []
    requires SignedByCert(p, [0x01, tag] + body, signer, priv, signer.curve, rnd) == signed != []
    requires CcmSeal(p, key, nonce, signed) == Some(sealed)
    ensures Reply(p, tag, inner, signer, priv, key, nonce, [], rnd)
         == p.encData(EncryptedNode(PskRecipient([]), nonce, sealed.0 + sealed.1))
  {
  }

  /** The codec has the messages of the exchange and the response. */
  ghost predicate ReplyCodec(p: Platform, first: Ieee1609Dot2Data, tag: bv8, c: Curve) {
    && (forall x :: p.encData(x) == CodeOf(Exchanged(first, tag, c), x))
    && p.encResponse(TheResponse()) == Ones(1)
  }

  lemma SignedByAuthority(p: Platform, payload: Bytes)
    ensures SignedByCert(p, payload, Authority(), Zeros(32), NistP256, NO_SIGN)
         == SelfSigned(p, payload, Scalar(NistP256), NistP256, NO_SIGN)
  {
  }

  lemma RequestHash(p: Platform)
    requires ToyCrypto(p)
    ensures p.sha256(Ones(3))[..16] == Zeros(16)
  {
  }

  /** The authority's reply to the request with code 3 has the code 5. */
  lemma ReplyIs(p: Platform, first: Ieee1609Dot2Data, tag: bv8, c: Curve)
    requires ToyCrypto(p) && Innermost(first) && ReplyCodec(p, first, tag, c)
    ensures ReplyEncodes(p, tag + 1)
  {
    ExchangedCodes(p, first, tag, c);
    SignedByAuthority(p, [0x01, tag + 1] + Ones(1));
    RequestHash(p);
    assert CcmSeal(p, Zeros(16), Zeros(12), Ones(4)) == Some((Ones(4), Zeros(16)));
    ReplyMade(p, tag + 1, TheResponse(), Authority(), Zeros(32), Zeros(16), Zeros(12), NO_SIGN, Ones(1), Ones(4),
              (Ones(4), Zeros(16)));
  }

  lemma CodecsFollowed(p: Platform, t: Tables, first: Ieee1609Dot2Data, tag: bv8, c: Curve)
    requires Follows(p, t) && t.messages == Exchanged(first, tag, c)
    requires t.certs == ChainStructures() && t.responses == [TheResponse()]
    ensures ChainCodec(p) && ReplyCodec(p, first, tag, c)
  {
    SingleCode(TheResponse());
  }

  /** The authority's reply to the request is encoded. */
  ghost predicate ReplyEncodes(p: Platform, tag: bv8) {
    && p.sha256(Ones(3))[..16] == Zeros(16)
    && Reply(p, tag, TheResponse(), Authority(), Zeros(32), Zeros(16), Zeros(12), [], NO_SIGN) == Ones(5)
  }

  /** The network in which the authority answers everything. */
  function EaNetwork(p: Platform): Network {
    (n, url, body) => EaServer(p, Authority(), Zeros(32), Zeros(32), TheIssue(), body)
  }

  function Handle(c: Curve): map<string, KeyPair> { map["k" := KeyPair(ToyPublic(c, Scalar(c)), Scalar(c))] }

  lemma EcReplies(p: Platform, c: Curve)
    requires ToyCrypto(p) && Follows(p, EcTables(c, ChainStructures(), TheResponse()))
    ensures ChainCodec(p) && ReplyEncodes(p, 0x81)
  {
    var first := Enveloped(UnsecuredTbs(Ones(1), 0), c);
    CodecsFollowed(p, EcTables(c, ChainStructures(), TheResponse()), first, 0x80, c);
    InnermostMessages(c);
    ReplyIs(p, first, 0x80, c);
  }

  /** An enrolment that completes on three curves and ends with the EA's refusal on the fourth. */
  lemma EnrolmentCompletesWitness(c: Curve) returns (p: Platform, w: World)
    ensures p.Lawful()
    ensures Enrolled(p, ClientWith(p), Handle(c), "k", EcRecordOn(c), NoEcEntropy(), w)
         == if c != NistP384 then Ok(Issued(p, TheIssue(), "ec")) else Err(HttpStatus)
  {
    p := ToyIsLawful(EcTables(c, ChainStructures(), TheResponse()));
    w := World(EaNetwork(p), NOW);
    EcReplies(p, c);
    EnrolmentEmitted(p, c, ChainStructures(), TheResponse());
    EnrolmentEnds(p, c, w);
  }

  lemma EnrolmentEnds(p: Platform, c: Curve, w: World)
    requires p.Lawful() && ToyCrypto(p) && ChainCodec(p) && ReplyEncodes(p, 0x81)
    requires ValidEcRecord(EcRecordOn(c)) && w == World(EaNetwork(p), NOW)
    requires EcRequest(p, AssembleEc(EcRecordOn(c), NOW), Authority(), Scalar(c), NoEcEntropy())
          == Ok(Encoded(Ones(3), Zeros(16)))
    ensures Enrolled(p, ClientWith(p), Handle(c), "k", EcRecordOn(c), NoEcEntropy(), w)
         == if c != NistP384 then Ok(Issued(p, TheIssue(), "ec")) else Err(HttpStatus)
  {
    var req := Encoded(Ones(3), Zeros(16));
    AllReady(p, "ec");
    EnrolmentAcceptedIff(p, AssembleEc(EcRecordOn(c), NOW), Authority(), Scalar(c), NoEcEntropy(), Zeros(32), req);
    if c != NistP384 {
      EnrolmentAccepted(p, AssembleEc(EcRecordOn(c), NOW), Authority(), Scalar(c), NoEcEntropy(), Zeros(32), req);
    }
    EnrolmentCompletes(p, ClientWith(p), Handle(c), "k", EcRecordOn(c), NoEcEntropy(), w, Authority(), Zeros(32),
                       Zeros(32), TheIssue(), req);
  }

  function AaAnswer(p: Platform, c: Curve, body: Bytes): Result<HttpResponse> {
    AaServer(p, Authority(), Zeros(32), Zeros(32), Authority(), Zeros(32), Holder(c), TheIssue(), body)
  }

  lemma AtReplies(p: Platform, d: Curve)
    requires ToyCrypto(p) && Follows(p, AtTables(d, ChainStructures(), TheResponse()))
    ensures ChainCodec(p) && ReplyEncodes(p, 0x83)
  {
    var first := Enveloped(EcSignedPart(d), d);
    CodecsFollowed(p, AtTables(d, ChainStructures(), TheResponse()), first, 0x82, d);
    InnermostMessages(d);
    ReplyIs(p, first, 0x82, d);
  }

  lemma AaNotSilent(p: Platform, c: Curve)
    requires ReplyEncodes(p, 0x83)
    requires var seen := AaAcceptsAuthorization(p, Ones(3), Authority(), Zeros(32));
             seen.Some? ==> seen.value.0 == Zeros(16)
    ensures AaAnswer(p, c, Ones(3)) != Answer([])
  {
  }

  lemma AaSees(x: Exchange, c: Curve, d: Curve)
    requires x.Emitted(c, d)
    ensures var seen := AaAcceptsAuthorization(x.p, x.r.bytes, x.aa, x.aaPriv);
            seen.Some? ==> seen.value.0 == x.r.aesKey
  {
    AuthorizationAcceptedIff(x.p, x.desc, x.aa, x.ea, x.ec, x.ecPriv, x.atPriv, x.rnd, x.aaPriv, x.r);
    if d != NistP384 {
      AuthorizationAccepted(x.p, x.desc, x.aa, x.ea, x.ec, x.ecPriv, x.atPriv, x.rnd, x.aaPriv, x.eaPriv, x.r);
    }
  }

  /** What both sides of the exchange have. */
  ghost predicate Ready(p: Platform, name: string) {
    && p.Lawful() && OpensFor(p, Authority(), Zeros(32)) && RepliesAs(p, Authority(), Zeros(32))
    && ValidChain(p, ClientWith(p).certs, map[], Issued(p, TheIssue(), name), 0)
  }

  lemma AllReady(p: Platform, name: string)
    requires p.Lawful() && ToyCrypto(p) && ChainCodec(p)
    ensures Ready(p, name)
  {
    AuthorityOpens(p);
    HolderSigns(p, NistP256);
    IssuedValidates(p, name, 0);
  }

  /** The request is emitted and answered. */
  ghost predicate Played(p: Platform, c: Curve, d: Curve) {
    && ValidAtRecord(AtRecordOn(d)) && p.publicOf(d, Scalar(d)) == ToyPublic(d, Scalar(d))
    && AtRequest(p, AtDescriptionOn(d), Authority(), Authority(), Holder(c), Scalar(c), Scalar(d), NoAtEntropy())
       == Ok(Encoded(Ones(3), Zeros(16)))
    && AaAnswer(p, c, Ones(3)) != Answer([])
  }

  lemma ExchangePlayed(p: Platform, c: Curve, d: Curve)
    requires p.Lawful() && ToyCrypto(p) && InnerLayers(p, c, d) && OuterLayers(p, d) && ReplyEncodes(p, 0x83)
    requires ScalarLen(c) == ScalarLen(d)
    ensures Played(p, c, d)
  {
    var x := Exchange(p, AtDescriptionOn(d), Authority(), Authority(), Holder(c), Scalar(c), Scalar(d), NoAtEntropy(),
                      Zeros(32), Zeros(32), Encoded(Ones(3), Zeros(16)));
    AtRecordAdmitted(d);
    ToyExchange(x, c, d);
    AaSees(x, c, d);
    AaNotSilent(p, c);
  }

  lemma DescriptionIs(d: Curve, w: World)
    requires w.now == NOW
    ensures AtDescriptionFor(AtRecordOn(d), w, Zeros(32), KeyPair(ToyPublic(d, Scalar(d)), Scalar(d)))
         == AtDescriptionOn(d)
  {
  }

  lemma AuthorizationSet(p: Platform, c: Curve, d: Curve, st: ClientState, keys: map<string, KeyPair>, w: World)
    requires Ready(p, "at") && Played(p, c, d)
    requires ZERO_HID8 in st.certs && st.certs[ZERO_HID8] == Authority() && w.now == NOW
    requires "ec" in keys && keys["ec"].privateKey == Scalar(c)
    requires "at" in keys && keys["at"] == KeyPair(ToyPublic(d, Scalar(d)), Scalar(d))
    requires w.net(0, st.aaUrl, Ones(3)) == AaAnswer(p, c, Ones(3))
    requires ValidChain(p, st.certs, st.rev, Issued(p, TheIssue(), "at"), 0)
    ensures HonestAuthorization(p, st, keys, "ec", Holder(c), "at", AtRecordOn(d), Zeros(32), NoAtEntropy(), w,
                                Authority(), Authority(), Zeros(32), Zeros(32), Zeros(32), TheIssue(),
                                Encoded(Ones(3), Zeros(16)))
  {
    DescriptionIs(d, w);
  }

  lemma AuthorizationEnds(p: Platform, c: Curve, d: Curve, st: ClientState, keys: map<string, KeyPair>, w: World)
    requires Ready(p, "at") && Played(p, c, d)
    requires ZERO_HID8 in st.certs && st.certs[ZERO_HID8] == Authority() && w.now == NOW
    requires "ec" in keys && keys["ec"].privateKey == Scalar(c)
    requires "at" in keys && keys["at"] == KeyPair(ToyPublic(d, Scalar(d)), Scalar(d))
    requires w.net(0, st.aaUrl, Ones(3)) == AaAnswer(p, c, Ones(3))
    requires ValidChain(p, st.certs, st.rev, Issued(p, TheIssue(), "at"), 0)
    ensures Authorized(p, st, keys, "ec", Holder(c), "at", AtRecordOn(d), Zeros(32), NoAtEntropy(), w)
         == if d != NistP384 && EcVouches(p, AtDescriptionOn(d), Holder(c), Scalar(c), NO_SIGN)
            then Ok(Issued(p, TheIssue(), "at")) else Err(HttpStatus)
  {
    DescriptionIs(d, w);
    AuthorizationSet(p, c, d, st, keys, w);
    AuthorizationCompletes(p, st, keys, "ec", Holder(c), "at", AtRecordOn(d), Zeros(32), NoAtEntropy(), w, Authority(),
                           Authority(), Zeros(32), Zeros(32), Zeros(32), TheIssue(), Encoded(Ones(3), Zeros(16)));
  }

  /** A platform on which every layer of the exchange is encoded. */
  ghost predicate Stage(p: Platform, c: Curve, d: Curve) {
    && p.Lawful() && ToyCrypto(p) && ChainCodec(p)
    && InnerLayers(p, c, d) && OuterLayers(p, d) && ReplyEncodes(p, 0x83)
  }

  lemma AtStage(c: Curve, d: Curve) returns (p: Platform)
    requires ScalarLen(c) == ScalarLen(d)
    ensures Stage(p, c, d)
  {
    p := AtPlatform(c, d, ChainStructures(), TheResponse());
    AtReplies(p, d);
  }

  lemma AtPlayed(p: Platform, c: Curve, d: Curve)
    requires Stage(p, c, d) && ScalarLen(c) == ScalarLen(d)
    ensures Ready(p, "at") && Played(p, c, d) && Signs(p, c, Holder(c), Scalar(c))
    ensures d != NistP384 ==> (EcVouches(p, AtDescriptionOn(d), Holder(c), Scalar(c), NO_SIGN) <==> c == d)
  {
    HolderSigns(p, c);
    AllReady(p, "at");
    ExchangePlayed(p, c, d);
    if d != NistP384 { HolderVouches(p, c, d); }
  }

  lemma AtScene(c: Curve, d: Curve) returns (p: Platform)
    requires ScalarLen(c) == ScalarLen(d)
    ensures Ready(p, "at") && Played(p, c, d) && Signs(p, c, Holder(c), Scalar(c))
    ensures d != NistP384 ==> (EcVouches(p, AtDescriptionOn(d), Holder(c), Scalar(c), NO_SIGN) <==> c == d)
  {
    p := AtStage(c, d);
    AtPlayed(p, c, d);
  }

  /** A client that knows the authority and the root of what it issues. */
  lemma TheClient(p: Platform, name: string) returns (st: ClientState)
    requires Ready(p, name)
    ensures ZERO_HID8 in st.certs && st.certs[ZERO_HID8] == Authority()
    ensures ValidChain(p, st.certs, st.rev, Issued(p, TheIssue(), name), 0)
  {
    st := ClientWith(p);
  }

  lemma TheKeys(c: Curve, d: Curve) returns (keys: map<string, KeyPair>)
    ensures "ec" in keys && keys["ec"].privateKey == Scalar(c)
    ensures "at" in keys && keys["at"] == KeyPair(ToyPublic(d, Scalar(d)), Scalar(d))
  {
    keys := map["ec" := KeyPair(ToyPublic(c, Scalar(c)), Scalar(c)),
                "at" := KeyPair(ToyPublic(d, Scalar(d)), Scalar(d))];
  }

  /** An authorization that completes with an EC on the ticket's curve, and ends with the AA's refusal
      with an EC on the other curve of that size, or on NIST P-384. */
  lemma AuthorizationCompletesWitness(c: Curve, d: Curve)
      returns (p: Platform, st: ClientState, keys: map<string, KeyPair>, w: World)
    requires ScalarLen(c) == ScalarLen(d)
    ensures p.Lawful() && Signs(p, c, Holder(c), Scalar(c))
    ensures "ec" in keys && keys["ec"].privateKey == Scalar(c)
    ensures Authorized(p, st, keys, "ec", Holder(c), "at", AtRecordOn(d), Zeros(32), NoAtEntropy(), w)
         == if c == d && d != NistP384 then Ok(Issued(p, TheIssue(), "at")) else Err(HttpStatus)
  {
    p := AtScene(c, d);
    w := World((n, url, body) => AaAnswer(p, c, body), NOW);
    st := TheClient(p, "at");
    keys := TheKeys(c, d);
    AuthorizationEnds(p, c, d, st, keys, w);
  }
}
