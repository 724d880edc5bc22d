/** A discovery on a toy platform: one root CA, whose own list announces a distribution centre. */
module DiscoveryWitness {
  import opened Basics
  import opened Sizes
  import opened Asn
  import opened PlatformModel
  import opened CurvePoints
  import opened CertParse
  import opened SignedMessages
  import opened SignedEnvelopes
  import opened Revocation
  import opened TrustLists
  import opened CertBuilder
  import opened ClientOps
  import opened Discovery
  import opened ToyPlatform
  import opened RequestWitnesses
  import opened RunWitnesses

  const CONFIG := Config("http://a", "")

  /** The TLM and the root CA. */
  function Anchors(): seq<CertificateBase> {
    [Structure("tlm", ZERO_HID8, true, true), Structure("rca", ZERO_HID8, true, true)]
  }

  /** Message n carries the payload n. */
  function ListMessage(n: nat): Ieee1609Dot2Data { Enveloped(UnsecuredTbs(Ones(n), 0), NistP256) }

  /** The ECTL lists the root CA, and the root CA's list a centre that serves it. */
  function EctlCommand(): Option<CtlCommand> { Some(AddEntry(Some(RcaEntry(Some(Anchors()[1]))))) }

  function CtlCommandOf(h: Hid8): Option<CtlCommand> { Some(AddEntry(Some(DcEntry("http://b/", [h])))) }

  function ListTables(): Tables {
    NO_TABLES.(
      messages := [ListMessage(1), ListMessage(2)],
      certs := Anchors(),
      lists := [EtsiTs102941Data(Some(TrustListTlm(Some(CtlFormat(0, [EctlCommand()]))))),
                EtsiTs102941Data(Some(TrustListRca(Some(CtlFormat(0, [CtlCommandOf(HidOf(2))])))))])
  }

  /** The certificate n as it is parsed. */
  function AnchorInfo(p: Platform, name: string, n: nat): CertInfo { Info(p, name, ZERO_HID8, true, n) }

  ghost predicate AnchorCodec(p: Platform) {
    && (forall x :: p.encCert(x) == CodeOf(Anchors(), x))
    && (forall b :: p.decCert(b) == EntryOf(Anchors(), b))
  }

  lemma AnchorCodes(p: Platform)
    requires AnchorCodec(p)
    ensures p.encCert(Anchors()[0]) == Ones(1) && p.encCert(Anchors()[1]) == Ones(2)
  {
    assert Anchors()[0].toBeSigned.value.id[0] == 't' && Anchors()[1].toBeSigned.value.id[0] == 'r';
    PlaceIs(Anchors(), 0);
    PlaceIs(Anchors(), 1);
  }

  lemma AnchorParses(p: Platform, name: string, n: nat)
    requires p.Lawful() && ToyCrypto(p) && 0 < n <= 2
    requires var s := Structure(name, ZERO_HID8, true, true); p.encCert(s) == Ones(n) && p.decCert(Ones(n)) == Some(s)
    ensures FromCoer(p, Ones(n)) == Some(AnchorInfo(p, name, n).(name := ""))
    ensures AnchorInfo(p, name, n).hashedId8 == HidOf(n)
  {
    Built(p, name, ZERO_HID8, true, true, [], n);
    BuiltCertReparses(p, name, Key(), Zeros(32), ZERO_HID8, true, true, [], [], AnchorInfo(p, name, n));
    assert ToyHash(Ones(n), 32)[24..] == HidOf(n);
  }

  lemma MessageUnwraps(p: Platform, n: nat)
    requires ToyCrypto(p) && n > 0 && p.decData(Ones(n)) == Some(ListMessage(n))
    ensures Unwrapped(p, Ones(n)) == Some(SignedMessage(Ones(n), [1], ZERO_HID8, false, Zeros(32), Zeros(32), NistP256))
  {
    SignatureReadBack(Zeros(32), Zeros(32), NistP256);
  }

  /** A list message is unwrapped, and verifies under any certificate with the toy key. */
  lemma MessageVerifies(p: Platform, n: nat, cert: Bytes)
    requires ToyCrypto(p) && n > 0 && p.decData(Ones(n)) == Some(ListMessage(n))
    ensures var m := Unwrapped(p, Ones(n)); m.Some? && m.value.payload == Ones(n) && Verifies(p, m.value, Key(), cert)
  {
    MessageUnwraps(p, n);
    PublicShape(NistP256, Zeros(32));
  }

  function Confirmed(topo: TrustTopology, isEctl: bool): TrustTopology {
    if isEctl then topo.(ectlVerified := true) else topo.(ctlVerified := true)
  }

  /** A list of one command, delivered in a message of its own. */
  lemma SingleList(p: Platform, n: nat, ctl: CtlFormat, cmd: Option<CtlCommand>, isEctl: bool, cert: Bytes, now: int)
    requires ToyCrypto(p) && n > 0 && p.decData(Ones(n)) == Some(ListMessage(n)) && cert != []
    requires ctl == CtlFormat(0, [cmd])
    requires p.decEtsi(Ones(n))
          == Some(EtsiTs102941Data(Some(if isEctl then TrustListTlm(Some(ctl)) else TrustListRca(Some(ctl)))))
    ensures DecodedCtl(p, Ones(n), Key(), cert, isEctl, now)
         == Ok(Confirmed(WithEntry(p, NO_TOPOLOGY, Added(cmd)), isEctl))
  {
    MessageVerifies(p, n, cert);
    assert WithDates(NO_TOPOLOGY, 0, isEctl, now) == NO_TOPOLOGY;
    assert [cmd][..0] == [];
    assert WithEntries(p, NO_TOPOLOGY, [cmd]) == WithEntry(p, NO_TOPOLOGY, Added(cmd));
  }

  ghost predicate ListCodec(p: Platform) {
    && p.decData(Ones(1)) == Some(ListMessage(1)) && p.decData(Ones(2)) == Some(ListMessage(2))
    && p.decEtsi(Ones(1)) == Some(ListTables().lists[0]) && p.decEtsi(Ones(2)) == Some(ListTables().lists[1])
  }

  /** Every request is answered: the first with the TLM, the others with the lists in turn. */
  ghost predicate Answers(w: World) {
    && (forall url, body :: w.net(0, url, body) == Ok(HttpResponse(200, Ones(1))))
    && (forall url, body :: w.net(1, url, body) == Ok(HttpResponse(200, Ones(1))))
    && (forall url, body :: w.net(2, url, body) == Ok(HttpResponse(200, Ones(2))))
  }

  function TheCtl(): TrustTopology { NO_TOPOLOGY.(dcs := [DcInfo("http://b/", [HidOf(2)])], ctlVerified := true) }

  lemma RcaListed(p: Platform)
    requires p.Lawful() && ToyCrypto(p) && AnchorCodec(p)
    ensures ListedCert(p, Some(Anchors()[1]), "rca") == Some(AnchorInfo(p, "rca", 2))
    ensures AnchorInfo(p, "rca", 2).hashedId8 == HidOf(2)
  {
    AnchorCodes(p);
    AnchorParses(p, "rca", 2);
  }

  lemma TlmFetched(p: Platform, w: World)
    requires p.Lawful() && ToyCrypto(p) && AnchorCodec(p) && Answers(w)
    ensures TlmStep(p, CONFIG, w) == Ok(AnchorInfo(p, "tlm", 1))
  {
    AnchorCodes(p);
    AnchorParses(p, "tlm", 1);
  }

  lemma EntryTaken(p: Platform, cert: Option<CertificateBase>, rca: CertInfo, url: string, h: Hid8)
    requires ListedCert(p, cert, "rca") == Some(rca)
    ensures WithEntry(p, NO_TOPOLOGY, RcaEntry(cert)) == NO_TOPOLOGY.(rcas := [rca])
    ensures WithEntry(p, NO_TOPOLOGY, DcEntry(url, [h])) == NO_TOPOLOGY.(dcs := [DcInfo(url, [h])])
  {
    assert Hid8Entries([h]) == [h] by { assert [h][..0] == []; }
  }

  lemma EctlDecoded(p: Platform, now: int)
    requires p.Lawful() && ToyCrypto(p) && AnchorCodec(p) && ListCodec(p)
    ensures DecodedCtl(p, Ones(1), Key(), Ones(1), true, now)
         == Ok(NO_TOPOLOGY.(rcas := [AnchorInfo(p, "rca", 2)], ectlVerified := true))
  {
    RcaListed(p);
    EntryTaken(p, Some(Anchors()[1]), AnchorInfo(p, "rca", 2), "http://b/", HidOf(2));
    SingleList(p, 1, CtlFormat(0, [EctlCommand()]), EctlCommand(), true, Ones(1), now);
  }

  lemma CtlDecoded(p: Platform, now: int)
    requires p.Lawful() && ToyCrypto(p) && AnchorCodec(p) && ListCodec(p)
    ensures DecodedCtl(p, Ones(2), Key(), Ones(2), false, now) == Ok(TheCtl())
  {
    RcaListed(p);
    EntryTaken(p, Some(Anchors()[1]), AnchorInfo(p, "rca", 2), "http://b/", HidOf(2));
    SingleList(p, 2, CtlFormat(0, [CtlCommandOf(HidOf(2))]), CtlCommandOf(HidOf(2)), false, Ones(2), now);
  }

  /** From the decoded list to the step of the discovery. */
  lemma EctlTaken(p: Platform, w: World, tlm: CertInfo, topo: TrustTopology)
    requires Answers(w) && tlm.publicKey == Key() && tlm.certBytes == Ones(1)
    requires DecodedCtl(p, Ones(1), Key(), Ones(1), true, Tai(w)) == Ok(topo) && topo.ectlVerified
    ensures EctlStep(p, CONFIG, w, tlm) == Ok(topo.(tlm := Some(tlm)))
  {
  }

  lemma CtlTaken(p: Platform, w: World, ectl: TrustTopology, rca: CertInfo)
    requires Answers(w) && ectl.rcas == [rca] && rca.publicKey == Key() && rca.certBytes == Ones(2)
    requires DecodedCtl(p, Ones(2), Key(), Ones(2), false, Tai(w)) == Ok(TheCtl())
    ensures Outcomes(p, CONFIG, w, ectl, 1) == [Verified(TheCtl())]
  {
    OutcomesStep(p, CONFIG, w, ectl, 0);
    FirstAnswer(w, ectl);
    assert Judged(p, w, rca, Ok(Ones(2))) == Verified(TheCtl());
  }

  lemma FirstAnswer(w: World, ectl: TrustTopology)
    requires Answers(w) && |ectl.rcas| == 1
    ensures NextAnswer(CONFIG, w, ectl, []) == Ok(Ones(2))
  {
  }

  lemma BaseMoves(p: Platform, st: ClientState, w: World, tlm: CertInfo, ectl: TrustTopology, rca: CertInfo)
    requires TlmStep(p, CONFIG, w) == Ok(tlm) && EctlStep(p, CONFIG, w, tlm) == Ok(ectl)
    requires ectl.rcas == [rca] && ectl.dcs == [] && rca.hashedId8 == HidOf(2)
    requires Outcomes(p, CONFIG, w, ectl, 1) == [Verified(TheCtl())]
    ensures Discovered(p, CONFIG, st, w).1.Ok?
    ensures DcUrl(ectl.dcs + AllDcs(Outcomes(p, CONFIG, w, ectl, 0)), HidOf(2), CONFIG.tlmUrl) == "http://a"
    ensures CrlUrl(CONFIG, Discovered(p, CONFIG, st, w).0, HidOf(2)) == "http://b"
  {
    assert Discovered(p, CONFIG, st, w) == Concluded(WithCert(st, tlm), ectl, [Verified(TheCtl())]);
    ConcludedWith(WithCert(st, tlm), ectl);
  }

  lemma ConcludedWith(st: ClientState, ectl: TrustTopology)
    requires ectl.dcs == []
    ensures var (st', r) := Concluded(st, ectl, [Verified(TheCtl())]);
            r.Ok? && CrlUrl(CONFIG, st', HidOf(2)) == "http://b"
  {
    var os := [Verified(TheCtl())];
    assert AllDcs(os) == TheCtl().dcs by { assert os[..0] == []; }
    assert BaseUrl(TheCtl().dcs[0]) == "http://b";
    assert Assembled(ectl, os).dcs == TheCtl().dcs;
  }

  lemma ListsFollowed(p: Platform)
    requires Follows(p, ListTables())
    ensures AnchorCodec(p) && ListCodec(p)
  {
  }

  lemma TheNetwork() returns (w: World)
    ensures Answers(w)
  {
    w := World((n: nat, url: string, body: Bytes) => Ok(HttpResponse(200, if n == 2 then Ones(2) else Ones(1))), NOW);
  }

  /** The base can move: this discovery succeeds, the list of its root CA is asked for at one address,
      and the CRL of that root CA will be asked for at another. */
  lemma BaseMayMove(st: ClientState)
      returns (p: Platform, w: World, tlm: CertInfo, ectl: TrustTopology, rca: CertInfo)
    ensures p.Lawful() && TlmStep(p, CONFIG, w) == Ok(tlm) && EctlStep(p, CONFIG, w, tlm) == Ok(ectl)
    ensures ectl.rcas == [rca] && Discovered(p, CONFIG, st, w).1.Ok?
    ensures DcUrl(ectl.dcs + AllDcs(Outcomes(p, CONFIG, w, ectl, 0)), rca.hashedId8, CONFIG.tlmUrl) == "http://a"
    ensures CrlUrl(CONFIG, Discovered(p, CONFIG, st, w).0, rca.hashedId8) == "http://b"
  {
    p := ToyIsLawful(ListTables());
    ListsFollowed(p);
    w := TheNetwork();
    tlm, rca := AnchorInfo(p, "tlm", 1), AnchorInfo(p, "rca", 2);
    var topo := NO_TOPOLOGY.(rcas := [rca], ectlVerified := true);
    ectl := topo.(tlm := Some(tlm));
    TlmFetched(p, w);
    RcaListed(p);
    EctlDecoded(p, Tai(w));
    EctlTaken(p, w, tlm, topo);
    CtlDecoded(p, Tai(w));
    CtlTaken(p, w, ectl, rca);
    BaseMoves(p, st, w, tlm, ectl, rca);
  }
}
