/** The client object: a trust store, a revocation store it shares with it, the discovered
    topology and the URLs. Every method is proved to do what its operation computes. */
module PkiClientModel {
  import opened Basics
  import opened PlatformModel
  import opened CertParse
  import opened EncryptedMessages
  import opened Requests
  import opened Revocation
  import opened TrustStore
  import opened TrustLists
  import opened ClientOps
  import opened Discovery

  class PkiClient {
    const p: Platform
    const cfg: Config
    const trust: TrustChain
    const revocation: RevocationStore
    var topology: Option<TrustTopology>
    var eaUrl: string
    var aaUrl: string
    var keystore: map<string, KeyPair>

    /** Chain validation reads the very store that CRLs are applied to. */
    ghost predicate Valid()
      reads this, trust
    {
      trust.revocation == revocation && trust.p == p
    }

    ghost function State(): ClientState
      reads this, trust, revocation
    {
      ClientState(trust.certs, revocation.revoked, topology, eaUrl, aaUrl)
    }

    constructor (platform: Platform, config: Config, ea: string, aa: string, trustDir: Option<seq<DirEntry>>,
                 keys: map<string, KeyPair>)
      ensures Valid() && fresh(trust) && fresh(revocation)
      ensures p == platform && cfg == config && keystore == keys
      ensures State() == ClientState(Loaded(platform, map[], Entries(trustDir)), map[], None, ea, aa)
    {
      p, cfg, topology, eaUrl, aaUrl, keystore := platform, config, None, ea, aa, keys;
      var store := new RevocationStore();
      var chain := new TrustChain(platform);
      chain.SetRevocationStore(store);
      var _ := chain.LoadFromDirectory(trustDir);
      trust, revocation := chain, store;
    }

    // --- Fetching certificates ---

    method Store(answer: Result<HttpResponse>, name: string) returns (r: Result<CertInfo>)
      requires Valid()
      modifies trust
      ensures Valid()
      ensures r == FetchedCert(p, answer, name) && State() == Stored(old(State()), r)
    {
      if answer.Err? { return Err(answer.error); }
      if answer.value.status != 200 { return Err(HttpStatus); }
      var ci := FromCoer(p, answer.value.body);
      if ci.None? { return Err(Decode); }
      var named := ci.value.(name := name);
      trust.AddCert(named);
      r := Ok(named);
    }

    method FetchTrustAnchor(w: World) returns (r: Result<CertInfo>)
      requires Valid()
      modifies trust
      ensures Valid()
      ensures r == TrustAnchor(p, cfg, w) && State() == Stored(old(State()), r)
    {
      r := Store(w.net(0, cfg.tlmUrl + "/trustanchor", []), "trustanchor");
    }

    method FetchCertByName(w: World, name: string) returns (r: Result<CertInfo>)
      requires Valid()
      modifies trust
      ensures Valid()
      ensures r == CertByName(p, cfg, w, name) && State() == Stored(old(State()), r)
    {
      r := Store(w.net(0, cfg.tlmUrl + "/cert/" + name, []), name);
    }

    method FetchCertByHashedId8(w: World, h: Hid8) returns (r: Result<CertInfo>)
      requires Valid()
      modifies trust
      ensures Valid()
      ensures r == CertByHid8(p, cfg, w, h) && State() == Stored(old(State()), r)
    {
      var hex := HexLower(h);
      r := Store(w.net(0, cfg.tlmUrl + "/lookup/" + hex, []), "lookup_" + hex);
    }

    // --- Enrolment and authorization ---

    method Admit(resp: Response, name: string, w: World) returns (r: Result<CertInfo>)
      requires Valid()
      modifies trust
      ensures Valid()
      ensures r == Admitted(p, old(State()), w, resp, name) && State() == Stored(old(State()), r)
    {
      if resp.code != 0 { return Err(Protocol); }
      if resp.certificate.None? { return Err(Protocol); }
      var ci := resp.certificate.value.(name := name);
      if !IssuerChainPresent(trust.certs, ci) { return Err(NotFound); }
      var valid := trust.ValidateChain(ci, Tai(w));
      if !valid { return Err(SignatureInvalid); }
      trust.AddCert(ci);
      r := Ok(ci);
    }

    method RequestEnrolmentCredential(handle: string, rec: EcRecord, rnd: EcEntropy, w: World)
      returns (r: Result<CertInfo>)
      requires Valid()
      modifies trust
      ensures Valid()
      ensures r == Enrolled(p, old(State()), keystore, handle, rec, rnd, w) && State() == Stored(old(State()), r)
    {
      if !ValidEcRecord(rec) { return Err(InvalidArgument); }
      if handle !in keystore { return Err(KeyStore); }
      var kp := keystore[handle];
      var ea := trust.Find(rec.eaHid8);
      if ea.None? { return Err(NotFound); }
      var req :- EncodeEcRequest(p, AssembleEc(rec, w.now), ea.value, kp.privateKey, rnd);
      var answer := w.net(0, eaUrl, req.bytes);
      if answer.Err? { return Err(answer.error); }
      if answer.value.status != 200 { return Err(HttpStatus); }
      var resp := DecodeResponse(p, EC_RESPONSE_TAG, answer.value.body, kp.privateKey, req.aesKey, req.bytes, ea.value);
      if resp.Err? { return Err(resp.error); }
      r := Admit(resp.value, "ec", w);
    }

    method RequestAuthorizationTicket(ecHandle: string, ec: CertInfo, atHandle: string, rec: AtRecord, hmacKey: Bytes,
                                      rnd: AtEntropy, w: World) returns (r: Result<CertInfo>)
      requires Valid()
      modifies trust
      ensures Valid()
      ensures r == Authorized(p, old(State()), keystore, ecHandle, ec, atHandle, rec, hmacKey, rnd, w)
      ensures State() == Stored(old(State()), r)
    {
      var valid := ValidateAtRecord(rec);
      if !valid { return Err(InvalidArgument); }
      if ecHandle !in keystore { return Err(KeyStore); }
      var kp := keystore[ecHandle];
      var aa := trust.Find(rec.aaHid8);
      if aa.None? { return Err(NotFound); }
      var ea := trust.Find(rec.eaHid8);
      if ea.None? { return Err(NotFound); }
      if atHandle !in keystore { return Err(KeyStore); }
      var atKey := keystore[atHandle];
      var desc := AtDescriptionFor(rec, w, hmacKey, atKey);
      var req :- EncodeAtRequest(p, desc, aa.value, ea.value, ec, kp.privateKey, atKey.privateKey, rnd);
      var answer := w.net(0, aaUrl, req.bytes);
      if answer.Err? { return Err(answer.error); }
      if answer.value.status != 200 { return Err(HttpStatus); }
      var resp := DecodeResponse(p, AT_RESPONSE_TAG, answer.value.body, atKey.privateKey, req.aesKey, req.bytes,
                                 aa.value);
      if resp.Err? { return Err(resp.error); }
      r := Admit(resp.value, "at", w);
    }

    // --- Revocation ---

    method FetchCrl(h: Hid8, w: World) returns (r: Result<CrlContents>)
      requires Valid()
      modifies revocation
      ensures Valid()
      ensures r == FetchedCrl(p, cfg, old(State()), h, w) && State() == AfterCrl(old(State()), r, w)
    {
      var base := cfg.tlmUrl;
      if topology.Some? { base := FindDcUrl(topology.value.dcs, h, cfg.tlmUrl); }
      var answer := w.net(0, base + "/getcrl/" + HexUpper(h), []);
      if answer.Err? { return Err(answer.error); }
      if answer.value.status != 200 { return Err(HttpStatus); }
      var rca := trust.Find(h);
      if rca.None? { return Err(NotFound); }
      var crl :- DecodeCrl(p, answer.value.body, rca.value.publicKey, rca.value.certBytes);
      var accepted := revocation.Apply(crl, Tai(w));
      if !accepted { return Err(Protocol); }
      r := Ok(crl);
    }

    // --- Discovery ---

    method AddCerts(cis: seq<CertInfo>)
      modifies trust`certs
      ensures trust.certs == AddAll(old(trust.certs), cis)
    {
      for i := 0 to |cis|
        invariant trust.certs == AddAll(old(trust.certs), cis[..i])
      {
        assert cis[..i + 1][..i] == cis[..i];
        trust.AddCert(cis[i]);
      }
      assert cis[..|cis|] == cis;
    }

    /** One root CA: fetch its list from where the centres known so far say, and judge it. */
    method FetchCtl(rca: CertInfo, dcs: seq<DcInfo>, i: nat, w: World) returns (o: CtlOutcome)
      ensures o == Judged(p, w, rca, CtlAnswer(cfg, w, dcs, rca, i))
    {
      var base := FindDcUrl(dcs, rca.hashedId8, cfg.tlmUrl);
      var answer := w.net(2 + i, base + "/getctl/" + HexUpper(rca.hashedId8), []);
      if answer.Err? || answer.value.status != 200 { return Skipped; }
      var topo := DecodeCtl(p, answer.value.body, rca.publicKey, rca.certBytes, false, Tai(w));
      if topo.Err? { return Refused; }
      if !topo.value.ctlVerified { return Refused; }
      o := Verified(topo.value);
    }

    method NextCtl(ectl: TrustTopology, ghost os: seq<CtlOutcome>, dcs: seq<DcInfo>, i: nat, w: World)
      returns (o: CtlOutcome)
      requires i < |ectl.rcas| && os == Outcomes(p, cfg, w, ectl, i) && dcs == ectl.dcs + AllDcs(os)
      ensures os + [o] == Outcomes(p, cfg, w, ectl, i + 1)
    {
      o := FetchCtl(ectl.rcas[i], dcs, i, w);
      OutcomesStep(p, cfg, w, ectl, i);
    }

    /** Take in one outcome: certificates to the store, entries to the lists. */
    method Absorb(o: CtlOutcome, lists: Lists, ghost ectl: TrustTopology, ghost os: seq<CtlOutcome>,
                  ghost before: Store)
      returns (grown: Lists)
      requires trust.certs == WithAuthorities(before, os) && lists == Collected(ectl, os)
      modifies trust`certs
      ensures trust.certs == WithAuthorities(before, os + [o]) && grown == Collected(ectl, os + [o])
    {
      StoreAppended(before, os, o);
      ListsAppended(ectl, os, o);
      grown := lists;
      if o.Refused? { grown := grown.(verified := false); }
      if o.Verified? {
        AddCerts(EaCerts(o.topo.eas) + AaCerts(o.topo.aas));
        grown := Lists(grown.eas + o.topo.eas, grown.aas + o.topo.aas, grown.dcs + o.topo.dcs, grown.verified);
      }
    }

    /** The loop over the root CAs. */
    method FetchCtls(ectl: TrustTopology, w: World) returns (lists: Lists)
      modifies trust`certs
      ensures var os := Outcomes(p, cfg, w, ectl, |ectl.rcas|);
              trust.certs == WithAuthorities(old(trust.certs), os) && lists == Collected(ectl, os)
    {
      lists := Lists(ectl.eas, ectl.aas, ectl.dcs, true);
      ghost var os: seq<CtlOutcome> := [];
      for i := 0 to |ectl.rcas|
        invariant os == Outcomes(p, cfg, w, ectl, i)
        invariant trust.certs == WithAuthorities(old(trust.certs), os) && lists == Collected(ectl, os)
      {
        var o := NextCtl(ectl, os, lists.dcs, i, w);
        lists := Absorb(o, lists, ectl, os, old(trust.certs));
        os := os + [o];
      }
    }

    /** The ECTL step: the list must be signed by the TLM. */
    method FetchEctl(tlm: CertInfo, w: World) returns (r: Result<TrustTopology>)
      ensures r == EctlStep(p, cfg, w, tlm)
    {
      var hex := if cfg.tlmHid8 != "" then cfg.tlmHid8 else HexUpper(tlm.hashedId8);
      var answer := w.net(1, cfg.tlmUrl + "/getectl/" + hex, []);
      if answer.Err? { return Err(answer.error); }
      if answer.value.status != 200 { return Err(HttpStatus); }
      var ectl :- DecodeCtl(p, answer.value.body, tlm.publicKey, tlm.certBytes, true, Tai(w));
      if !ectl.ectlVerified { return Err(SignatureInvalid); }
      r := Ok(ectl.(tlm := Some(tlm)));
    }

    /** The result is kept and its first EA and AA become the ones to talk to. */
    method Conclude(ectl: TrustTopology, lists: Lists) returns (r: Result<TrustTopology>)
      modifies this`topology, this`eaUrl, this`aaUrl
      ensures r == if lists.verified then Ok(WithLists(ectl, lists)) else Err(SignatureInvalid)
      ensures State() == if lists.verified then Adopt(old(State()), WithLists(ectl, lists)) else old(State())
    {
      if !lists.verified { return Err(SignatureInvalid); }
      var result := WithLists(ectl, lists);
      if result.eas != [] && result.eas[0].itsAccessPoint != "" { eaUrl := result.eas[0].itsAccessPoint; }
      if result.aas != [] { aaUrl := result.aas[0].accessPoint; }
      topology := Some(result);
      r := Ok(result);
    }

    /** Everything after the ECTL is in hand. */
    method UseEctl(ectl: TrustTopology, w: World) returns (r: Result<TrustTopology>)
      requires Valid()
      modifies this`topology, this`eaUrl, this`aaUrl, trust`certs
      ensures Valid()
      ensures (State(), r) == Concluded(old(State()), ectl, Outcomes(p, cfg, w, ectl, |ectl.rcas|))
    {
      AddCerts(ectl.rcas);
      var lists := FetchCtls(ectl, w);
      r := Conclude(ectl, lists);
    }

    method DiscoverTrust(w: World) returns (r: Result<TrustTopology>)
      requires Valid()
      modifies this`topology, this`eaUrl, this`aaUrl, trust
      ensures Valid()
      ensures (State(), r) == Discovered(p, cfg, old(State()), w)
    {
      var tlm :- Store(w.net(0, TlmUrl(cfg), []), "tlm");
      var ectl :- FetchEctl(tlm, w);
      r := UseEctl(ectl, w);
    }
  }

  /** What the loop over the root CAs has gathered. */
  datatype Lists = Lists(eas: seq<EaInfo>, aas: seq<AaInfo>, dcs: seq<DcInfo>, verified: bool)

  ghost function Collected(ectl: TrustTopology, os: seq<CtlOutcome>): Lists {
    Lists(ectl.eas + AllEas(os), ectl.aas + AllAas(os), ectl.dcs + AllDcs(os), NoneRefused(os))
  }

  function WithLists(ectl: TrustTopology, l: Lists): TrustTopology {
    ectl.(eas := l.eas, aas := l.aas, dcs := l.dcs, ctlVerified := true)
  }

  lemma StoreAppended(certs: Store, os: seq<CtlOutcome>, o: CtlOutcome)
    ensures WithAuthorities(certs, os + [o]) ==
            if o.Verified? then AddAll(WithAuthorities(certs, os), EaCerts(o.topo.eas) + AaCerts(o.topo.aas))
            else WithAuthorities(certs, os)
  {
    assert (os + [o])[..|os|] == os;
    if !o.Verified? { assert Contribution(o) == []; }
  }

  /** How the gathered lists grow by one outcome. */
  lemma ListsAppended(ectl: TrustTopology, os: seq<CtlOutcome>, o: CtlOutcome)
    ensures var l := Collected(ectl, os);
            Collected(ectl, os + [o]) ==
            match o
            case Skipped => l
            case Refused => l.(verified := false)
            case Verified(t) => Lists(l.eas + t.eas, l.aas + t.aas, l.dcs + t.dcs, l.verified)
  {
    assert (os + [o])[..|os|] == os;
    RefusalAppended(os, o);
  }

  lemma RefusalAppended(os: seq<CtlOutcome>, o: CtlOutcome)
    ensures NoneRefused(os + [o]) <==> NoneRefused(os) && !o.Refused?
  {
    if NoneRefused(os + [o]) {
      assert (os + [o])[|os|] == o;
      forall i | 0 <= i < |os| ensures !os[i].Refused? { assert (os + [o])[i] == os[i]; }
    }
  }
}
