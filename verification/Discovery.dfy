/** Trust discovery: TLM, then the ECTL it signed, then the CTL of every root CA on it. */
module Discovery {
  import opened Basics
  import opened PlatformModel
  import opened CertParse
  import opened TrustStore
  import opened TrustLists
  import opened ClientOps

  // --- The steps ---

  function TlmUrl(cfg: Config): string {
    if cfg.tlmHid8 != "" then cfg.tlmUrl + "/gettlmcertificate/" + cfg.tlmHid8 else cfg.tlmUrl + "/tlm"
  }

  function TlmStep(p: Platform, cfg: Config, w: World): Result<CertInfo> {
    FetchedCert(p, w.net(0, TlmUrl(cfg), []), "tlm")
  }

  function EctlAnswer(cfg: Config, w: World, tlm: CertInfo): Result<Bytes> {
    var hex := if cfg.tlmHid8 != "" then cfg.tlmHid8 else HexUpper(tlm.hashedId8);
    Body200(w.net(1, cfg.tlmUrl + "/getectl/" + hex, []))
  }

  function EctlStep(p: Platform, cfg: Config, w: World, tlm: CertInfo): Result<TrustTopology> {
    var body :- EctlAnswer(cfg, w, tlm);
    var topo :- DecodedCtl(p, body, tlm.publicKey, tlm.certBytes, true, Tai(w));
    if !topo.ectlVerified then Err(SignatureInvalid) else Ok(topo.(tlm := Some(tlm)))
  }

  /** What became of one root CA's list: not delivered, delivered but unusable, or verified. */
  datatype CtlOutcome = Skipped | Refused | Verified(topo: TrustTopology)

  function CtlAnswer(cfg: Config, w: World, dcs: seq<DcInfo>, rca: CertInfo, i: nat): Result<Bytes> {
    Body200(w.net(2 + i, DcUrl(dcs, rca.hashedId8, cfg.tlmUrl) + "/getctl/" + HexUpper(rca.hashedId8), []))
  }

  function Judged(p: Platform, w: World, rca: CertInfo, answer: Result<Bytes>): CtlOutcome {
    match answer
    case Err(_) => Skipped
    case Ok(body) =>
      match DecodedCtl(p, body, rca.publicKey, rca.certBytes, false, Tai(w))
      case Err(_) => Refused
      case Ok(t) => if t.ctlVerified then Verified(t) else Refused
  }

  function VerifiedDcs(o: CtlOutcome): seq<DcInfo> { if o.Verified? then o.topo.dcs else [] }

  function VerifiedEas(o: CtlOutcome): seq<EaInfo> { if o.Verified? then o.topo.eas else [] }

  function VerifiedAas(o: CtlOutcome): seq<AaInfo> { if o.Verified? then o.topo.aas else [] }

  function AllDcs(os: seq<CtlOutcome>): seq<DcInfo> {
    if os == [] then [] else AllDcs(os[..|os| - 1]) + VerifiedDcs(os[|os| - 1])
  }

  function AllEas(os: seq<CtlOutcome>): seq<EaInfo> {
    if os == [] then [] else AllEas(os[..|os| - 1]) + VerifiedEas(os[|os| - 1])
  }

  function AllAas(os: seq<CtlOutcome>): seq<AaInfo> {
    if os == [] then [] else AllAas(os[..|os| - 1]) + VerifiedAas(os[|os| - 1])
  }

  /** A verified list contributes its EAs, then its AAs. */
  function Contribution(o: CtlOutcome): seq<CertInfo> { EaCerts(VerifiedEas(o)) + AaCerts(VerifiedAas(o)) }

  function WithAuthorities(certs: Store, os: seq<CtlOutcome>): Store {
    if os == [] then certs else AddAll(WithAuthorities(certs, os[..|os| - 1]), Contribution(os[|os| - 1]))
  }

  predicate NoneRefused(os: seq<CtlOutcome>) { forall i :: 0 <= i < |os| ==> !os[i].Refused? }

  /** Where the next list is fetched from depends on the distribution centres announced so far. */
  function NextAnswer(cfg: Config, w: World, ectl: TrustTopology, os: seq<CtlOutcome>): Result<Bytes>
    requires |os| < |ectl.rcas|
  {
    CtlAnswer(cfg, w, ectl.dcs + AllDcs(os), ectl.rcas[|os|], |os|)
  }

  /** What happens with the next root CA, given what happened with those before it. */
  function NextOutcome(p: Platform, cfg: Config, w: World, ectl: TrustTopology): seq<CtlOutcome> -> CtlOutcome {
    (os: seq<CtlOutcome>) =>
      if |os| < |ectl.rcas| then Judged(p, w, ectl.rcas[|os|], NextAnswer(cfg, w, ectl, os)) else Skipped
  }

  function Iterated(next: seq<CtlOutcome> -> CtlOutcome, n: nat): (os: seq<CtlOutcome>)
    ensures |os| == n
  {
    if n == 0 then [] else
    var os := Iterated(next, n - 1);
    os + [next(os)]
  }

  /** The outcomes of the first n root CAs, in their order. */
  function Outcomes(p: Platform, cfg: Config, w: World, ectl: TrustTopology, n: nat): (os: seq<CtlOutcome>)
    ensures |os| == n
  {
    Iterated(NextOutcome(p, cfg, w, ectl), n)
  }

  /** The topology a successful discovery reports. */
  function Assembled(ectl: TrustTopology, os: seq<CtlOutcome>): TrustTopology {
    ectl.(eas := ectl.eas + AllEas(os), aas := ectl.aas + AllAas(os), dcs := ectl.dcs + AllDcs(os), ctlVerified := true)
  }

  function Adopt(st: ClientState, topo: TrustTopology): ClientState {
    st.(topology := Some(topo),
        eaUrl := if topo.eas != [] && topo.eas[0].itsAccessPoint != "" then topo.eas[0].itsAccessPoint else st.eaUrl,
        aaUrl := if topo.aas != [] then topo.aas[0].accessPoint else st.aaUrl)
  }

  /** New state and result once the ECTL is in hand. */
  function Concluded(st: ClientState, ectl: TrustTopology, os: seq<CtlOutcome>): (ClientState, Result<TrustTopology>) {
    var st2 := st.(certs := WithAuthorities(AddAll(st.certs, ectl.rcas), os));
    if !NoneRefused(os) then (st2, Err(SignatureInvalid))
    else (Adopt(st2, Assembled(ectl, os)), Ok(Assembled(ectl, os)))
  }

  /** New state and result of a discovery. */
  function Discovered(p: Platform, cfg: Config, st: ClientState, w: World): (ClientState, Result<TrustTopology>) {
    match TlmStep(p, cfg, w)
    case Err(e) => (st, Err(e))
    case Ok(tlm) =>
      match EctlStep(p, cfg, w, tlm)
      case Err(e) => (WithCert(st, tlm), Err(e))
      case Ok(ectl) => Concluded(WithCert(st, tlm), ectl, Outcomes(p, cfg, w, ectl, |ectl.rcas|))
  }

  // --- What a discovery achieves ---

  /** A list that is delivered is refused exactly when it does not decode or is not signed by its
      root CA, and is otherwise used. */
  lemma JudgedIff(p: Platform, w: World, rca: CertInfo, answer: Result<Bytes>)
    ensures var o := Judged(p, w, rca, answer);
            && (o.Skipped? <==> answer.Err?)
            && (o.Verified? <==>
                && answer.Ok?
                && DecodedCtl(p, answer.value, rca.publicKey, rca.certBytes, false, Tai(w)).Ok?
                && SignedUnder(p, answer.value, rca.publicKey, rca.certBytes))
            && (o.Verified? ==> DecodedCtl(p, answer.value, rca.publicKey, rca.certBytes, false, Tai(w)) == Ok(o.topo))
  {
    if answer.Ok? && DecodedCtl(p, answer.value, rca.publicKey, rca.certBytes, false, Tai(w)).Ok? {
      VerdictMeansSigned(p, answer.value, rca.publicKey, rca.certBytes, false, Tai(w));
    }
  }

  lemma {:induction false} IteratedAt(next: seq<CtlOutcome> -> CtlOutcome, n: nat, i: nat)
    requires i < n
    ensures Iterated(next, n)[..i] == Iterated(next, i) && Iterated(next, n)[i] == next(Iterated(next, i))
    decreases n
  {
    var os := Iterated(next, n - 1);
    assert Iterated(next, n) == os + [next(os)];
    if i < n - 1 {
      IteratedAt(next, n - 1, i);
      assert Iterated(next, n)[..i] == os[..i];
    }
  }

  lemma OutcomesStep(p: Platform, cfg: Config, w: World, ectl: TrustTopology, i: nat)
    requires i < |ectl.rcas|
    ensures var os := Outcomes(p, cfg, w, ectl, i);
            Outcomes(p, cfg, w, ectl, i + 1) == os + [Judged(p, w, ectl.rcas[i], NextAnswer(cfg, w, ectl, os))]
  {
    IteratedAt(NextOutcome(p, cfg, w, ectl), i + 1, i);
  }

  lemma OutcomeAt(p: Platform, cfg: Config, w: World, ectl: TrustTopology, i: nat)
    requires i < |ectl.rcas|
    ensures var os := Outcomes(p, cfg, w, ectl, |ectl.rcas|);
            var before := Outcomes(p, cfg, w, ectl, i);
            os[..i] == before && os[i] == Judged(p, w, ectl.rcas[i], NextAnswer(cfg, w, ectl, before))
  {
    IteratedAt(NextOutcome(p, cfg, w, ectl), |ectl.rcas|, i);
  }

  /** The i-th root CA's list, if it is delivered, decodes and is signed by that root CA. */
  ghost predicate CtlInOrder(p: Platform, cfg: Config, w: World, ectl: TrustTopology, i: nat)
    requires i < |ectl.rcas|
  {
    var rca := ectl.rcas[i];
    var answer := NextAnswer(cfg, w, ectl, Outcomes(p, cfg, w, ectl, i));
    answer.Ok? ==>
      && DecodedCtl(p, answer.value, rca.publicKey, rca.certBytes, false, Tai(w)).Ok?
      && SignedUnder(p, answer.value, rca.publicKey, rca.certBytes)
  }

  /** The ECTL is delivered, decodes and is signed by the TLM. */
  ghost predicate EctlInOrder(p: Platform, cfg: Config, w: World, tlm: CertInfo) {
    && EctlAnswer(cfg, w, tlm).Ok?
    && DecodedCtl(p, EctlAnswer(cfg, w, tlm).value, tlm.publicKey, tlm.certBytes, true, Tai(w)).Ok?
    && SignedUnder(p, EctlAnswer(cfg, w, tlm).value, tlm.publicKey, tlm.certBytes)
  }

  /** A discovery succeeds exactly when the TLM is fetched, the ECTL is in order and so is every
      CTL that the network delivers. */
  lemma DiscoverySucceedsIff(p: Platform, cfg: Config, st: ClientState, w: World)
    ensures Discovered(p, cfg, st, w).1.Ok? <==>
            && TlmStep(p, cfg, w).Ok?
            && var tlm := TlmStep(p, cfg, w).value;
            && EctlInOrder(p, cfg, w, tlm)
            && forall ectl, i :: EctlStep(p, cfg, w, tlm) == Ok(ectl) && 0 <= i < |ectl.rcas| ==>
                 CtlInOrder(p, cfg, w, ectl, i)
  {
    if TlmStep(p, cfg, w).Ok? {
      var tlm := TlmStep(p, cfg, w).value;
      EctlStepIff(p, cfg, w, tlm);
      if EctlStep(p, cfg, w, tlm).Ok? { NoneRefusedIff(p, cfg, w, EctlStep(p, cfg, w, tlm).value); }
    }
  }

  lemma NoneRefusedIff(p: Platform, cfg: Config, w: World, ectl: TrustTopology)
    ensures NoneRefused(Outcomes(p, cfg, w, ectl, |ectl.rcas|)) <==>
            forall i :: 0 <= i < |ectl.rcas| ==> CtlInOrder(p, cfg, w, ectl, i)
  {
    forall i | 0 <= i < |ectl.rcas|
      ensures CtlInOrder(p, cfg, w, ectl, i) <==> !Outcomes(p, cfg, w, ectl, |ectl.rcas|)[i].Refused?
    {
      OutcomeAt(p, cfg, w, ectl, i);
      JudgedIff(p, w, ectl.rcas[i], NextAnswer(cfg, w, ectl, Outcomes(p, cfg, w, ectl, i)));
    }
  }

  lemma EctlStepIff(p: Platform, cfg: Config, w: World, tlm: CertInfo)
    ensures EctlStep(p, cfg, w, tlm).Ok? <==> EctlInOrder(p, cfg, w, tlm)
  {
    if EctlAnswer(cfg, w, tlm).Ok?
       && DecodedCtl(p, EctlAnswer(cfg, w, tlm).value, tlm.publicKey, tlm.certBytes, true, Tai(w)).Ok? {
      VerdictMeansSigned(p, EctlAnswer(cfg, w, tlm).value, tlm.publicKey, tlm.certBytes, true, Tai(w));
    }
  }

  /** How a discovery may change the routing state: not at all if it fails; otherwise it adopts the
      reported topology and talks to its first EA and AA, if there are any and the EA names its
      access point. The revocations stay either way. */
  ghost predicate Routed(st: ClientState, st': ClientState, r: Result<TrustTopology>) {
    && (r.Err? ==> st'.topology == st.topology && st'.eaUrl == st.eaUrl && st'.aaUrl == st.aaUrl)
    && (r.Ok? ==>
        && st'.topology == Some(r.value)
        && st'.aaUrl == (if r.value.aas != [] then r.value.aas[0].accessPoint else st.aaUrl)
        && var eas := r.value.eas;
           st'.eaUrl == if eas != [] && eas[0].itsAccessPoint != "" then eas[0].itsAccessPoint else st.eaUrl)
    && st'.rev == st.rev
  }

  lemma ConcludedRouting(st: ClientState, ectl: TrustTopology, os: seq<CtlOutcome>)
    ensures Routed(st, Concluded(st, ectl, os).0, Concluded(st, ectl, os).1)
  {
  }

  lemma RoutingAfterDiscovery(p: Platform, cfg: Config, st: ClientState, w: World)
    ensures Routed(st, Discovered(p, cfg, st, w).0, Discovered(p, cfg, st, w).1)
  {
    var tlm := TlmStep(p, cfg, w);
    if tlm.Ok? && EctlStep(p, cfg, w, tlm.value).Ok? {
      var ectl := EctlStep(p, cfg, w, tlm.value).value;
      ConcludedRouting(WithCert(st, tlm.value), ectl, Outcomes(p, cfg, w, ectl, |ectl.rcas|));
    }
  }

  /** Where a discovery stops: without the TLM nothing is stored, without the ECTL only the TLM, and a refused list
      fails the whole, after everything was stored. */
  lemma DiscoveryStops(p: Platform, cfg: Config, st: ClientState, w: World)
    ensures var (st', r) := Discovered(p, cfg, st, w);
            match TlmStep(p, cfg, w)
            case Err(e) => r == Err(e) && st' == st
            case Ok(tlm) =>
              match EctlStep(p, cfg, w, tlm)
              case Err(e) => r == Err(e) && st' == st.(certs := st.certs[tlm.hashedId8 := tlm])
              case Ok(ectl) => r.Err? ==> r == Err(SignatureInvalid)
  {
  }

  /** Which error the ECTL step gives. */
  lemma EctlErrors(p: Platform, cfg: Config, w: World, tlm: CertInfo)
    ensures var r := EctlStep(p, cfg, w, tlm);
            match EctlAnswer(cfg, w, tlm)
            case Err(e) => r == Err(e)
            case Ok(body) =>
              if DecodedCtl(p, body, tlm.publicKey, tlm.certBytes, true, Tai(w)).Err? then r == Err(Decode)
              else !SignedUnder(p, body, tlm.publicKey, tlm.certBytes) ==> r == Err(SignatureInvalid)
  {
    match EctlAnswer(cfg, w, tlm)
    case Err(_) =>
    case Ok(body) =>
      DecodedCtlIff(p, body, tlm.publicKey, tlm.certBytes, true, Tai(w));
      if DecodedCtl(p, body, tlm.publicKey, tlm.certBytes, true, Tai(w)).Ok? {
        VerdictMeansSigned(p, body, tlm.publicKey, tlm.certBytes, true, Tai(w));
      }
  }

  // --- Provenance ---

  /** An entry that is not among the old ones is from the contribution of a verified list. */
  lemma {:induction false} AuthoritiesComeFromLists(certs: Store, os: seq<CtlOutcome>, k: Hid8)
    requires k in WithAuthorities(certs, os)
    ensures var ci := WithAuthorities(certs, os)[k];
            (k in certs && certs[k] == ci) || exists i :: 0 <= i < |os| && os[i].Verified? && ci in Contribution(os[i])
  {
    if os != [] {
      var ci := WithAuthorities(certs, os)[k];
      var n := |os| - 1;
      var base := WithAuthorities(certs, os[..n]);
      AddAllEntries(base, Contribution(os[n]));
      if k in base && base[k] == ci {
        AuthoritiesComeFromLists(certs, os[..n], k);
        if !(k in certs && certs[k] == ci) {
          var i :| 0 <= i < n && os[..n][i].Verified? && ci in Contribution(os[..n][i]);
          assert os[i] == os[..n][i];
        }
      } else {
        assert ci in Contribution(os[n]);
      }
    }
  }

  /** The certificate is on an ECTL that the network delivered and the fetched TLM signed. */
  ghost predicate RcaFromEctl(p: Platform, cfg: Config, w: World, tlm: CertInfo, ectl: TrustTopology, ci: CertInfo) {
    ci in ectl.rcas && EctlAnswer(cfg, w, tlm).Ok?
    && SignedUnder(p, EctlAnswer(cfg, w, tlm).value, tlm.publicKey, tlm.certBytes)
  }

  /** The certificate is an EA or AA of a list that the i-th root CA of that ECTL signed. */
  ghost predicate AuthorityFromCtl(p: Platform, cfg: Config, w: World, ectl: TrustTopology, ci: CertInfo, i: nat) {
    && i < |ectl.rcas|
    && var rca := ectl.rcas[i];
    && var answer := NextAnswer(cfg, w, ectl, Outcomes(p, cfg, w, ectl, i));
    && answer.Ok? && SignedUnder(p, answer.value, rca.publicKey, rca.certBytes)
    && var topo := DecodedCtl(p, answer.value, rca.publicKey, rca.certBytes, false, Tai(w));
       topo.Ok? && (ci in EaCerts(topo.value.eas) || ci in AaCerts(topo.value.aas))
  }

  lemma ContributionIsSigned(p: Platform, cfg: Config, w: World, ectl: TrustTopology, ci: CertInfo, i: nat)
    requires i < |ectl.rcas|
    requires var os := Outcomes(p, cfg, w, ectl, |ectl.rcas|); os[i].Verified? && ci in Contribution(os[i])
    ensures AuthorityFromCtl(p, cfg, w, ectl, ci, i)
  {
    OutcomeAt(p, cfg, w, ectl, i);
    JudgedIff(p, w, ectl.rcas[i], NextAnswer(cfg, w, ectl, Outcomes(p, cfg, w, ectl, i)));
  }

  /** Where a certificate of the store may come from after a discovery. */
  ghost predicate Provenance(p: Platform, cfg: Config, st: ClientState, w: World, k: Hid8, ci: CertInfo) {
    || (k in st.certs && st.certs[k] == ci)
    || (TlmStep(p, cfg, w).Ok? &&
        var tlm := TlmStep(p, cfg, w).value;
        || ci == tlm
        || (EctlStep(p, cfg, w, tlm).Ok? &&
            var ectl := EctlStep(p, cfg, w, tlm).value;
            RcaFromEctl(p, cfg, w, tlm, ectl, ci) || exists i :: AuthorityFromCtl(p, cfg, w, ectl, ci, i)))
  }

  /** Whatever the network answers, and also when the discovery fails half-way, every certificate
      in the store was there before, is the fetched TLM, is a root CA on an ECTL signed by that
      TLM, or is an EA or AA on a CTL signed by one of those root CAs. */
  lemma DiscoveryProvenance(p: Platform, cfg: Config, st: ClientState, w: World, k: Hid8)
    requires k in Discovered(p, cfg, st, w).0.certs
    ensures Provenance(p, cfg, st, w, k, Discovered(p, cfg, st, w).0.certs[k])
  {
    if TlmStep(p, cfg, w).Ok? && EctlStep(p, cfg, w, TlmStep(p, cfg, w).value).Ok? {
      var tlm := TlmStep(p, cfg, w).value;
      var ectl := EctlStep(p, cfg, w, tlm).value;
      var os := Outcomes(p, cfg, w, ectl, |ectl.rcas|);
      ConcludedProvenance(p, cfg, st, w, tlm, ectl, os, k);
    }
  }

  lemma ConcludedProvenance(p: Platform, cfg: Config, st: ClientState, w: World, tlm: CertInfo, ectl: TrustTopology,
                            os: seq<CtlOutcome>, k: Hid8)
    requires EctlStep(p, cfg, w, tlm) == Ok(ectl) && os == Outcomes(p, cfg, w, ectl, |ectl.rcas|)
    requires k in Concluded(WithCert(st, tlm), ectl, os).0.certs
    ensures var ci := Concluded(WithCert(st, tlm), ectl, os).0.certs[k];
            (k in st.certs && st.certs[k] == ci) || ci == tlm || RcaFromEctl(p, cfg, w, tlm, ectl, ci)
            || exists i :: AuthorityFromCtl(p, cfg, w, ectl, ci, i)
  {
    var certs1 := WithCert(st, tlm).certs;
    var certs2 := AddAll(certs1, ectl.rcas);
    var ci := WithAuthorities(certs2, os)[k];
    AuthoritiesComeFromLists(certs2, os, k);
    if k in certs2 && certs2[k] == ci {
      AddAllEntries(certs1, ectl.rcas);
      VerdictMeansSigned(p, EctlAnswer(cfg, w, tlm).value, tlm.publicKey, tlm.certBytes, true, Tai(w));
    } else {
      var i :| 0 <= i < |os| && os[i].Verified? && ci in Contribution(os[i]);
      ContributionIsSigned(p, cfg, w, ectl, ci, i);
    }
  }

  // --- What a discovery adds ---

  function Contributed(os: seq<CtlOutcome>): seq<CertInfo> {
    if os == [] then [] else Contributed(os[..|os| - 1]) + Contribution(os[|os| - 1])
  }

  lemma {:induction false} WithAuthoritiesIs(certs: Store, os: seq<CtlOutcome>)
    ensures WithAuthorities(certs, os) == AddAll(certs, Contributed(os))
  {
    if os != [] {
      WithAuthoritiesIs(certs, os[..|os| - 1]);
      AddAllAppend(certs, Contributed(os[..|os| - 1]), Contribution(os[|os| - 1]));
    }
  }

  /** The certificate is an EA or AA of a verified list. */
  ghost predicate OnList(o: CtlOutcome, ci: CertInfo) {
    o.Verified? && (ci in EaCerts(o.topo.eas) || ci in AaCerts(o.topo.aas))
  }

  ghost predicate OnVerifiedList(os: seq<CtlOutcome>, ci: CertInfo) { exists i :: 0 <= i < |os| && OnList(os[i], ci) }

  lemma ContributionIff(o: CtlOutcome, ci: CertInfo)
    ensures ci in Contribution(o) <==> OnList(o, ci)
  {
  }

  lemma OnListLast(os: seq<CtlOutcome>, ci: CertInfo)
    requires os != []
    ensures OnVerifiedList(os, ci) <==> OnVerifiedList(os[..|os| - 1], ci) || OnList(os[|os| - 1], ci)
  {
    var n := |os| - 1;
    if OnVerifiedList(os[..n], ci) {
      var i :| 0 <= i < n && OnList(os[..n][i], ci);
      assert OnList(os[i], ci);
    }
    if OnVerifiedList(os, ci) {
      var i :| 0 <= i < |os| && OnList(os[i], ci);
      if i < n { assert OnList(os[..n][i], ci); }
    }
  }

  lemma {:induction false} ContributedIff(os: seq<CtlOutcome>, ci: CertInfo)
    ensures ci in Contributed(os) <==> OnVerifiedList(os, ci)
  {
    if os != [] {
      ContributedIff(os[..|os| - 1], ci);
      ContributionIff(os[|os| - 1], ci);
      OnListLast(os, ci);
    }
  }

  /** Everything a discovery is to store: the TLM, every root CA of the ECTL, and the EAs and AAs of every list
      that was verified. */
  ghost predicate Announced(tlm: CertInfo, ectl: TrustTopology, os: seq<CtlOutcome>, ci: CertInfo) {
    ci == tlm || ci in ectl.rcas || OnVerifiedList(os, ci)
  }

  lemma ConcludedStores(st: ClientState, tlm: CertInfo, ectl: TrustTopology, os: seq<CtlOutcome>)
    ensures Concluded(WithCert(st, tlm), ectl, os).0.certs
         == AddAll(st.certs, [tlm] + ectl.rcas + Contributed(os))
  {
    WithAuthoritiesIs(AddAll(WithCert(st, tlm).certs, ectl.rcas), os);
    assert [tlm][..0] == [];
    assert AddAll(st.certs, [tlm]) == WithCert(st, tlm).certs;
    AddAllAppend(st.certs, [tlm], ectl.rcas);
    AddAllAppend(st.certs, [tlm] + ectl.rcas, Contributed(os));
  }

  /** Once the ECTL is verified, also if a later list is refused, everything announced is stored under its own
      identity: the entry is an announced certificate of that identity, hence the certificate itself
      if no other has it. Nothing else changes. */
  lemma DiscoveryStores(p: Platform, cfg: Config, st: ClientState, w: World, tlm: CertInfo, ectl: TrustTopology,
                        k: Hid8)
    requires TlmStep(p, cfg, w) == Ok(tlm) && EctlStep(p, cfg, w, tlm) == Ok(ectl)
    ensures var os := Outcomes(p, cfg, w, ectl, |ectl.rcas|);
            var certs := Discovered(p, cfg, st, w).0.certs;
            && ((exists ci :: Announced(tlm, ectl, os, ci) && ci.hashedId8 == k) ==>
                  k in certs && certs[k].hashedId8 == k && Announced(tlm, ectl, os, certs[k]))
            && ((forall ci :: Announced(tlm, ectl, os, ci) ==> ci.hashedId8 != k) ==>
                  (k in certs <==> k in st.certs) && (k in st.certs ==> certs[k] == st.certs[k]))
  {
    var os := Outcomes(p, cfg, w, ectl, |ectl.rcas|);
    var all := [tlm] + ectl.rcas + Contributed(os);
    ConcludedStores(st, tlm, ectl, os);
    forall ci ensures ci in all <==> Announced(tlm, ectl, os, ci) { ContributedIff(os, ci); }
    AddAllHolds(st.certs, all, k);
    if exists ci :: Announced(tlm, ectl, os, ci) && ci.hashedId8 == k {
      var ci :| Announced(tlm, ectl, os, ci) && ci.hashedId8 == k;
      assert ci in all;
    }
  }

  ghost predicate DistinctIdentities(tlm: CertInfo, ectl: TrustTopology, os: seq<CtlOutcome>) {
    forall a, b | Announced(tlm, ectl, os, a) && Announced(tlm, ectl, os, b) && a.hashedId8 == b.hashedId8 :: a == b
  }

  /** With distinct identities, every announced certificate is stored as it was announced: the TLM, all root CAs
      and all EAs and AAs of verified lists. */
  lemma AnnouncedStored(p: Platform, cfg: Config, st: ClientState, w: World, tlm: CertInfo, ectl: TrustTopology,
                        ci: CertInfo)
    requires TlmStep(p, cfg, w) == Ok(tlm) && EctlStep(p, cfg, w, tlm) == Ok(ectl)
    requires DistinctIdentities(tlm, ectl, Outcomes(p, cfg, w, ectl, |ectl.rcas|))
    requires Announced(tlm, ectl, Outcomes(p, cfg, w, ectl, |ectl.rcas|), ci)
    ensures var certs := Discovered(p, cfg, st, w).0.certs;
            ci.hashedId8 in certs && certs[ci.hashedId8] == ci
  {
    DiscoveryStores(p, cfg, st, w, tlm, ectl, ci.hashedId8);
  }

  // --- What a discovery reports, and what it asks for ---

  function Concatenated<T>(lists: seq<seq<T>>)
    : seq<T> { if lists == [] then [] else lists[0] + Concatenated(lists[1..]) }

  lemma {:induction false} ConcatenatedLast<T>(lists: seq<seq<T>>, last: seq<T>)
    ensures Concatenated(lists + [last]) == Concatenated(lists) + last
  {
    if lists == [] {
      assert (lists + [last])[1..] == [];
    } else {
      assert (lists + [last])[1..] == lists[1..] + [last];
      ConcatenatedLast(lists[1..], last);
    }
  }

  /** What each verified list brings, in the order of the root CAs; the others bring nothing. */
  function EaLists(os: seq<CtlOutcome>): seq<seq<EaInfo>> {
    seq(|os|, i requires 0 <= i < |os| => match os[i] case Verified(t) => t.eas case _ => [])
  }

  function AaLists(os: seq<CtlOutcome>): seq<seq<AaInfo>> {
    seq(|os|, i requires 0 <= i < |os| => match os[i] case Verified(t) => t.aas case _ => [])
  }

  function DcLists(os: seq<CtlOutcome>): seq<seq<DcInfo>> {
    seq(|os|, i requires 0 <= i < |os| => match os[i] case Verified(t) => t.dcs case _ => [])
  }

  lemma {:induction false} EasInOrder(os: seq<CtlOutcome>)
    ensures AllEas(os) == Concatenated(EaLists(os))
  {
    if os != [] {
      var n := |os| - 1;
      EasInOrder(os[..n]);
      assert EaLists(os) == EaLists(os[..n]) + [VerifiedEas(os[n])];
      ConcatenatedLast(EaLists(os[..n]), VerifiedEas(os[n]));
    }
  }

  lemma {:induction false} AasInOrder(os: seq<CtlOutcome>)
    ensures AllAas(os) == Concatenated(AaLists(os))
  {
    if os != [] {
      var n := |os| - 1;
      AasInOrder(os[..n]);
      assert AaLists(os) == AaLists(os[..n]) + [VerifiedAas(os[n])];
      ConcatenatedLast(AaLists(os[..n]), VerifiedAas(os[n]));
    }
  }

  lemma {:induction false} DcsInOrder(os: seq<CtlOutcome>)
    ensures AllDcs(os) == Concatenated(DcLists(os))
  {
    if os != [] {
      var n := |os| - 1;
      DcsInOrder(os[..n]);
      assert DcLists(os) == DcLists(os[..n]) + [VerifiedDcs(os[n])];
      ConcatenatedLast(DcLists(os[..n]), VerifiedDcs(os[n]));
    }
  }

  /** The TLM, the root CAs of the ECTL, and under each other heading the entries of the ECTL followed by those of
      the verified lists in the order of their root CAs. */
  ghost predicate Reports(t: TrustTopology, tlm: CertInfo, ectl: TrustTopology, os: seq<CtlOutcome>) {
    && t.tlm == Some(tlm) && t.rcas == ectl.rcas && t.ectlVerified && t.ctlVerified
    && t.eas == ectl.eas + Concatenated(EaLists(os))
    && t.aas == ectl.aas + Concatenated(AaLists(os))
    && t.dcs == ectl.dcs + Concatenated(DcLists(os))
  }

  lemma ConcludedReports(st: ClientState, tlm: CertInfo, ectl: TrustTopology, os: seq<CtlOutcome>)
    requires Concluded(st, ectl, os).1.Ok? && ectl.tlm == Some(tlm) && ectl.ectlVerified
    ensures Reports(Concluded(st, ectl, os).1.value, tlm, ectl, os)
  {
    EasInOrder(os);
    AasInOrder(os);
    DcsInOrder(os);
  }

  lemma EctlMarked(p: Platform, cfg: Config, w: World, tlm: CertInfo, ectl: TrustTopology)
    requires EctlStep(p, cfg, w, tlm) == Ok(ectl)
    ensures ectl.tlm == Some(tlm) && ectl.ectlVerified
  {
  }

  lemma DiscoveredIs(p: Platform, cfg: Config, st: ClientState, w: World, tlm: CertInfo, ectl: TrustTopology)
    requires TlmStep(p, cfg, w) == Ok(tlm) && EctlStep(p, cfg, w, tlm) == Ok(ectl)
    ensures Discovered(p, cfg, st, w) == Concluded(WithCert(st, tlm), ectl, Outcomes(p, cfg, w, ectl, |ectl.rcas|))
  {
  }

  /** That is what a successful discovery reports. */
  lemma ReportedInOrder(p: Platform, cfg: Config, st: ClientState, w: World, tlm: CertInfo, ectl: TrustTopology)
    requires TlmStep(p, cfg, w) == Ok(tlm) && EctlStep(p, cfg, w, tlm) == Ok(ectl)
    requires Discovered(p, cfg, st, w).1.Ok?
    ensures Reports(Discovered(p, cfg, st, w).1.value, tlm, ectl, Outcomes(p, cfg, w, ectl, |ectl.rcas|))
  {
    DiscoveredIs(p, cfg, st, w, tlm, ectl);
    EctlMarked(p, cfg, w, tlm, ectl);
    ConcludedReports(WithCert(st, tlm), tlm, ectl, Outcomes(p, cfg, w, ectl, |ectl.rcas|));
  }

  /** The addresses a discovery asks, in order: the TLM's, the ECTL's, and for every root CA that of the first
      centre that serves it among those of the ECTL and the lists before. */
  lemma AddressesAsked(p: Platform, cfg: Config, w: World, tlm: CertInfo, ectl: TrustTopology, i: nat)
    requires i < |ectl.rcas|
    ensures TlmStep(p, cfg, w) ==
            FetchedCert(p, w.net(0, if cfg.tlmHid8 == "" then cfg.tlmUrl + "/tlm"
                                    else cfg.tlmUrl + "/gettlmcertificate/" + cfg.tlmHid8, []), "tlm")
    ensures EctlAnswer(cfg, w, tlm) ==
            Body200(w.net(1, cfg.tlmUrl + "/getectl/" +
                             (if cfg.tlmHid8 == "" then HexUpper(tlm.hashedId8) else cfg.tlmHid8), []))
    ensures var before := Outcomes(p, cfg, w, ectl, i);
            var h := ectl.rcas[i].hashedId8;
            var base := DcUrl(ectl.dcs + Concatenated(DcLists(before)), h, cfg.tlmUrl);
            Outcomes(p, cfg, w, ectl, |ectl.rcas|)[i] ==
            Judged(p, w, ectl.rcas[i], Body200(w.net(2 + i, base + "/getctl/" + HexUpper(h), [])))
  {
    OutcomeAt(p, cfg, w, ectl, i);
    DcsInOrder(Outcomes(p, cfg, w, ectl, i));
  }

  // --- Distribution centres across calls ---

  lemma {:induction false} AllDcsConcat(a: seq<CtlOutcome>, b: seq<CtlOutcome>)
    ensures AllDcs(a + b) == AllDcs(a) + AllDcs(b)
  {
    if b == [] {
      assert a + b == a;
    } else {
      assert (a + b)[..|a + b| - 1] == a + b[..|b| - 1];
      AllDcsConcat(a, b[..|b| - 1]);
    }
  }

  /** The i-th root CA's list is fetched from the base that the first i outcomes give; with all of
      them known the base is the same exactly when that root CA was served by then, or nothing
      announced later moves it. */
  lemma BaseAgrees(ectl: TrustTopology, os: seq<CtlOutcome>, i: nat, h: Hid8, fallback: string)
    requires i <= |os|
    ensures var known := ectl.dcs + AllDcs(os[..i]);
            DcUrl(Assembled(ectl, os).dcs, h, fallback) == DcUrl(known, h, fallback) <==>
            Served(known, h) || DcUrl(AllDcs(os[i..]), h, fallback) == fallback
  {
    var known := ectl.dcs + AllDcs(os[..i]);
    assert os[..i] + os[i..] == os;
    AllDcsConcat(os[..i], os[i..]);
    assert ectl.dcs + AllDcs(os) == known + AllDcs(os[i..]);
    LookupAfterAppend(known, AllDcs(os[i..]), h, fallback);
    LookupAfterAppend(known, [], h, fallback);
    assert known + [] == known;
  }

  /** After a successful discovery, a CRL of the i-th root CA is asked for at the base its CTL was
      asked for, exactly when that root CA was served at the time, or nothing announced later
      moves it. */
  lemma CrlBaseAgrees(p: Platform, cfg: Config, st: ClientState, w: World, tlm: CertInfo, ectl: TrustTopology, i: nat)
    requires TlmStep(p, cfg, w) == Ok(tlm) && EctlStep(p, cfg, w, tlm) == Ok(ectl) && i < |ectl.rcas|
    requires Discovered(p, cfg, st, w).1.Ok?
    ensures var os := Outcomes(p, cfg, w, ectl, |ectl.rcas|);
            var h := ectl.rcas[i].hashedId8;
            var known := ectl.dcs + AllDcs(Outcomes(p, cfg, w, ectl, i));
            CrlUrl(cfg, Discovered(p, cfg, st, w).0, h) == DcUrl(known, h, cfg.tlmUrl) <==>
            Served(known, h) || DcUrl(AllDcs(os[i..]), h, cfg.tlmUrl) == cfg.tlmUrl
  {
    var os := Outcomes(p, cfg, w, ectl, |ectl.rcas|);
    OutcomeAt(p, cfg, w, ectl, i);
    BaseAgrees(ectl, os, i, ectl.rcas[i].hashedId8, cfg.tlmUrl);
    assert Discovered(p, cfg, st, w).0.topology == Some(Assembled(ectl, os));
  }
}
