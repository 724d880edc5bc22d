/** European and root CA trust lists (Annex D of ETSI TS 102 941), and the distribution centres
    they announce. */
module TrustLists {
  import opened Basics
  import opened Asn
  import opened PlatformModel
  import opened CertParse
  import opened SignedMessages
  import opened Revocation

  datatype EaInfo = EaInfo(cert: CertInfo, aaAccessPoint: string, itsAccessPoint: string)
  datatype AaInfo = AaInfo(cert: CertInfo, accessPoint: string)
  datatype DcInfo = DcInfo(url: string, serves: seq<Hid8>)

  datatype TrustTopology = TrustTopology(
    tlm: Option<CertInfo>,
    rcas: seq<CertInfo>,
    eas: seq<EaInfo>,
    aas: seq<AaInfo>,
    dcs: seq<DcInfo>,
    ectlVerified: bool,
    ctlVerified: bool,
    ectlNextUpdate: nat,
    ctlNextUpdate: nat,
    ectlExpired: bool,
    ctlExpired: bool)

  const NO_TOPOLOGY := TrustTopology(None, [], [], [], [], false, false, 0, 0, false, false)

  // --- Entries ---

  function ListedCert(p: Platform, cert: Option<CertificateBase>, name: string): Option<CertInfo> {
    var c :- cert;
    var coer := p.encCert(c);
    if coer == [] then None else Some(FromStruct(p, c, coer).(name := name))
  }

  /** The entry a command adds, if it adds one. */
  function Added(cmd: Option<CtlCommand>): CtlEntry {
    match cmd
    case Some(AddEntry(Some(e))) => e
    case _ => OtherEntry
  }

  function One<T>(o: Option<T>): seq<T> { if o.Some? then [o.value] else [] }

  /** An entry whose certificate does not encode is passed over. */
  function WithEntry(p: Platform, topo: TrustTopology, e: CtlEntry): TrustTopology {
    match e
    case RcaEntry(cert) =>
      var ci := ListedCert(p, cert, "rca");
      if ci.None? then topo else topo.(rcas := topo.rcas + [ci.value])
    case EaEntry(cert, aaAp, itsAp) =>
      var ci := ListedCert(p, cert, "ea");
      if ci.None? then topo
      else topo.(eas := topo.eas + [EaInfo(ci.value, aaAp, if itsAp.Some? then itsAp.value else "")])
    case AaEntry(cert, ap) =>
      var ci := ListedCert(p, cert, "aa");
      if ci.None? then topo else topo.(aas := topo.aas + [AaInfo(ci.value, ap)])
    case DcEntry(url, serves) => topo.(dcs := topo.dcs + [DcInfo(url, Hid8Entries(serves))])
    case TlmEntry(cert) =>
      var ci := ListedCert(p, cert, "tlm");
      if ci.None? then topo else topo.(tlm := ci)
    case OtherEntry => topo
  }

  function WithEntries(p: Platform, topo: TrustTopology, cmds: seq<Option<CtlCommand>>): TrustTopology {
    if cmds == [] then topo else WithEntry(p, WithEntries(p, topo, cmds[..|cmds| - 1]), Added(cmds[|cmds| - 1]))
  }

  function WithDates(topo: TrustTopology, nextUpdate: nat, isEctl: bool, now: int): TrustTopology {
    var expired := nextUpdate > 0 && now > nextUpdate;
    if isEctl then topo.(ectlNextUpdate := nextUpdate, ectlExpired := topo.ectlExpired || expired)
    else topo.(ctlNextUpdate := nextUpdate, ctlExpired := topo.ctlExpired || expired)
  }

  /** One command, branch by branch. */
  method ParseEntry(p: Platform, start: TrustTopology, cmd: Option<CtlCommand>) returns (topo: TrustTopology)
    ensures topo == WithEntry(p, start, Added(cmd))
  {
    topo := start;
    if cmd.None? || !cmd.value.AddEntry? || cmd.value.entry.None? { return; }
    match cmd.value.entry.value {
      case RcaEntry(cert) =>
        var ci := ListedCert(p, cert, "rca");
        if ci.Some? { topo := topo.(rcas := topo.rcas + [ci.value]); }
      case EaEntry(cert, aaAp, itsAp) =>
        var ci := ListedCert(p, cert, "ea");
        if ci.None? { return; }
        var info := EaInfo(ci.value, aaAp, "");
        if itsAp.Some? { info := info.(itsAccessPoint := itsAp.value); }
        topo := topo.(eas := topo.eas + [info]);
      case AaEntry(cert, ap) =>
        var ci := ListedCert(p, cert, "aa");
        if ci.Some? { topo := topo.(aas := topo.aas + [AaInfo(ci.value, ap)]); }
      case DcEntry(url, serves) =>
        var hids := CollectHid8(serves);
        topo := topo.(dcs := topo.dcs + [DcInfo(url, hids)]);
      case TlmEntry(cert) =>
        var ci := ListedCert(p, cert, "tlm");
        if ci.Some? { topo := topo.(tlm := ci); }
      case OtherEntry =>
    }
  }

  method ParseCtlEntries(p: Platform, ctl: CtlFormat, start: TrustTopology, isEctl: bool, now: int)
    returns (topo: TrustTopology)
    ensures topo == WithEntries(p, WithDates(start, ctl.nextUpdate, isEctl, now), ctl.ctlCommands)
  {
    topo := start;
    if isEctl {
      topo := topo.(ectlNextUpdate := ctl.nextUpdate);
    } else {
      topo := topo.(ctlNextUpdate := ctl.nextUpdate);
    }
    if ctl.nextUpdate > 0 && now > ctl.nextUpdate {
      if isEctl { topo := topo.(ectlExpired := true); } else { topo := topo.(ctlExpired := true); }
    }
    var dated := topo;
    var cmds := ctl.ctlCommands;
    for i := 0 to |cmds|
      invariant topo == WithEntries(p, dated, cmds[..i])
    {
      assert cmds[..i + 1][..i] == cmds[..i];
      topo := ParseEntry(p, topo, cmds[i]);
    }
    assert cmds[..|cmds|] == cmds;
  }

  /** What an entry contributes under each heading: nothing if it is of another kind, or if its
      certificate does not encode. */
  function AsRca(p: Platform): CtlEntry -> Option<CertInfo> {
    (e: CtlEntry) => if e.RcaEntry? then ListedCert(p, e.cert, "rca") else None
  }

  function AsEa(p: Platform): CtlEntry -> Option<EaInfo> {
    (e: CtlEntry) =>
      if !e.EaEntry? then None else
      var ci :- ListedCert(p, e.cert, "ea");
      Some(EaInfo(ci, e.aaAccessPoint, if e.itsAccessPoint.Some? then e.itsAccessPoint.value else ""))
  }

  function AsAa(p: Platform): CtlEntry -> Option<AaInfo> {
    (e: CtlEntry) =>
      if !e.AaEntry? then None else
      var ci :- ListedCert(p, e.cert, "aa");
      Some(AaInfo(ci, e.accessPoint))
  }

  function AsDc(): CtlEntry -> Option<DcInfo> {
    (e: CtlEntry) => if e.DcEntry? then Some(DcInfo(e.url, Hid8Entries(e.serves))) else None
  }

  function AsTlm(p: Platform): CtlEntry -> Option<CertInfo> {
    (e: CtlEntry) => if e.TlmEntry? then ListedCert(p, e.cert, "tlm") else None
  }

  /** What the commands list under one heading, in order. */
  function Listed<T>(heading: CtlEntry -> Option<T>, cmds: seq<Option<CtlCommand>>): seq<T> {
    if cmds == [] then [] else
    Listed(heading, cmds[..|cmds| - 1]) + One(heading(Added(cmds[|cmds| - 1])))
  }

  function LastOr<T>(s: seq<T>, default: Option<T>): Option<T> { if s == [] then default else Some(s[|s| - 1]) }

  function EaCerts(eas: seq<EaInfo>): (r: seq<CertInfo>)
    ensures |r| == |eas|
  {
    seq(|eas|, i requires 0 <= i < |eas| => eas[i].cert)
  }

  function AaCerts(aas: seq<AaInfo>): (r: seq<CertInfo>)
    ensures |r| == |aas|
  {
    seq(|aas|, i requires 0 <= i < |aas| => aas[i].cert)
  }

  lemma AuthorityEntrySorted(p: Platform, topo: TrustTopology, e: CtlEntry)
    ensures var t := WithEntry(p, topo, e);
            t.eas == topo.eas + One(AsEa(p)(e)) && t.aas == topo.aas + One(AsAa(p)(e))
  {
  }

  lemma RootEntrySorted(p: Platform, topo: TrustTopology, e: CtlEntry)
    ensures WithEntry(p, topo, e).rcas == topo.rcas + One(AsRca(p)(e))
  {
  }

  lemma TlmEntrySorted(p: Platform, topo: TrustTopology, e: CtlEntry)
    ensures WithEntry(p, topo, e).tlm == LastOr(One(AsTlm(p)(e)), topo.tlm)
  {
  }

  lemma CentreEntrySorted(p: Platform, topo: TrustTopology, e: CtlEntry)
    ensures WithEntry(p, topo, e).dcs == topo.dcs + One(AsDc()(e))
  {
  }

  lemma {:induction false} AuthoritiesSorted(p: Platform, topo: TrustTopology, cmds: seq<Option<CtlCommand>>)
    ensures var t := WithEntries(p, topo, cmds);
            t.eas == topo.eas + Listed(AsEa(p), cmds) && t.aas == topo.aas + Listed(AsAa(p), cmds)
  {
    if cmds != [] {
      AuthoritiesSorted(p, topo, cmds[..|cmds| - 1]);
      AuthorityEntrySorted(p, WithEntries(p, topo, cmds[..|cmds| - 1]), Added(cmds[|cmds| - 1]));
    }
  }

  lemma {:induction false} RootsSorted(p: Platform, topo: TrustTopology, cmds: seq<Option<CtlCommand>>)
    ensures WithEntries(p, topo, cmds).rcas == topo.rcas + Listed(AsRca(p), cmds)
  {
    if cmds != [] {
      RootsSorted(p, topo, cmds[..|cmds| - 1]);
      RootEntrySorted(p, WithEntries(p, topo, cmds[..|cmds| - 1]), Added(cmds[|cmds| - 1]));
    }
  }

  lemma LastOrAppend<T>(s: seq<T>, more: seq<T>, default: Option<T>)
    ensures LastOr(s + more, default) == LastOr(more, LastOr(s, default))
  {
    if more == [] { assert s + more == s; }
  }

  lemma {:induction false} TlmsSorted(p: Platform, topo: TrustTopology, cmds: seq<Option<CtlCommand>>)
    ensures WithEntries(p, topo, cmds).tlm == LastOr(Listed(AsTlm(p), cmds), topo.tlm)
  {
    if cmds != [] {
      var before, e := cmds[..|cmds| - 1], Added(cmds[|cmds| - 1]);
      TlmsSorted(p, topo, before);
      TlmEntrySorted(p, WithEntries(p, topo, before), e);
      LastOrAppend(Listed(AsTlm(p), before), One(AsTlm(p)(e)), topo.tlm);
    }
  }

  lemma {:induction false} CentresSorted(p: Platform, topo: TrustTopology, cmds: seq<Option<CtlCommand>>)
    ensures WithEntries(p, topo, cmds).dcs == topo.dcs + Listed(AsDc(), cmds)
  {
    if cmds != [] {
      CentresSorted(p, topo, cmds[..|cmds| - 1]);
      CentreEntrySorted(p, WithEntries(p, topo, cmds[..|cmds| - 1]), Added(cmds[|cmds| - 1]));
    }
  }

  /** A decoded list reports every kind of entry under its own heading, with its access points,
      complete and in order; of several TLM entries it keeps the last. */
  lemma EntriesSorted(p: Platform, topo: TrustTopology, cmds: seq<Option<CtlCommand>>)
    ensures var t := WithEntries(p, topo, cmds);
            && t.rcas == topo.rcas + Listed(AsRca(p), cmds)
            && t.eas == topo.eas + Listed(AsEa(p), cmds)
            && t.aas == topo.aas + Listed(AsAa(p), cmds)
            && t.dcs == topo.dcs + Listed(AsDc(), cmds)
            && t.tlm == LastOr(Listed(AsTlm(p), cmds), topo.tlm)
  {
    AuthoritiesSorted(p, topo, cmds);
    RootsSorted(p, topo, cmds);
    TlmsSorted(p, topo, cmds);
    CentresSorted(p, topo, cmds);
  }

  // --- Decoding ---

  function ListContent(d: EtsiTs102941Data, isEctl: bool): Option<CtlFormat> {
    match d.content
    case Some(TrustListTlm(ctl)) => if isEctl then ctl else None
    case Some(TrustListRca(ctl)) => if isEctl then None else ctl
    case _ => None
  }

  /** A list is decoded whether or not it verifies; the verdict is kept with it. */
  function DecodedCtl(p: Platform, coer: Bytes, key: Bytes, signerCert: Bytes, isEctl: bool, now: int)
    : Result<TrustTopology>
  {
    var m :- OkOr(Unwrapped(p, coer), Decode);
    var data :- OkOr(DecodeEtsi(p, m.payload), Decode);
    var ctl :- OkOr(ListContent(data, isEctl), Decode);
    var topo := WithEntries(p, WithDates(NO_TOPOLOGY, ctl.nextUpdate, isEctl, now), ctl.ctlCommands);
    var verified := key != [] && signerCert != [] && Verifies(p, m, key, signerCert);
    Ok(if isEctl then topo.(ectlVerified := verified) else topo.(ctlVerified := verified))
  }

  method DecodeCtl(p: Platform, coer: Bytes, key: Bytes, signerCert: Bytes, isEctl: bool, now: int)
    returns (r: Result<TrustTopology>)
    ensures r == DecodedCtl(p, coer, key, signerCert, isEctl, now)
  {
    var msg := Unwrap(p, coer);
    if msg.None? { return Err(Decode); }
    var data := DecodeEtsi(p, msg.value.payload);
    if data.None? { return Err(Decode); }
    var ctl := ListContent(data.value, isEctl);
    if ctl.None? { return Err(Decode); }
    var topo := ParseCtlEntries(p, ctl.value, NO_TOPOLOGY, isEctl, now);
    FlagsUntouched(p, WithDates(NO_TOPOLOGY, ctl.value.nextUpdate, isEctl, now), ctl.value.ctlCommands);
    if key != [] && signerCert != [] {
      var verified := Verify(p, msg.value, key, signerCert);
      if isEctl { topo := topo.(ectlVerified := verified); } else { topo := topo.(ctlVerified := verified); }
    }
    r := Ok(topo);
  }

  lemma {:induction false} FlagsUntouched(p: Platform, topo: TrustTopology, cmds: seq<Option<CtlCommand>>)
    ensures var t := WithEntries(p, topo, cmds);
            t.ectlVerified == topo.ectlVerified && t.ctlVerified == topo.ctlVerified
  {
    if cmds != [] { FlagsUntouched(p, topo, cmds[..|cmds| - 1]); }
  }

  /** The payload is this trust list, of the right kind, decoded strictly, or leniently if that fails. */
  ghost predicate IsList(p: Platform, payload: Bytes, isEctl: bool, ctl: CtlFormat) {
    var d := EtsiTs102941Data(Some(if isEctl then TrustListTlm(Some(ctl)) else TrustListRca(Some(ctl))));
    p.decEtsi(payload) == Some(d) || (p.decEtsi(payload).None? && p.decEtsiBasic(payload) == Some(d))
  }

  /** The dates: the next update of the list, and whether it has passed; those of the other kind are blank. */
  ghost predicate Dated(t: TrustTopology, isEctl: bool, nextUpdate: nat, now: int) {
    var expired := 0 < nextUpdate < now;
    if isEctl
    then t.ectlNextUpdate == nextUpdate && t.ectlExpired == expired && t.ctlNextUpdate == 0 && !t.ctlExpired
    else t.ctlNextUpdate == nextUpdate && t.ctlExpired == expired && t.ectlNextUpdate == 0 && !t.ectlExpired
  }

  /** The entries under their headings, in order, with the last TLM. */
  ghost predicate Lists(p: Platform, t: TrustTopology, cmds: seq<Option<CtlCommand>>) {
    && t.rcas == Listed(AsRca(p), cmds) && t.eas == Listed(AsEa(p), cmds) && t.aas == Listed(AsAa(p), cmds)
    && t.dcs == Listed(AsDc(), cmds) && t.tlm == LastOr(Listed(AsTlm(p), cmds), None)
  }

  lemma {:induction false} DatesUntouched(p: Platform, topo: TrustTopology, cmds: seq<Option<CtlCommand>>)
    ensures var t := WithEntries(p, topo, cmds);
            && t.ectlNextUpdate == topo.ectlNextUpdate && t.ctlNextUpdate == topo.ctlNextUpdate
            && t.ectlExpired == topo.ectlExpired && t.ctlExpired == topo.ctlExpired
  {
    if cmds != [] { DatesUntouched(p, topo, cmds[..|cmds| - 1]); }
  }

  /** A list is decoded exactly when it is a signed message around a list of the right kind, and then with the
      dates, the entries and no flag of the other kind. */
  lemma DecodedCtlIff(p: Platform, coer: Bytes, key: Bytes, signerCert: Bytes, isEctl: bool, now: int)
    ensures var r := DecodedCtl(p, coer, key, signerCert, isEctl, now);
            && (r.Ok? <==> exists m, ctl :: Unwrapped(p, coer) == Some(m) && IsList(p, m.payload, isEctl, ctl))
            && (r.Err? ==> r == Err(Decode))
            && forall m, ctl | Unwrapped(p, coer) == Some(m) && IsList(p, m.payload, isEctl, ctl) ::
                 && r.Ok? && Dated(r.value, isEctl, ctl.nextUpdate, now) && Lists(p, r.value, ctl.ctlCommands)
                 && !(if isEctl then r.value.ctlVerified else r.value.ectlVerified)
  {
    var r := DecodedCtl(p, coer, key, signerCert, isEctl, now);
    if r.Ok? {
      var m := Unwrapped(p, coer).value;
      var ctl := ListContent(DecodeEtsi(p, m.payload).value, isEctl).value;
      assert IsList(p, m.payload, isEctl, ctl);
    }
    forall m, ctl | Unwrapped(p, coer) == Some(m) && IsList(p, m.payload, isEctl, ctl)
      ensures r.Ok? && Dated(r.value, isEctl, ctl.nextUpdate, now) && Lists(p, r.value, ctl.ctlCommands)
      ensures !(if isEctl then r.value.ctlVerified else r.value.ectlVerified)
    {
      var dated := WithDates(NO_TOPOLOGY, ctl.nextUpdate, isEctl, now);
      var v := ListDecoded(p, coer, key, signerCert, isEctl, now, m, ctl);
      DatesUntouched(p, dated, ctl.ctlCommands);
      FlagsUntouched(p, dated, ctl.ctlCommands);
      EntriesSorted(p, dated, ctl.ctlCommands);
    }
  }

  lemma ListDecoded(p: Platform, coer: Bytes, key: Bytes, signerCert: Bytes, isEctl: bool, now: int, m: SignedMessage,
                    ctl: CtlFormat)
      returns (v: bool)
    requires Unwrapped(p, coer) == Some(m) && IsList(p, m.payload, isEctl, ctl)
    ensures var t := WithEntries(p, WithDates(NO_TOPOLOGY, ctl.nextUpdate, isEctl, now), ctl.ctlCommands);
            DecodedCtl(p, coer, key, signerCert, isEctl, now) ==
            Ok(if isEctl then t.(ectlVerified := v) else t.(ctlVerified := v))
  {
    v := key != [] && signerCert != [] && Verifies(p, m, key, signerCert);
  }

  /** The list came in a message that the signer's key verifies. */
  ghost predicate SignedUnder(p: Platform, coer: Bytes, key: Bytes, signerCert: Bytes) {
    key != [] && signerCert != [] && Unwrapped(p, coer).Some? && Verifies(p, Unwrapped(p, coer).value, key, signerCert)
  }

  /** In terms of the primitives. */
  lemma SignedUnderIff(p: Platform, coer: Bytes, key: Bytes, signerCert: Bytes)
    ensures SignedUnder(p, coer, key, signerCert) <==>
            && signerCert != []
            && exists m ::
                 && Unwrapped(p, coer) == Some(m) && m.tbsCoer != []
                 && SignatureHolds(p, m.sigCurve, key, Is384(m.sigCurve), m.tbsCoer, signerCert, m.sigR, m.sigS)
                 && (m.hasSignerDigest ==> m.signerHid8 == ComputeHid8(p, signerCert))
  {
    if Unwrapped(p, coer).Some? {
      var m := Unwrapped(p, coer).value;
      VerifiesIff(p, m, key, signerCert);
      if SignatureHolds(p, m.sigCurve, key, Is384(m.sigCurve), m.tbsCoer, signerCert, m.sigR, m.sigS) {
        assert key != [];
      }
    }
  }

  lemma VerdictMeansSigned(p: Platform, coer: Bytes, key: Bytes, signerCert: Bytes, isEctl: bool, now: int)
    requires DecodedCtl(p, coer, key, signerCert, isEctl, now).Ok?
    ensures var t := DecodedCtl(p, coer, key, signerCert, isEctl, now).value;
            (if isEctl then t.ectlVerified else t.ctlVerified) <==> SignedUnder(p, coer, key, signerCert)
  {
  }

  ghost predicate AllWellParsed(p: Platform, topo: TrustTopology) {
    && (topo.tlm.Some? ==> WellParsed(p, topo.tlm.value))
    && (forall i :: 0 <= i < |topo.rcas| ==> WellParsed(p, topo.rcas[i]))
    && (forall i :: 0 <= i < |topo.eas| ==> WellParsed(p, topo.eas[i].cert))
    && (forall i :: 0 <= i < |topo.aas| ==> WellParsed(p, topo.aas[i].cert))
  }

  lemma ListedCertWellParsed(p: Platform, cert: Option<CertificateBase>, name: string)
    requires p.CodecLaws()
    ensures ListedCert(p, cert, name).Some? ==> WellParsed(p, ListedCert(p, cert, name).value)
  {
    if ListedCert(p, cert, name).Some? { ParsedIdentity(p, cert.value, p.encCert(cert.value)); }
  }

  lemma AppendedWellParsed(p: Platform, topo: TrustTopology, ci: CertInfo)
    requires AllWellParsed(p, topo) && WellParsed(p, ci)
    ensures AllWellParsed(p, topo.(rcas := topo.rcas + [ci])) && AllWellParsed(p, topo.(tlm := Some(ci)))
    ensures forall a, i :: AllWellParsed(p, topo.(eas := topo.eas + [EaInfo(ci, a, i)]))
    ensures forall a :: AllWellParsed(p, topo.(aas := topo.aas + [AaInfo(ci, a)]))
  {
  }

  lemma EntryWellParsed(p: Platform, topo: TrustTopology, e: CtlEntry)
    requires p.CodecLaws() && AllWellParsed(p, topo)
    ensures AllWellParsed(p, WithEntry(p, topo, e))
  {
    if e.RcaEntry? || e.EaEntry? || e.AaEntry? || e.TlmEntry? {
      var name := if e.RcaEntry? then "rca" else if e.EaEntry? then "ea" else if e.AaEntry? then "aa" else "tlm";
      ListedCertWellParsed(p, e.cert, name);
      var ci := ListedCert(p, e.cert, name);
      if ci.Some? { AppendedWellParsed(p, topo, ci.value); }
    }
  }

  lemma {:induction false} EntriesWellParsed(p: Platform, topo: TrustTopology, cmds: seq<Option<CtlCommand>>)
    requires p.CodecLaws() && AllWellParsed(p, topo)
    ensures AllWellParsed(p, WithEntries(p, topo, cmds))
  {
    if cmds != [] {
      EntriesWellParsed(p, topo, cmds[..|cmds| - 1]);
      EntryWellParsed(p, WithEntries(p, topo, cmds[..|cmds| - 1]), Added(cmds[|cmds| - 1]));
    }
  }

  /** Every certificate a trust list delivers is filed under its own identity. */
  lemma DecodedWellParsed(p: Platform, coer: Bytes, key: Bytes, signerCert: Bytes, isEctl: bool, now: int)
    requires p.CodecLaws() && DecodedCtl(p, coer, key, signerCert, isEctl, now).Ok?
    ensures AllWellParsed(p, DecodedCtl(p, coer, key, signerCert, isEctl, now).value)
  {
    var ctl := ListContent(DecodeEtsi(p, Unwrapped(p, coer).value.payload).value, isEctl).value;
    EntriesWellParsed(p, WithDates(NO_TOPOLOGY, ctl.nextUpdate, isEctl, now), ctl.ctlCommands);
  }

  // --- Distribution centres ---

  function BaseUrl(dc: DcInfo): string {
    if dc.url != "" && dc.url[|dc.url| - 1] == '/' then dc.url[..|dc.url| - 1] else dc.url
  }

  /** Exactly one slash at the end of the address is left out, if there is one. */
  lemma BaseUrlIff(dc: DcInfo, base: string)
    ensures BaseUrl(dc) == base <==>
            dc.url == base + "/" || (dc.url == base && !exists rest :: dc.url == rest + "/")
  {
    if dc.url != "" && dc.url[|dc.url| - 1] == '/' {
      assert dc.url == dc.url[..|dc.url| - 1] + "/";
    }
    if dc.url == base + "/" { assert dc.url[|dc.url| - 1] == '/' && dc.url[..|dc.url| - 1] == base; }
  }

  /** Whether some centre in the list serves the given root CA. */
  predicate Served(dcs: seq<DcInfo>, h: Hid8) { exists i :: 0 <= i < |dcs| && h in dcs[i].serves }

  /** The first centre that serves h, or the fallback. */
  function DcUrl(dcs: seq<DcInfo>, h: Hid8, fallback: string): string {
    if dcs == [] then fallback
    else if h in dcs[0].serves then BaseUrl(dcs[0])
    else DcUrl(dcs[1..], h, fallback)
  }

  /** The lookup is the base address of the first centre that serves h; the fallback is used
      exactly when none does. */
  lemma {:induction false} DcUrlIsFirst(dcs: seq<DcInfo>, h: Hid8, fallback: string)
    ensures !Served(dcs, h) ==> DcUrl(dcs, h, fallback) == fallback
    ensures Served(dcs, h) ==>
              exists i :: 0 <= i < |dcs| && h in dcs[i].serves && DcUrl(dcs, h, fallback) == BaseUrl(dcs[i])
                          && forall j :: 0 <= j < i ==> h !in dcs[j].serves
  {
    if dcs != [] && h !in dcs[0].serves {
      var rest := dcs[1..];
      DcUrlIsFirst(rest, h, fallback);
      if Served(dcs, h) {
        var k :| 0 <= k < |dcs| && h in dcs[k].serves;
        assert rest[k - 1] == dcs[k];
        var i :| 0 <= i < |rest| && h in rest[i].serves && DcUrl(rest, h, fallback) == BaseUrl(rest[i])
                 && forall j :: 0 <= j < i ==> h !in rest[j].serves;
        assert h in dcs[i + 1].serves && DcUrl(dcs, h, fallback) == BaseUrl(dcs[i + 1]);
        forall j | 0 <= j < i + 1 ensures h !in dcs[j].serves {
          if j > 0 { assert dcs[j] == rest[j - 1]; }
        }
      }
    }
  }

  method FindDcUrl(dcs: seq<DcInfo>, h: Hid8, fallback: string) returns (url: string)
    ensures url == DcUrl(dcs, h, fallback)
  {
    for i := 0 to |dcs|
      invariant DcUrl(dcs, h, fallback) == DcUrl(dcs[i..], h, fallback)
    {
      for j := 0 to |dcs[i].serves|
        invariant h !in dcs[i].serves[..j]
      {
        if dcs[i].serves[j] == h { return BaseUrl(dcs[i]); }
      }
      assert dcs[i].serves[..|dcs[i].serves|] == dcs[i].serves;
      assert dcs[i..][1..] == dcs[i + 1..];
    }
    return fallback;
  }

  /** Appending to the list only matters to those the list does not serve yet. */
  lemma {:induction false} LookupAfterAppend(dcs: seq<DcInfo>, more: seq<DcInfo>, h: Hid8, fallback: string)
    ensures DcUrl(dcs + more, h, fallback) == DcUrl(dcs, h, DcUrl(more, h, fallback))
    ensures Served(dcs, h) ==> DcUrl(dcs + more, h, fallback) == DcUrl(dcs, h, fallback)
    ensures !Served(dcs, h) ==> DcUrl(dcs + more, h, fallback) == DcUrl(more, h, fallback)
  {
    if dcs == [] {
      assert dcs + more == more;
    } else {
      assert (dcs + more)[1..] == dcs[1..] + more;
      LookupAfterAppend(dcs[1..], more, h, fallback);
      if Served(dcs, h) && h !in dcs[0].serves {
        var i :| 0 <= i < |dcs| && h in dcs[i].serves;
        assert dcs[1..][i - 1] == dcs[i];
      }
      if h in dcs[0].serves { assert Served(dcs, h); }
      if Served(dcs[1..], h) {
        var i :| 0 <= i < |dcs[1..]| && h in dcs[1..][i].serves;
        assert dcs[i + 1] == dcs[1..][i];
      }
    }
  }
}
