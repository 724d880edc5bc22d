/** Every run of the client: any sequence of calls, each against its own arbitrary network, clock,
    random values and key store. */
module ClientRuns {
  import opened Basics
  import opened PlatformModel
  import opened CertParse
  import opened EncryptedMessages
  import opened Requests
  import opened Revocation
  import opened TrustStore
  import opened TrustLists
  import opened ClientOps
  import opened Discovery

  datatype Call =
    | CallFetchAnchor(w: World)
    | CallFetchByName(w: World, name: string)
    | CallFetchByHid8(w: World, h: Hid8)
    | CallEnrol(w: World, keys: map<string, KeyPair>, handle: string, ecRec: EcRecord, ecRnd: EcEntropy)
    | CallAuthorize(w: World, keys: map<string, KeyPair>, ecHandle: string, ec: CertInfo, atHandle: string,
                    atRec: AtRecord, hmacKey: Bytes, atRnd: AtEntropy)
    | CallDiscover(w: World)
    | CallFetchCrl(w: World, h: Hid8)

  /** The certificate a call delivers on its own, if it is that kind of call. */
  function Delivered(p: Platform, cfg: Config, st: ClientState, call: Call): Result<CertInfo> {
    match call
    case CallFetchAnchor(w) => TrustAnchor(p, cfg, w)
    case CallFetchByName(w, name) => CertByName(p, cfg, w, name)
    case CallFetchByHid8(w, h) => CertByHid8(p, cfg, w, h)
    case CallEnrol(w, keys, handle, rec, rnd) => Enrolled(p, st, keys, handle, rec, rnd, w)
    case CallAuthorize(w, keys, ecHandle, ec, atHandle, rec, hmacKey, rnd) =>
      Authorized(p, st, keys, ecHandle, ec, atHandle, rec, hmacKey, rnd, w)
    case _ => Err(InvalidArgument)
  }

  function Step(p: Platform, cfg: Config, st: ClientState, call: Call): ClientState {
    match call
    case CallDiscover(w) => Discovered(p, cfg, st, w).0
    case CallFetchCrl(w, h) => AfterCrl(st, FetchedCrl(p, cfg, st, h, w), w)
    case _ => Stored(st, Delivered(p, cfg, st, call))
  }

  function Run(p: Platform, cfg: Config, st: ClientState, calls: seq<Call>): ClientState {
    if calls == [] then st else Step(p, cfg, Run(p, cfg, st, calls[..|calls| - 1]), calls[|calls| - 1])
  }

  // --- Identity: everything is filed where it belongs ---

  /** Each certificate is stored under its own HashedId8, which is that of its bytes if it has any. */
  ghost predicate Filed(p: Platform, certs: Store) {
    forall k :: k in certs ==> certs[k].hashedId8 == k && WellParsed(p, certs[k])
  }

  lemma FromCoerWellParsed(p: Platform, coer: Bytes, name: string)
    requires FromCoer(p, coer).Some?
    ensures WellParsed(p, FromCoer(p, coer).value.(name := name))
  {
    ParsedIdentity(p, p.decCert(coer).value, coer);
  }

  lemma {:induction false} AddAllFiled(p: Platform, certs: Store, cis: seq<CertInfo>)
    requires Filed(p, certs) && forall i :: 0 <= i < |cis| ==> WellParsed(p, cis[i])
    ensures Filed(p, AddAll(certs, cis))
  {
    if cis != [] { AddAllFiled(p, certs, cis[..|cis| - 1]); }
  }

  lemma {:induction false} LoadedFiled(p: Platform, certs: Store, entries: seq<DirEntry>)
    requires Filed(p, certs)
    ensures Filed(p, Loaded(p, certs, entries))
  {
    if entries != [] {
      LoadedFiled(p, certs, entries[..|entries| - 1]);
      var last := entries[|entries| - 1];
      if CertIn(p, last).Some? { FromCoerWellParsed(p, last.contents.value, last.stem); }
    }
  }

  ghost predicate OutcomeWellParsed(p: Platform, o: CtlOutcome) { o.Verified? ==> AllWellParsed(p, o.topo) }

  lemma JudgedWellParsed(p: Platform, w: World, rca: CertInfo, answer: Result<Bytes>)
    requires p.CodecLaws()
    ensures OutcomeWellParsed(p, Judged(p, w, rca, answer))
  {
    if answer.Ok? && DecodedCtl(p, answer.value, rca.publicKey, rca.certBytes, false, Tai(w)).Ok? {
      DecodedWellParsed(p, answer.value, rca.publicKey, rca.certBytes, false, Tai(w));
    }
  }

  lemma {:induction false} AuthoritiesFiled(p: Platform, certs: Store, os: seq<CtlOutcome>)
    requires Filed(p, certs) && forall i :: 0 <= i < |os| ==> OutcomeWellParsed(p, os[i])
    ensures Filed(p, WithAuthorities(certs, os))
  {
    if os != [] {
      AuthoritiesFiled(p, certs, os[..|os| - 1]);
      assert OutcomeWellParsed(p, os[|os| - 1]);
      AddAllFiled(p, WithAuthorities(certs, os[..|os| - 1]), Contribution(os[|os| - 1]));
    }
  }

  lemma FetchedWellParsed(p: Platform, answer: Result<HttpResponse>, name: string)
    requires FetchedCert(p, answer, name).Ok?
    ensures WellParsed(p, FetchedCert(p, answer, name).value)
  {
    FromCoerWellParsed(p, answer.value.body, name);
  }

  lemma EctlWellParsed(p: Platform, cfg: Config, w: World, tlm: CertInfo)
    requires p.CodecLaws() && EctlStep(p, cfg, w, tlm).Ok?
    ensures forall i :: 0 <= i < |EctlStep(p, cfg, w, tlm).value.rcas| ==>
              WellParsed(p, EctlStep(p, cfg, w, tlm).value.rcas[i])
  {
    DecodedWellParsed(p, EctlAnswer(cfg, w, tlm).value, tlm.publicKey, tlm.certBytes, true, Tai(w));
  }

  lemma ConcludedFiled(p: Platform, cfg: Config, st: ClientState, w: World, ectl: TrustTopology)
    requires p.CodecLaws() && Filed(p, st.certs)
    requires forall i :: 0 <= i < |ectl.rcas| ==> WellParsed(p, ectl.rcas[i])
    ensures Filed(p, Concluded(st, ectl, Outcomes(p, cfg, w, ectl, |ectl.rcas|)).0.certs)
  {
    var os := Outcomes(p, cfg, w, ectl, |ectl.rcas|);
    forall i | 0 <= i < |os| ensures OutcomeWellParsed(p, os[i]) {
      OutcomeAt(p, cfg, w, ectl, i);
      JudgedWellParsed(p, w, ectl.rcas[i], NextAnswer(cfg, w, ectl, Outcomes(p, cfg, w, ectl, i)));
    }
    AddAllFiled(p, st.certs, ectl.rcas);
    AuthoritiesFiled(p, AddAll(st.certs, ectl.rcas), os);
  }

  lemma DiscoveryFiled(p: Platform, cfg: Config, st: ClientState, w: World)
    requires p.CodecLaws() && Filed(p, st.certs)
    ensures Filed(p, Discovered(p, cfg, st, w).0.certs)
  {
    var tlm := TlmStep(p, cfg, w);
    if tlm.Ok? {
      FetchedWellParsed(p, w.net(0, TlmUrl(cfg), []), "tlm");
      assert Filed(p, WithCert(st, tlm.value).certs);
      var ectl := EctlStep(p, cfg, w, tlm.value);
      if ectl.Ok? {
        EctlWellParsed(p, cfg, w, tlm.value);
        ConcludedFiled(p, cfg, WithCert(st, tlm.value), w, ectl.value);
      }
    }
  }

  /** Response certificates are re-encoded before they are parsed; when that fails they carry no
      bytes. */
  lemma ResponseWellParsed(p: Platform, tag: bv8, response: Bytes, priv: Bytes, requestKey: Bytes, request: Bytes,
                           signer: CertInfo, name: string)
    requires p.CodecLaws()
    requires var r := DecodeResponse(p, tag, response, priv, requestKey, request, signer);
             r.Ok? && r.value.certificate.Some?
    ensures var r := DecodeResponse(p, tag, response, priv, requestKey, request, signer);
            WellParsed(p, r.value.certificate.value.(name := name))
  {
    var inner := DecryptAndUnwrap(p, response, priv, requestKey, tag, signer).value;
    var cert := p.decResponse(inner).value.certificate.value;
    ParsedIdentity(p, cert, p.encCert(cert));
  }

  lemma DeliveredWellParsed(p: Platform, cfg: Config, st: ClientState, call: Call)
    requires p.CodecLaws() && Delivered(p, cfg, st, call).Ok?
    ensures WellParsed(p, Delivered(p, cfg, st, call).value)
  {
    match call
    case CallFetchAnchor(w) => FetchedWellParsed(p, w.net(0, cfg.tlmUrl + "/trustanchor", []), "trustanchor");
    case CallFetchByName(w, name) => FetchedWellParsed(p, w.net(0, cfg.tlmUrl + "/cert/" + name, []), name);
    case CallFetchByHid8(w, h) =>
      FetchedWellParsed(p, w.net(0, cfg.tlmUrl + "/lookup/" + HexLower(h), []), "lookup_" + HexLower(h));
    case CallEnrol(w, keys, handle, rec, rnd) => EnrolledWellParsed(p, st, keys, handle, rec, rnd, w);
    case CallAuthorize(w, keys, ecHandle, ec, atHandle, rec, hmacKey, rnd) =>
      AuthorizedWellParsed(p, st, keys, ecHandle, ec, atHandle, rec, hmacKey, rnd, w);
  }

  lemma EnrolledWellParsed(p: Platform, st: ClientState, keys: map<string, KeyPair>, handle: string, rec: EcRecord,
                           rnd: EcEntropy, w: World)
    requires p.CodecLaws() && Enrolled(p, st, keys, handle, rec, rnd, w).Ok?
    ensures WellParsed(p, Enrolled(p, st, keys, handle, rec, rnd, w).value)
  {
    var kp, ea := keys[handle], st.certs[rec.eaHid8];
    var req := EcRequest(p, AssembleEc(rec, w.now), ea, kp.privateKey, rnd).value;
    var body := Body200(w.net(0, st.eaUrl, req.bytes)).value;
    ResponseWellParsed(p, EC_RESPONSE_TAG, body, kp.privateKey, req.aesKey, req.bytes, ea, "ec");
  }

  lemma AuthorizedWellParsed(p: Platform, st: ClientState, keys: map<string, KeyPair>, ecHandle: string,
                             ec: CertInfo, atHandle: string, rec: AtRecord, hmacKey: Bytes, rnd: AtEntropy,
                             w: World)
    requires p.CodecLaws() && Authorized(p, st, keys, ecHandle, ec, atHandle, rec, hmacKey, rnd, w).Ok?
    ensures WellParsed(p, Authorized(p, st, keys, ecHandle, ec, atHandle, rec, hmacKey, rnd, w).value)
  {
    var kp, aa, ea, atKey := keys[ecHandle], st.certs[rec.aaHid8], st.certs[rec.eaHid8], keys[atHandle];
    var req := AtRequest(p, AtDescriptionFor(rec, w, hmacKey, atKey), aa, ea, ec, kp.privateKey, atKey.privateKey,
                         rnd).value;
    var body := Body200(w.net(0, st.aaUrl, req.bytes)).value;
    ResponseWellParsed(p, AT_RESPONSE_TAG, body, atKey.privateKey, req.aesKey, req.bytes, aa, "at");
  }

  lemma StoredFiled(p: Platform, st: ClientState, r: Result<CertInfo>)
    requires Filed(p, st.certs) && (r.Ok? ==> WellParsed(p, r.value))
    ensures Filed(p, Stored(st, r).certs)
  {
  }

  lemma StepFiled(p: Platform, cfg: Config, st: ClientState, call: Call)
    requires p.CodecLaws() && Filed(p, st.certs)
    ensures Filed(p, Step(p, cfg, st, call).certs)
  {
    if call.CallDiscover? {
      DiscoveryFiled(p, cfg, st, call.w);
    } else if !call.CallFetchCrl? {
      var r := Delivered(p, cfg, st, call);
      if r.Ok? { DeliveredWellParsed(p, cfg, st, call); }
      StoredFiled(p, st, r);
    }
  }

  /** Over every run, from whatever directory the store was loaded, each entry is filed under its
      own HashedId8, and under the HashedId8 of its bytes if it kept any. */
  lemma {:induction false} RunFiled(p: Platform, cfg: Config, st: ClientState, calls: seq<Call>)
    requires p.CodecLaws() && Filed(p, st.certs)
    ensures Filed(p, Run(p, cfg, st, calls).certs)
  {
    if calls != [] {
      RunFiled(p, cfg, st, calls[..|calls| - 1]);
      StepFiled(p, cfg, Run(p, cfg, st, calls[..|calls| - 1]), calls[|calls| - 1]);
    }
  }

  /** Hence, after every run, the times at which a stored certificate is accepted form one
      half-open interval, empty or not. */
  lemma RunAcceptedTimes(p: Platform, cfg: Config, st: ClientState, calls: seq<Call>, k: Hid8, t: int)
    requires p.CodecLaws() && Filed(p, st.certs)
    requires k in Run(p, cfg, st, calls).certs
    ensures var end := Run(p, cfg, st, calls);
            var c := end.certs[k];
            ValidChain(p, end.certs, end.rev, c, t) <==>
            !c.isSelfSigned && Sound(p, end.certs, end.rev, c, 2) &&
            LatestStart(Chain(end.certs, c, 2)) <= t < EarliestEnd(Chain(end.certs, c, 2))
  {
    RunFiled(p, cfg, st, calls);
    var end := Run(p, cfg, st, calls);
    AcceptedTimes(p, end.certs, end.rev, end.certs[k], t);
  }

  // --- Revocation: who can revoke what ---

  /** A successful CRL fetch for h replaces the set of issuer h and touches nothing else. */
  lemma CrlReplacesOwnSet(p: Platform, cfg: Config, st: ClientState, h: Hid8, w: World)
    requires Filed(p, st.certs) && FetchedCrl(p, cfg, st, h, w).Ok?
    ensures var crl := FetchedCrl(p, cfg, st, h, w).value;
            && crl.issuerHid8 == h
            && AfterCrl(st, Ok(crl), w) == st.(rev := st.rev[h := set x | x in crl.revoked])
  {
    var rca := st.certs[h];
    var body := Body200(w.net(0, CrlUrl(cfg, st, h) + "/getcrl/" + HexUpper(h), [])).value;
    CrlSpeaksForSigner(p, body, rca.publicKey, rca.certBytes);
  }

  /** The CRL of the last successful fetch for issuer i. */
  function LastFetch(p: Platform, cfg: Config, st: ClientState, calls: seq<Call>, i: Hid8): Option<CrlContents> {
    if calls == [] then None else
    var n := |calls| - 1;
    var last := calls[n];
    var before := Run(p, cfg, st, calls[..n]);
    var r := if last.CallFetchCrl? && last.h == i then FetchedCrl(p, cfg, before, i, last.w) else Err(NotFound);
    if r.Ok? then Some(r.value) else LastFetch(p, cfg, st, calls[..n], i)
  }

  lemma StepKeepsRevocations(p: Platform, cfg: Config, st: ClientState, call: Call)
    requires !call.CallFetchCrl?
    ensures Step(p, cfg, st, call).rev == st.rev
  {
    if call.CallDiscover? { RoutingAfterDiscovery(p, cfg, st, call.w); }
  }

  /** One call: only a successful CRL fetch for i decides anew what is revoked under i. */
  lemma StepRevokes(p: Platform, cfg: Config, st: ClientState, call: Call, i: Hid8, c: Hid8)
    requires Filed(p, st.certs)
    ensures RevokedIn(Step(p, cfg, st, call).rev, i, c) <==>
            if call.CallFetchCrl? && call.h == i && FetchedCrl(p, cfg, st, i, call.w).Ok?
            then c in FetchedCrl(p, cfg, st, i, call.w).value.revoked else RevokedIn(st.rev, i, c)
  {
    if call.CallFetchCrl? {
      if FetchedCrl(p, cfg, st, call.h, call.w).Ok? { CrlReplacesOwnSet(p, cfg, st, call.h, call.w); }
    } else {
      StepKeepsRevocations(p, cfg, st, call);
    }
  }

  /** Over every run, a certificate is revoked under issuer i exactly when the last CRL that was
      successfully fetched for i lists it. */
  lemma {:induction false} RevokedByLastFetch(p: Platform, cfg: Config, st: ClientState, calls: seq<Call>, i: Hid8,
                                              c: Hid8)
    requires p.CodecLaws() && Filed(p, st.certs) && st.rev == map[]
    ensures RevokedIn(Run(p, cfg, st, calls).rev, i, c) <==>
            var last := LastFetch(p, cfg, st, calls, i); last.Some? && c in last.value.revoked
  {
    if calls != [] {
      var n := |calls| - 1;
      RevokedByLastFetch(p, cfg, st, calls[..n], i, c);
      RunFiled(p, cfg, st, calls[..n]);
      StepRevokes(p, cfg, Run(p, cfg, st, calls[..n]), calls[n], i, c);
    }
  }

  /** Once a CRL of h that lists an authority is fetched, that authority's certificate is rejected at
      all times, and so is every certificate the authority issued. */
  lemma RevocationTakesEffect(p: Platform, cfg: Config, st: ClientState, h: Hid8, w: World, ca: CertInfo,
                              leaf: CertInfo, t: int)
    requires Filed(p, st.certs) && FetchedCrl(p, cfg, st, h, w).Ok?
    requires ca.hashedId8 in FetchedCrl(p, cfg, st, h, w).value.revoked && !ca.isSelfSigned && ca.issuerHashId8 == h
    requires leaf.issuerHashId8 in st.certs && st.certs[leaf.issuerHashId8] == ca
    ensures var st' := Step(p, cfg, st, CallFetchCrl(w, h));
            !ValidChain(p, st'.certs, st'.rev, ca, t) && !ValidChain(p, st'.certs, st'.rev, leaf, t)
  {
    CrlReplacesOwnSet(p, cfg, st, h, w);
    var st' := Step(p, cfg, st, CallFetchCrl(w, h));
    NotReached(p, st'.certs, st'.rev, ca, t, 2);
    NotReached(p, st'.certs, st'.rev, ca, t, 1);
  }

  lemma NotReached(p: Platform, certs: Store, rev: Revocations, ca: CertInfo, t: int, hops: nat)
    requires Filed(p, certs) && !ca.isSelfSigned && RevokedIn(rev, ca.issuerHashId8, ca.hashedId8)
    ensures !Reaches(p, certs, rev, ca, t, hops)
  {
  }

  /** A CRL that lists its own root CA ends all trust in that root: neither what it issued nor what
      its authorities issued is accepted. */
  lemma RootRevocationTakesEffect(p: Platform, cfg: Config, st: ClientState, h: Hid8, w: World, ca: CertInfo,
                                  leaf: CertInfo, t: int)
    requires Filed(p, st.certs) && FetchedCrl(p, cfg, st, h, w).Ok?
    requires h in FetchedCrl(p, cfg, st, h, w).value.revoked && !ca.isSelfSigned && ca.issuerHashId8 == h
    requires st.certs[h].isSelfSigned
    requires leaf.issuerHashId8 in st.certs && st.certs[leaf.issuerHashId8] == ca
    ensures var st' := Step(p, cfg, st, CallFetchCrl(w, h));
            !ValidChain(p, st'.certs, st'.rev, ca, t) && !ValidChain(p, st'.certs, st'.rev, leaf, t)
  {
    CrlReplacesOwnSet(p, cfg, st, h, w);
    var st' := Step(p, cfg, st, CallFetchCrl(w, h));
    assert !Reaches(p, st'.certs, st'.rev, st.certs[h], t, 1);
    assert !Reaches(p, st'.certs, st'.rev, st.certs[h], t, 0);
    assert !Reaches(p, st'.certs, st'.rev, ca, t, 1);
  }

  lemma {:induction false} StaysRevoked(p: Platform, cfg: Config, st: ClientState, calls: seq<Call>, i: Hid8, c: Hid8)
    requires p.CodecLaws() && Filed(p, st.certs)
    requires RevokedIn(st.rev, i, c) && LastFetch(p, cfg, st, calls, i).None?
    ensures RevokedIn(Run(p, cfg, st, calls).rev, i, c)
  {
    if calls != [] {
      var n := |calls| - 1;
      StaysRevoked(p, cfg, st, calls[..n], i, c);
      RunFiled(p, cfg, st, calls[..n]);
      StepRevokes(p, cfg, Run(p, cfg, st, calls[..n]), calls[n], i, c);
    }
  }

  /** A revoked certificate stays rejected at all times, over every run in which no CRL of its issuer
      is successfully fetched, and so does whatever it issued. */
  lemma RevocationLasts(p: Platform, cfg: Config, st: ClientState, calls: seq<Call>, ca: CertInfo, leaf: CertInfo,
                        t: int)
    requires p.CodecLaws() && Filed(p, st.certs)
    requires !ca.isSelfSigned && RevokedIn(st.rev, ca.issuerHashId8, ca.hashedId8)
    requires LastFetch(p, cfg, st, calls, ca.issuerHashId8).None?
    ensures var end := Run(p, cfg, st, calls);
            && !ValidChain(p, end.certs, end.rev, ca, t)
            && (leaf.issuerHashId8 in end.certs && end.certs[leaf.issuerHashId8] == ca ==>
                !ValidChain(p, end.certs, end.rev, leaf, t))
  {
    var end := Run(p, cfg, st, calls);
    RunFiled(p, cfg, st, calls);
    StaysRevoked(p, cfg, st, calls, ca.issuerHashId8, ca.hashedId8);
    NotReached(p, end.certs, end.rev, ca, t, 2);
    NotReached(p, end.certs, end.rev, ca, t, 1);
  }

  // --- Issued credentials ---

  lemma AdmittedValidates(p: Platform, st: ClientState, w: World, resp: Response, name: string)
    requires Admitted(p, st, w, resp, name).Ok?
    ensures var ci := Admitted(p, st, w, resp, name).value;
            Trusted(p, st.certs, st.rev, ci, Tai(w)) && IssuerChainPresent(st.certs, ci)
  {
    ValidChainIffTrusted(p, st.certs, st.rev, Admitted(p, st, w, resp, name).value, Tai(w));
  }

  lemma EnrolledValidates(p: Platform, st: ClientState, keys: map<string, KeyPair>, handle: string, rec: EcRecord,
                          rnd: EcEntropy, w: World)
    requires Enrolled(p, st, keys, handle, rec, rnd, w).Ok?
    ensures var ci := Enrolled(p, st, keys, handle, rec, rnd, w).value;
            Trusted(p, st.certs, st.rev, ci, Tai(w)) && IssuerChainPresent(st.certs, ci)
  {
    var kp, ea := keys[handle], st.certs[rec.eaHid8];
    var req := EcRequest(p, AssembleEc(rec, w.now), ea, kp.privateKey, rnd).value;
    var body := Body200(w.net(0, st.eaUrl, req.bytes)).value;
    var resp := DecodeResponse(p, EC_RESPONSE_TAG, body, kp.privateKey, req.aesKey, req.bytes, ea).value;
    AdmittedValidates(p, st, w, resp, "ec");
  }

  lemma AuthorizedValidates(p: Platform, st: ClientState, keys: map<string, KeyPair>, ecHandle: string,
                            ec: CertInfo, atHandle: string, rec: AtRecord, hmacKey: Bytes, rnd: AtEntropy, w: World)
    requires Authorized(p, st, keys, ecHandle, ec, atHandle, rec, hmacKey, rnd, w).Ok?
    ensures var ci := Authorized(p, st, keys, ecHandle, ec, atHandle, rec, hmacKey, rnd, w).value;
            Trusted(p, st.certs, st.rev, ci, Tai(w)) && IssuerChainPresent(st.certs, ci)
  {
    var kp, aa, ea, atKey := keys[ecHandle], st.certs[rec.aaHid8], st.certs[rec.eaHid8], keys[atHandle];
    var req := AtRequest(p, AtDescriptionFor(rec, w, hmacKey, atKey), aa, ea, ec, kp.privateKey, atKey.privateKey,
                         rnd).value;
    var body := Body200(w.net(0, st.aaUrl, req.bytes)).value;
    var resp := DecodeResponse(p, AT_RESPONSE_TAG, body, atKey.privateKey, req.aesKey, req.bytes, aa).value;
    AdmittedValidates(p, st, w, resp, "at");
  }

  /** An enrolment or authorization changes the store only on success, and then by one certificate
      whose chain validated against the store and the revocations as they were. */
  lemma IssuedCredentialsValidate(p: Platform, cfg: Config, st: ClientState, call: Call)
    requires call.CallEnrol? || call.CallAuthorize?
    ensures var r := Delivered(p, cfg, st, call);
            && (r.Err? ==> Step(p, cfg, st, call) == st)
            && (r.Ok? ==>
                && Trusted(p, st.certs, st.rev, r.value, Tai(call.w))
                && IssuerChainPresent(st.certs, r.value)
                && Step(p, cfg, st, call) == st.(certs := st.certs[r.value.hashedId8 := r.value]))
  {
    var r := Delivered(p, cfg, st, call);
    if r.Ok? {
      match call
      case CallEnrol(w, keys, handle, rec, rnd) => EnrolledValidates(p, st, keys, handle, rec, rnd, w);
      case CallAuthorize(w, keys, ecHandle, ec, atHandle, rec, hmacKey, rnd) =>
        AuthorizedValidates(p, st, keys, ecHandle, ec, atHandle, rec, hmacKey, rnd, w);
    }
  }

  // --- Provenance over runs ---

  /** This call put ci under k into the store it found as st. */
  ghost predicate Introduces(p: Platform, cfg: Config, st: ClientState, call: Call, k: Hid8, ci: CertInfo) {
    match call
    case CallDiscover(w) => Provenance(p, cfg, st, w, k, ci) && !(k in st.certs && st.certs[k] == ci)
    case CallFetchCrl(_, _) => false
    case _ =>
      && Delivered(p, cfg, st, call) == Ok(ci) && ci.hashedId8 == k
      && (call.CallEnrol? || call.CallAuthorize? ==> Trusted(p, st.certs, st.rev, ci, Tai(call.w)))
  }

  lemma StepProvenance(p: Platform, cfg: Config, st: ClientState, call: Call, k: Hid8)
    requires k in Step(p, cfg, st, call).certs
    ensures var ci := Step(p, cfg, st, call).certs[k];
            (k in st.certs && st.certs[k] == ci) || Introduces(p, cfg, st, call, k, ci)
  {
    if call.CallDiscover? {
      DiscoveryProvenance(p, cfg, st, call.w, k);
    } else if call.CallEnrol? || call.CallAuthorize? {
      IssuedCredentialsValidate(p, cfg, st, call);
    }
  }

  /** After every run, each certificate in the store was there at the start, or some call put it
      there: a plain fetch that returned it, a discovery that traced it to the TLM, or an
      authority whose certificate chain validated at that moment. */
  lemma {:induction false} RunProvenance(p: Platform, cfg: Config, st: ClientState, calls: seq<Call>, k: Hid8)
    requires k in Run(p, cfg, st, calls).certs
    ensures var ci := Run(p, cfg, st, calls).certs[k];
            || (k in st.certs && st.certs[k] == ci)
            || exists n :: 0 <= n < |calls| && Introduces(p, cfg, Run(p, cfg, st, calls[..n]), calls[n], k, ci)
  {
    if calls != [] {
      var n := |calls| - 1;
      var before := Run(p, cfg, st, calls[..n]);
      var ci := Run(p, cfg, st, calls).certs[k];
      StepProvenance(p, cfg, before, calls[n], k);
      if k in before.certs && before.certs[k] == ci {
        RunProvenance(p, cfg, st, calls[..n], k);
        if !(k in st.certs && st.certs[k] == ci) {
          var m :| 0 <= m < n && Introduces(p, cfg, Run(p, cfg, st, calls[..n][..m]), calls[..n][m], k, ci);
          assert calls[..n][..m] == calls[..m];
        }
      }
    }
  }

  /** The certificate at the end of an accepted chain. */
  function Anchor(certs: Store, c: CertInfo): CertInfo { var path := Chain(certs, c, 2); path[|path| - 1] }

  lemma AnchorIsStored(p: Platform, certs: Store, rev: Revocations, c: CertInfo, t: int)
    requires Filed(p, certs) && ValidChain(p, certs, rev, c, t)
    ensures var root := Anchor(certs, c);
            root.isSelfSigned && root.hashedId8 in certs && certs[root.hashedId8] == root
  {
    var issuer := certs[c.issuerHashId8];
    assert Reaches(p, certs, rev, issuer, t, 1);
    if issuer.isSelfSigned {
      assert Chain(certs, issuer, 1) == [issuer];
    } else {
      var root := certs[issuer.issuerHashId8];
      assert Reaches(p, certs, rev, root, t, 0);
      assert Chain(certs, root, 0) == [root];
      assert Chain(certs, issuer, 1) == [issuer, root];
    }
  }

  predicate PlainFetch(call: Call) { call.CallFetchAnchor? || call.CallFetchByName? || call.CallFetchByHid8? }

  lemma TrustedIsNotSelfSigned(p: Platform, certs: Store, rev: Revocations, c: CertInfo, t: int)
    requires Trusted(p, certs, rev, c, t)
    ensures !c.isSelfSigned
  {
    ValidChainIffTrusted(p, certs, rev, c, t);
  }

  /** After every run, the anchor of every chain that is accepted was loaded at the start, was traced
      by a discovery, or was returned by a plain fetch. No response of an authority, however it
      validated, ever becomes an anchor; and without plain fetches, every anchor goes back to
      the start or to a discovery. */
  lemma AnchorProvenance(p: Platform, cfg: Config, st: ClientState, calls: seq<Call>, c: CertInfo, t: int)
    requires p.CodecLaws() && Filed(p, st.certs)
    requires var end := Run(p, cfg, st, calls); ValidChain(p, end.certs, end.rev, c, t)
    ensures var root := Anchor(Run(p, cfg, st, calls).certs, c);
            var k := root.hashedId8;
            || (k in st.certs && st.certs[k] == root)
            || exists n :: 0 <= n < |calls| && Introduces(p, cfg, Run(p, cfg, st, calls[..n]), calls[n], k, root)
                           && (calls[n].CallDiscover? || PlainFetch(calls[n]))
  {
    var end := Run(p, cfg, st, calls);
    RunFiled(p, cfg, st, calls);
    AnchorIsStored(p, end.certs, end.rev, c, t);
    var root := Anchor(end.certs, c);
    var k := root.hashedId8;
    RunProvenance(p, cfg, st, calls, k);
    if !(k in st.certs && st.certs[k] == root) {
      var n :| 0 <= n < |calls| && Introduces(p, cfg, Run(p, cfg, st, calls[..n]), calls[n], k, root);
      if calls[n].CallEnrol? || calls[n].CallAuthorize? {
        var before := Run(p, cfg, st, calls[..n]);
        TrustedIsNotSelfSigned(p, before.certs, before.rev, root, Tai(calls[n].w));
      }
    }
  }

  // --- Routing over runs ---

  /** The result of the last successful discovery of a run. */
  function LastDiscovery(p: Platform, cfg: Config, st: ClientState, calls: seq<Call>): Option<TrustTopology> {
    if calls == [] then st.topology else
    var n := |calls| - 1;
    var r := if calls[n].CallDiscover?
             then Discovered(p, cfg, Run(p, cfg, st, calls[..n]), calls[n].w).1 else Err(NotFound);
    if r.Ok? then Some(r.value) else LastDiscovery(p, cfg, st, calls[..n])
  }

  /** The topology in use is always the one that the last successful discovery reported. */
  lemma {:induction false} RunTopology(p: Platform, cfg: Config, st: ClientState, calls: seq<Call>)
    ensures Run(p, cfg, st, calls).topology == LastDiscovery(p, cfg, st, calls)
  {
    if calls != [] {
      var n := |calls| - 1;
      RunTopology(p, cfg, st, calls[..n]);
      if calls[n].CallDiscover? { RoutingAfterDiscovery(p, cfg, Run(p, cfg, st, calls[..n]), calls[n].w); }
    }
  }
}
