/** What each operation of the client computes, as a function of its state, its configuration and
    an arbitrary network: the answer to a request may depend on how many requests of the same call
    came before it, on the URL and on the body. */
module ClientOps {
  import opened Basics
  import opened Sizes
  import opened PlatformModel
  import opened CertParse
  import opened EncryptedMessages
  import opened Requests
  import opened Revocation
  import opened TrustStore
  import opened TrustLists

  datatype HttpResponse = HttpResponse(status: int, body: Bytes)

  type Network = (nat, string, Bytes) -> Result<HttpResponse>

  /** Everything one call draws from outside: the network and one reading of the clock. */
  datatype World = World(net: Network, now: int)

  datatype Config = Config(tlmUrl: string, tlmHid8: string)

  datatype KeyPair = KeyPair(publicKey: Bytes, privateKey: Bytes)

  datatype ClientState = ClientState(
    certs: Store, rev: Revocations, topology: Option<TrustTopology>, eaUrl: string, aaUrl: string)

  function WithCert(st: ClientState, ci: CertInfo): ClientState { st.(certs := st.certs[ci.hashedId8 := ci]) }

  function Tai(w: World): int { UnixToTaiSeconds(w.now) }

  // --- URLs ---

  function HexDigits(digits: string, b: bv8): string
    requires |digits| == 16
  {
    [digits[((b >> 4) as bv4) as int], digits[((b & 15) as bv4) as int]]
  }

  function Hex(digits: string, h: Bytes): string
    requires |digits| == 16
  {
    if h == [] then "" else HexDigits(digits, h[0]) + Hex(digits, h[1..])
  }

  const UPPER := "0123456789ABCDEF"
  const LOWER := "0123456789abcdef"

  function HexUpper(h: Hid8): string { Hex(UPPER, h) }

  function HexLower(h: Hid8): string { Hex(LOWER, h) }

  predicate DistinctDigits(digits: string) {
    |digits| == 16 && forall i, j :: 0 <= i < j < 16 ==> digits[i] != digits[j]
  }

  lemma DigitsDecide(digits: string, a: bv8, b: bv8)
    requires DistinctDigits(digits) && HexDigits(digits, a) == HexDigits(digits, b)
    ensures a == b
  {
    assert ((a >> 4) as bv4) as int == ((b >> 4) as bv4) as int && ((a & 15) as bv4) as int == ((b & 15) as bv4) as int;
    assert (a >> 4) as bv4 == (b >> 4) as bv4 && (a & 15) as bv4 == (b & 15) as bv4;
  }

  /** Two identities never share an address. */
  lemma {:induction false} HexDecides(digits: string, a: Bytes, b: Bytes)
    requires DistinctDigits(digits) && |a| == |b| && Hex(digits, a) == Hex(digits, b)
    ensures a == b
  {
    if a != [] {
      assert Hex(digits, a)[..2] == HexDigits(digits, a[0]) && Hex(digits, b)[..2] == HexDigits(digits, b[0]);
      assert Hex(digits, a)[2..] == Hex(digits, a[1..]) && Hex(digits, b)[2..] == Hex(digits, b[1..]);
      DigitsDecide(digits, a[0], b[0]);
      HexDecides(digits, a[1..], b[1..]);
    }
  }

  /** The high half of a byte comes first, and the bytes come in order. */
  lemma HexAt(digits: string, h: Bytes, i: nat)
    requires |digits| == 16 && i < |h|
    ensures |Hex(digits, h)| == 2 * |h|
    ensures Hex(digits, h)[2 * i..2 * i + 2]
         == [digits[((h[i] >> 4) as bv4) as int], digits[((h[i] & 0x0F) as bv4) as int]]
    decreases i
  {
    HexLen(digits, h);
    if i > 0 {
      HexAt(digits, h[1..], i - 1);
      assert Hex(digits, h)[2 * i..2 * i + 2] == Hex(digits, h[1..])[2 * (i - 1)..2 * (i - 1) + 2];
    }
  }

  lemma {:induction false} HexLen(digits: string, h: Bytes)
    requires |digits| == 16
    ensures |Hex(digits, h)| == 2 * |h|
  {
    if h != [] { HexLen(digits, h[1..]); }
  }

  lemma UpperDistinct()
    ensures DistinctDigits(UPPER)
  {
  }

  lemma LowerDistinct()
    ensures DistinctDigits(LOWER)
  {
  }

  /** The identities of two certificates never give the same address. */
  lemma AddressesDiffer(a: Hid8, b: Hid8)
    ensures HexUpper(a) == HexUpper(b) <==> a == b
    ensures HexLower(a) == HexLower(b) <==> a == b
  {
    UpperDistinct();
    LowerDistinct();
    if HexUpper(a) == HexUpper(b) { HexDecides(UPPER, a, b); }
    if HexLower(a) == HexLower(b) { HexDecides(LOWER, a, b); }
  }

  // --- Fetching ---

  function Body200(r: Result<HttpResponse>): Result<Bytes> {
    match r
    case Err(e) => Err(e)
    case Ok(resp) => if resp.status != 200 then Err(HttpStatus) else Ok(resp.body)
  }

  function FetchedCert(p: Platform, answer: Result<HttpResponse>, name: string): Result<CertInfo> {
    var body :- Body200(answer);
    var ci :- OkOr(FromCoer(p, body), Decode);
    Ok(ci.(name := name))
  }

  /** The store takes the certificate if there is one. */
  function Stored(st: ClientState, r: Result<CertInfo>): ClientState {
    if r.Ok? then WithCert(st, r.value) else st
  }

  function TrustAnchor(p: Platform, cfg: Config, w: World): Result<CertInfo> {
    FetchedCert(p, w.net(0, cfg.tlmUrl + "/trustanchor", []), "trustanchor")
  }

  function CertByName(p: Platform, cfg: Config, w: World, name: string): Result<CertInfo> {
    FetchedCert(p, w.net(0, cfg.tlmUrl + "/cert/" + name, []), name)
  }

  function CertByHid8(p: Platform, cfg: Config, w: World, h: Hid8): Result<CertInfo> {
    FetchedCert(p, w.net(0, cfg.tlmUrl + "/lookup/" + HexLower(h), []), "lookup_" + HexLower(h))
  }

  // --- Enrolment and authorization ---

  /** A certificate from an authority's response counts only if its chain validates. */
  function Admitted(p: Platform, st: ClientState, w: World, resp: Response, name: string): Result<CertInfo> {
    if resp.code != 0 || resp.certificate.None? then Err(Protocol) else
    var ci := resp.certificate.value.(name := name);
    if !IssuerChainPresent(st.certs, ci) then Err(NotFound)
    else if !ValidChain(p, st.certs, st.rev, ci, Tai(w)) then Err(SignatureInvalid)
    else Ok(ci)
  }

  function Lookup<V>(m: map<Hid8, V>, h: Hid8): Option<V> { if h in m then Some(m[h]) else None }

  function KeyOf(keys: map<string, KeyPair>, handle: string): Result<KeyPair> {
    if handle in keys then Ok(keys[handle]) else Err(KeyStore)
  }

  function Enrolled(p: Platform, st: ClientState, keys: map<string, KeyPair>, handle: string, rec: EcRecord,
                    rnd: EcEntropy, w: World)
    : Result<CertInfo>
  {
    if !ValidEcRecord(rec) then Err(InvalidArgument) else
    var kp :- KeyOf(keys, handle);
    var ea :- OkOr(Lookup(st.certs, rec.eaHid8), NotFound);
    var req :- EcRequest(p, AssembleEc(rec, w.now), ea, kp.privateKey, rnd);
    var body :- Body200(w.net(0, st.eaUrl, req.bytes));
    var resp :- DecodeResponse(p, EC_RESPONSE_TAG, body, kp.privateKey, req.aesKey, req.bytes, ea);
    Admitted(p, st, w, resp, "ec")
  }

  /** The request carries the stored key of the AT handle, whatever the record says. */
  function AtDescriptionFor(rec: AtRecord, w: World, hmacKey: Bytes, atKey: KeyPair): AtDescription {
    AssembleAt(rec, w.now, hmacKey).(verificationKey := atKey.publicKey)
  }

  function Authorized(p: Platform, st: ClientState, keys: map<string, KeyPair>, ecHandle: string, ec: CertInfo,
                      atHandle: string, rec: AtRecord, hmacKey: Bytes, rnd: AtEntropy, w: World): Result<CertInfo>
  {
    if !ValidAtRecord(rec) then Err(InvalidArgument) else
    var kp :- KeyOf(keys, ecHandle);
    var aa :- OkOr(Lookup(st.certs, rec.aaHid8), NotFound);
    var ea :- OkOr(Lookup(st.certs, rec.eaHid8), NotFound);
    var atKey :- KeyOf(keys, atHandle);
    var req :- AtRequest(p, AtDescriptionFor(rec, w, hmacKey, atKey), aa, ea, ec, kp.privateKey, atKey.privateKey, rnd);
    var body :- Body200(w.net(0, st.aaUrl, req.bytes));
    var resp :- DecodeResponse(p, AT_RESPONSE_TAG, body, atKey.privateKey, req.aesKey, req.bytes, aa);
    Admitted(p, st, w, resp, "at")
  }

  // --- Revocation ---

  function CrlUrl(cfg: Config, st: ClientState, h: Hid8): string {
    if st.topology.Some? then DcUrl(st.topology.value.dcs, h, cfg.tlmUrl) else cfg.tlmUrl
  }

  function FetchedCrl(p: Platform, cfg: Config, st: ClientState, h: Hid8, w: World): Result<CrlContents> {
    var body :- Body200(w.net(0, CrlUrl(cfg, st, h) + "/getcrl/" + HexUpper(h), []));
    var rca :- OkOr(Lookup(st.certs, h), NotFound);
    var crl :- DecodedCrl(p, body, rca.publicKey, rca.certBytes);
    if Stale(crl, Tai(w)) then Err(Protocol) else Ok(crl)
  }

  function AfterCrl(st: ClientState, r: Result<CrlContents>, w: World): ClientState {
    if r.Ok? then st.(rev := Applied(st.rev, r.value, Tai(w))) else st
  }

  // --- Adding certificates in order ---

  function AddAll(certs: Store, cis: seq<CertInfo>): Store {
    if cis == [] then certs else
    AddAll(certs, cis[..|cis| - 1])[cis[|cis| - 1].hashedId8 := cis[|cis| - 1]]
  }

  /** An entry of the result is an old one or one of the added, and nothing that was filed is lost. */
  lemma {:induction false} AddAllEntries(certs: Store, cis: seq<CertInfo>)
    ensures forall k :: k in AddAll(certs, cis) ==>
              (k in certs && AddAll(certs, cis)[k] == certs[k]) || AddAll(certs, cis)[k] in cis
    ensures certs.Keys <= AddAll(certs, cis).Keys
    ensures forall i :: 0 <= i < |cis| ==> cis[i].hashedId8 in AddAll(certs, cis)
  {
    if cis != [] { AddAllEntries(certs, cis[..|cis| - 1]); }
  }

  /** What was added is there: under the identity of each added certificate is one of those that were added
      with that identity; and what has another identity is as it was. */
  lemma {:induction false} AddAllHolds(certs: Store, cis: seq<CertInfo>, k: Hid8)
    ensures (exists ci :: ci in cis && ci.hashedId8 == k) ==>
              k in AddAll(certs, cis) && AddAll(certs, cis)[k] in cis && AddAll(certs, cis)[k].hashedId8 == k
    ensures (forall ci :: ci in cis ==> ci.hashedId8 != k) ==>
              (k in AddAll(certs, cis) <==> k in certs) && (k in certs ==> AddAll(certs, cis)[k] == certs[k])
  {
    if cis != [] {
      var n := |cis| - 1;
      AddAllHolds(certs, cis[..n], k);
      assert cis == cis[..n] + [cis[n]];
    }
  }

  lemma {:induction false} AddAllAppend(certs: Store, a: seq<CertInfo>, b: seq<CertInfo>)
    ensures AddAll(AddAll(certs, a), b) == AddAll(certs, a + b)
  {
    if b == [] {
      assert a + b == a;
    } else {
      assert (a + b)[..|a + b| - 1] == a + b[..|b| - 1];
      AddAllAppend(certs, a, b[..|b| - 1]);
    }
  }

  /** The values a function gives for the elements of a sequence, in order. */
  function Picked<S, T>(pick: S -> Option<T>, xs: seq<S>): seq<T> {
    if xs == [] then [] else Picked(pick, xs[..|xs| - 1]) + One(pick(xs[|xs| - 1]))
  }

  lemma {:induction false} PickedIff<S, T>(pick: S -> Option<T>, xs: seq<S>, y: T)
    ensures y in Picked(pick, xs) <==> exists i :: 0 <= i < |xs| && pick(xs[i]) == Some(y)
  {
    if xs != [] {
      var n := |xs| - 1;
      PickedIff(pick, xs[..n], y);
      if exists i :: 0 <= i < n && pick(xs[..n][i]) == Some(y) {
        var i :| 0 <= i < n && pick(xs[..n][i]) == Some(y);
        assert pick(xs[i]) == Some(y);
      }
      if exists i :: 0 <= i < |xs| && pick(xs[i]) == Some(y) {
        var i :| 0 <= i < |xs| && pick(xs[i]) == Some(y);
        if i < n { assert pick(xs[..n][i]) == Some(y); }
      }
    }
  }

  function ReadsFile(p: Platform): DirEntry -> Option<CertInfo> { (e: DirEntry) => CertIn(p, e) }

  lemma {:induction false} LoadedIs(p: Platform, certs: Store, entries: seq<DirEntry>)
    ensures Loaded(p, certs, entries) == AddAll(certs, Picked(ReadsFile(p), entries))
  {
    if entries != [] {
      var n := |entries| - 1;
      LoadedIs(p, certs, entries[..n]);
      AddAllAppend(certs, Picked(ReadsFile(p), entries[..n]), One(CertIn(p, entries[n])));
    }
  }

  ghost predicate InDirectory(p: Platform, entries: seq<DirEntry>, ci: CertInfo) {
    exists i :: 0 <= i < |entries| && CertIn(p, entries[i]) == Some(ci)
  }

  lemma ReadIff(p: Platform, entries: seq<DirEntry>, ci: CertInfo)
    ensures ci in Picked(ReadsFile(p), entries) <==> InDirectory(p, entries, ci)
  {
    PickedIff(ReadsFile(p), entries, ci);
    if InDirectory(p, entries, ci) {
      var i :| 0 <= i < |entries| && CertIn(p, entries[i]) == Some(ci);
      assert ReadsFile(p)(entries[i]) == Some(ci);
    }
  }

  /** What a directory holds is loaded: under the identity of each of its certificates is one of them with that
      identity, and what has another identity is as it was. */
  lemma LoadedHolds(p: Platform, certs: Store, entries: seq<DirEntry>, k: Hid8)
    ensures var store := Loaded(p, certs, entries);
            && ((exists ci :: InDirectory(p, entries, ci) && ci.hashedId8 == k) ==>
                  k in store && store[k].hashedId8 == k && InDirectory(p, entries, store[k]))
            && ((forall ci :: InDirectory(p, entries, ci) ==> ci.hashedId8 != k) ==>
                  (k in store <==> k in certs) && (k in certs ==> store[k] == certs[k]))
  {
    var all := Picked(ReadsFile(p), entries);
    LoadedIs(p, certs, entries);
    forall ci ensures ci in all <==> InDirectory(p, entries, ci) { ReadIff(p, entries, ci); }
    AddAllHolds(certs, all, k);
  }

  // --- When the operations succeed ---

  /** A fetch yields a certificate exactly when the answer is a 200 whose body parses to it and fits; otherwise
      the error says whether the network, the status or the body failed. */
  lemma FetchedIff(p: Platform, answer: Result<HttpResponse>, name: string)
    ensures var r := FetchedCert(p, answer, name);
            match answer
            case Err(e) => r == Err(e)
            case Ok(HttpResponse(status, body)) =>
              if status != 200 then r == Err(HttpStatus)
              else if p.decCert(body).None? || body == [] || |body| > 2048 then r == Err(Decode)
              else r == Ok(FromStruct(p, p.decCert(body).value, body).(name := name))
  {
  }

  /** The client takes over a certificate exactly when the response says ok and the chain validates; without its
      issuers in the store the error is another than with a chain that does not validate. */
  lemma AdmittedIff(p: Platform, st: ClientState, w: World, resp: Response, name: string)
    ensures var r := Admitted(p, st, w, resp, name);
            if resp.code != 0 || resp.certificate.None? then r == Err(Protocol) else
            var ci := resp.certificate.value.(name := name);
            if ValidChain(p, st.certs, st.rev, ci, Tai(w)) then r == Ok(ci)
            else if ci.issuerHashId8 !in st.certs then r == Err(NotFound)
            else
              var issuer := st.certs[ci.issuerHashId8];
              if !issuer.isSelfSigned && issuer.issuerHashId8 !in st.certs then r == Err(NotFound)
              else r == Err(SignatureInvalid)
  {
    if resp.certificate.Some? {
      var ci := resp.certificate.value.(name := name);
      if ValidChain(p, st.certs, st.rev, ci, Tai(w)) { AnchorTestIsSafe(p, st.certs, st.rev, ci, Tai(w)); }
    }
  }

  /** An enrolment returns ci exactly when the record is admitted, the key and the EA are known, the request is
      encoded and sent to the EA's address, and the answer is a 200 with an accepted response that
      says ok and brings ci, whose chain validates. */
  lemma EnrolledIff(p: Platform, st: ClientState, keys: map<string, KeyPair>, handle: string, rec: EcRecord,
                    rnd: EcEntropy, w: World, ci: CertInfo)
    ensures Enrolled(p, st, keys, handle, rec, rnd, w) == Ok(ci) <==>
            && ValidEcRecord(rec) && handle in keys && rec.eaHid8 in st.certs
            && exists req, body, resp ::
                 && EcRequest(p, AssembleEc(rec, w.now), st.certs[rec.eaHid8], keys[handle].privateKey, rnd) == Ok(req)
                 && w.net(0, st.eaUrl, req.bytes) == Ok(HttpResponse(200, body))
                 && DecodeResponse(p, 0x81, body, keys[handle].privateKey, req.aesKey, req.bytes, st.certs[rec.eaHid8])
                    == Ok(resp)
                 && resp.code == 0 && resp.certificate.Some? && ci == resp.certificate.value.(name := "ec")
                 && ValidChain(p, st.certs, st.rev, ci, Tai(w))
  {
    if ValidEcRecord(rec) && handle in keys && rec.eaHid8 in st.certs {
      var ea := st.certs[rec.eaHid8];
      var req := EcRequest(p, AssembleEc(rec, w.now), ea, keys[handle].privateKey, rnd);
      if req.Ok? {
        var answer := w.net(0, st.eaUrl, req.value.bytes);
        if answer.Ok? && answer.value.status == 200 {
          assert answer == Ok(HttpResponse(200, answer.value.body));
          var resp := DecodeResponse(p, 0x81, answer.value.body, keys[handle].privateKey, req.value.aesKey,
                                     req.value.bytes, ea);
          if resp.Ok? { AdmittedIff(p, st, w, resp.value, "ec"); }
        }
      }
    }
  }

  /** The same for an authorization, with the stored key of the ticket. */
  lemma AuthorizedIff(p: Platform, st: ClientState, keys: map<string, KeyPair>, ecHandle: string, ec: CertInfo,
                      atHandle: string, rec: AtRecord, hmacKey: Bytes, rnd: AtEntropy, w: World, ci: CertInfo)
    ensures Authorized(p, st, keys, ecHandle, ec, atHandle, rec, hmacKey, rnd, w) == Ok(ci) <==>
            && ValidAtRecord(rec) && ecHandle in keys && atHandle in keys
            && rec.aaHid8 in st.certs && rec.eaHid8 in st.certs
            && exists req, body, resp ::
                 && AtRequest(p, AssembleAt(rec, w.now, hmacKey).(verificationKey := keys[atHandle].publicKey),
                              st.certs[rec.aaHid8], st.certs[rec.eaHid8], ec, keys[ecHandle].privateKey,
                              keys[atHandle].privateKey, rnd) == Ok(req)
                 && w.net(0, st.aaUrl, req.bytes) == Ok(HttpResponse(200, body))
                 && DecodeResponse(p, 0x83, body, keys[atHandle].privateKey, req.aesKey, req.bytes,
                                   st.certs[rec.aaHid8])
                    == Ok(resp)
                 && resp.code == 0 && resp.certificate.Some? && ci == resp.certificate.value.(name := "at")
                 && ValidChain(p, st.certs, st.rev, ci, Tai(w))
  {
    if ValidAtRecord(rec) && ecHandle in keys && atHandle in keys && rec.aaHid8 in st.certs && rec.eaHid8 in st.certs {
      var aa := st.certs[rec.aaHid8];
      var req := AtRequest(p, AtDescriptionFor(rec, w, hmacKey, keys[atHandle]), aa, st.certs[rec.eaHid8], ec,
                           keys[ecHandle].privateKey, keys[atHandle].privateKey, rnd);
      if req.Ok? {
        var answer := w.net(0, st.aaUrl, req.value.bytes);
        if answer.Ok? && answer.value.status == 200 {
          assert answer == Ok(HttpResponse(200, answer.value.body));
          var resp := DecodeResponse(p, 0x83, answer.value.body, keys[atHandle].privateKey, req.value.aesKey,
                                     req.value.bytes, aa);
          if resp.Ok? { AdmittedIff(p, st, w, resp.value, "at"); }
        }
      }
    }
  }

  /** A CRL fetch for h succeeds exactly when the address of h's centre, or the fallback, answers with a 200, h is
      in the store, and the body is a CRL signed by it that has not passed its next update. */
  lemma FetchedCrlIff(p: Platform, cfg: Config, st: ClientState, h: Hid8, w: World, crl: CrlContents)
    ensures FetchedCrl(p, cfg, st, h, w) == Ok(crl) <==>
            var base := match st.topology case Some(t) => DcUrl(t.dcs, h, cfg.tlmUrl) case None => cfg.tlmUrl;
            && h in st.certs
            && (exists body ::
                  && w.net(0, base + "/getcrl/" + HexUpper(h), []) == Ok(HttpResponse(200, body))
                  && DecodedCrl(p, body, st.certs[h].publicKey, st.certs[h].certBytes) == Ok(crl))
            && (crl.nextUpdate == 0 || UnixToTaiSeconds(w.now) <= crl.nextUpdate)
  {
    var answer := w.net(0, CrlUrl(cfg, st, h) + "/getcrl/" + HexUpper(h), []);
    if answer.Ok? && answer.value.status == 200 { assert answer == Ok(HttpResponse(200, answer.value.body)); }
  }

  /** Which error an operation gives before anything is sent. */
  lemma RefusedBeforeSending(p: Platform, st: ClientState, keys: map<string, KeyPair>, handle: string, ecRec: EcRecord,
                             ecRnd: EcEntropy, ec: CertInfo, atHandle: string, rec: AtRecord, hmacKey: Bytes,
                             atRnd: AtEntropy, w: World)
    ensures var r := Enrolled(p, st, keys, handle, ecRec, ecRnd, w);
            && (!ValidEcRecord(ecRec) ==> r == Err(InvalidArgument))
            && (ValidEcRecord(ecRec) && handle !in keys ==> r == Err(KeyStore))
            && (ValidEcRecord(ecRec) && handle in keys && ecRec.eaHid8 !in st.certs ==> r == Err(NotFound))
    ensures var r := Authorized(p, st, keys, handle, ec, atHandle, rec, hmacKey, atRnd, w);
            var known := rec.aaHid8 in st.certs && rec.eaHid8 in st.certs;
            && (!ValidAtRecord(rec) ==> r == Err(InvalidArgument))
            && (ValidAtRecord(rec) && handle !in keys ==> r == Err(KeyStore))
            && (ValidAtRecord(rec) && handle in keys && !known ==> r == Err(NotFound))
            && (ValidAtRecord(rec) && handle in keys && known && atHandle !in keys ==> r == Err(KeyStore))
  {
  }
}
