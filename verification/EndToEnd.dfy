/** Both sides together: a station and honest authorities complete enrolment and authorization. */
module EndToEnd {
  import opened Basics
  import opened Sizes
  import opened Asn
  import opened PlatformModel
  import opened CertParse
  import opened SignedEnvelopes
  import opened EncryptedMessages
  import opened Requests
  import opened Authorities
  import opened TrustStore
  import opened ClientOps

  /** What an authority draws and decides: the certificate it issues and its random values. */
  datatype Issue = Issue(cert: CertificateBase, nonce: CcmNonce, pskId: Bytes, rnd: SignEntropy)

  function Answer(body: Bytes): Result<HttpResponse> { Ok(HttpResponse(200, body)) }

  /** The response that answers the request with the issued certificate. */
  function Issuing(p: Platform, issue: Issue, request: Bytes): InnerResponse {
    InnerResponse(p.sha256(request)[..16], 0, Some(issue.cert))
  }

  /** An EA that knows only its own keys: it opens the request, checks it and answers under the key
      it found inside. */
  function EaServer(p: Platform, ea: CertInfo, decryptKey: Bytes, signKey: Bytes, issue: Issue, request: Bytes)
    : Result<HttpResponse>
  {
    match EaAcceptsEnrolment(p, request, ea, decryptKey)
    case None => Ok(HttpResponse(400, []))
    case Some((key, _)) =>
      Answer(Reply(p, EC_RESPONSE_TAG, Issuing(p, issue, request), ea, signKey, key, issue.nonce, issue.pskId,
                   issue.rnd))
  }

  /** An AA that has the EA validate the EC signature before it answers. */
  function AaServer(p: Platform, aa: CertInfo, decryptKey: Bytes, signKey: Bytes, ea: CertInfo,
                    eaDecryptKey: Bytes, ec: CertInfo, issue: Issue, request: Bytes): Result<HttpResponse>
  {
    match AaAcceptsAuthorization(p, request, aa, decryptKey)
    case None => Ok(HttpResponse(400, []))
    case Some((key, inner)) =>
      if !EaValidates(p, inner, ea, eaDecryptKey, ec) then Ok(HttpResponse(400, [])) else
      Answer(Reply(p, AT_RESPONSE_TAG, Issuing(p, issue, request), aa, signKey, key, issue.nonce, issue.pskId,
                   issue.rnd))
  }

  /** An authority whose replies the client can verify. */
  predicate RepliesAs(p: Platform, cert: CertInfo, signKey: Bytes) {
    cert.curve != NistP384 && KeysMatch(p, cert.curve, cert.publicKey, signKey)
    && OwnHid8(p, cert.certBytes, cert.hashedId8)
  }

  /** The issued certificate as the client will parse it. */
  function Issued(p: Platform, issue: Issue, name: string): CertInfo {
    FromStruct(p, issue.cert, p.encCert(issue.cert)).(name := name)
  }

  /** A reply to the request that was sent, under the key that was sent, is read as it was meant. */
  lemma HonestReply(p: Platform, tag: bv8, signer: CertInfo, signKey: Bytes, key: Bytes, issue: Issue, priv: Bytes,
                    request: Bytes)
    requires p.Lawful() && RepliesAs(p, signer, signKey) && request != []
    requires tag == EC_RESPONSE_TAG || tag == AT_RESPONSE_TAG
    requires Reply(p, tag, Issuing(p, issue, request), signer, signKey, key, issue.nonce, issue.pskId, issue.rnd) != []
    ensures var inner := Issuing(p, issue, request);
            var body := Reply(p, tag, inner, signer, signKey, key, issue.nonce, issue.pskId, issue.rnd);
            var name := if tag == EC_RESPONSE_TAG then "ec_response" else "at_response";
            DecodeResponse(p, tag, body, priv, key, request, signer) ==
            Ok(Response(0, inner.requestHash, Some(Issued(p, issue, name))))
  {
    ReplyAccepted(p, tag, Issuing(p, issue, request), signer, signKey, key, issue.nonce, issue.pskId, issue.rnd, priv,
                  request);
  }

  lemma AdmittedIfValid(p: Platform, st: ClientState, w: World, hash: Bytes, issue: Issue, name: string, name': string)
    requires ValidChain(p, st.certs, st.rev, Issued(p, issue, name), Tai(w))
    ensures Admitted(p, st, w, Response(0, hash, Some(Issued(p, issue, name'))), name) == Ok(Issued(p, issue, name))
  {
    AnchorTestIsSafe(p, st.certs, st.rev, Issued(p, issue, name), Tai(w));
  }

  /** The client's steps once its request is encoded. */
  lemma EnrolmentAnswered(p: Platform, st: ClientState, keys: map<string, KeyPair>, handle: string, rec: EcRecord,
                          rnd: EcEntropy, w: World, ea: CertInfo, req: Encoded)
    requires ValidEcRecord(rec) && handle in keys && rec.eaHid8 in st.certs && st.certs[rec.eaHid8] == ea
    requires EcRequest(p, AssembleEc(rec, w.now), ea, keys[handle].privateKey, rnd) == Ok(req)
    ensures Enrolled(p, st, keys, handle, rec, rnd, w)
         == ExchangeResult(p, st, w, EC_RESPONSE_TAG, st.eaUrl, keys[handle].privateKey, req, ea, "ec")
  {
  }

  lemma AuthorizationAnswered(p: Platform, st: ClientState, keys: map<string, KeyPair>, ecHandle: string, ec: CertInfo,
                              atHandle: string, rec: AtRecord, hmacKey: Bytes, rnd: AtEntropy, w: World, aa: CertInfo,
                              ea: CertInfo, req: Encoded)
    requires ValidAtRecord(rec) && ecHandle in keys && atHandle in keys
    requires rec.aaHid8 in st.certs && st.certs[rec.aaHid8] == aa && rec.eaHid8 in st.certs
             && st.certs[rec.eaHid8] == ea
    requires AtRequest(p, AtDescriptionFor(rec, w, hmacKey, keys[atHandle]), aa, ea, ec, keys[ecHandle].privateKey,
                       keys[atHandle].privateKey, rnd) == Ok(req)
    ensures Authorized(p, st, keys, ecHandle, ec, atHandle, rec, hmacKey, rnd, w)
         == ExchangeResult(p, st, w, AT_RESPONSE_TAG, st.aaUrl, keys[atHandle].privateKey, req, aa, "at")
  {
  }

  /** What an exchange ends with: the answer is decoded, and its certificate admitted. */
  function ExchangeResult(p: Platform, st: ClientState, w: World, tag: bv8, url: string, priv: Bytes, req: Encoded,
                     signer: CertInfo, name: string): Result<CertInfo>
  {
    var body :- Body200(w.net(0, url, req.bytes));
    var resp :- DecodeResponse(p, tag, body, priv, req.aesKey, req.bytes, signer);
    Admitted(p, st, w, resp, name)
  }

  /** An honest reply under the request's key ends with the issued certificate. */
  lemma HonestReplyConcludes(p: Platform, st: ClientState, w: World, tag: bv8, url: string, priv: Bytes, req: Encoded,
                             signer: CertInfo, signKey: Bytes, issue: Issue, name: string, name': string)
    requires p.Lawful() && RepliesAs(p, signer, signKey) && req.bytes != []
    requires (tag == EC_RESPONSE_TAG && name' == "ec_response") || (tag == AT_RESPONSE_TAG && name' == "at_response")
    requires var inner := Issuing(p, issue, req.bytes);
             var body := Reply(p, tag, inner, signer, signKey, req.aesKey, issue.nonce, issue.pskId, issue.rnd);
             body != [] && w.net(0, url, req.bytes) == Answer(body)
    requires ValidChain(p, st.certs, st.rev, Issued(p, issue, name), Tai(w))
    ensures ExchangeResult(p, st, w, tag, url, priv, req, signer, name) == Ok(Issued(p, issue, name))
  {
    HonestReply(p, tag, signer, signKey, req.aesKey, issue, priv, req.bytes);
    AdmittedIfValid(p, st, w, p.sha256(req.bytes)[..16], issue, name, name');
  }

  /** The setting of an enrolment: an admitted record with a key of the key store, an EA of the trust
      store, the request encoded as `req`, and at the other end an honest EA whose reply could be
      encoded and whose certificate chains to an anchor of the store. */
  ghost predicate HonestEnrolment(p: Platform, st: ClientState, keys: map<string, KeyPair>, handle: string,
                                  rec: EcRecord, rnd: EcEntropy, w: World, ea: CertInfo, decryptKey: Bytes,
                                  signKey: Bytes, issue: Issue, req: Encoded)
  {
    && p.Lawful() && ValidEcRecord(rec)
    && handle in keys && rec.publicKey == p.publicOf(rec.curve, keys[handle].privateKey)
    && rec.eaHid8 in st.certs && st.certs[rec.eaHid8] == ea
    && OpensFor(p, ea, decryptKey) && RepliesAs(p, ea, signKey)
    && EcRequest(p, AssembleEc(rec, w.now), ea, keys[handle].privateKey, rnd) == Ok(req)
    && w.net(0, st.eaUrl, req.bytes) == EaServer(p, ea, decryptKey, signKey, issue, req.bytes)
    && w.net(0, st.eaUrl, req.bytes) != Answer([])
    && ValidChain(p, st.certs, st.rev, Issued(p, issue, "ec"), Tai(w))
  }

  /** Enrolment completes: in such a setting the client ends up with exactly the issued certificate,
      unless the record is for NIST P-384: then it ends with the EA's refusal. The EA gets the
      response key from the request, the client's key store gives the private key, and
      nothing else is shared. */
  lemma EnrolmentCompletes(p: Platform, st: ClientState, keys: map<string, KeyPair>, handle: string, rec: EcRecord,
                           rnd: EcEntropy, w: World, ea: CertInfo, decryptKey: Bytes, signKey: Bytes, issue: Issue,
                           req: Encoded)
    requires HonestEnrolment(p, st, keys, handle, rec, rnd, w, ea, decryptKey, signKey, issue, req)
    ensures Enrolled(p, st, keys, handle, rec, rnd, w) ==
            if rec.curve != NistP384 then Ok(Issued(p, issue, "ec")) else Err(HttpStatus)
  {
    var priv := keys[handle].privateKey;
    EnrolmentAnswered(p, st, keys, handle, rec, rnd, w, ea, req);
    EnrolmentAcceptedIff(p, AssembleEc(rec, w.now), ea, priv, rnd, decryptKey, req);
    if rec.curve != NistP384 {
      EnrolmentAccepted(p, AssembleEc(rec, w.now), ea, priv, rnd, decryptKey, req);
      HonestReplyConcludes(p, st, w, EC_RESPONSE_TAG, st.eaUrl, priv, req, ea, signKey, issue, "ec", "ec_response");
    }
  }

  /** The setting of an authorization: an admitted record, matching ticket keys, both authorities in the
      store, the request encoded as `req`, and at the other end an honest AA whose reply could be
      encoded and whose certificate chains to an anchor of the store. */
  ghost predicate HonestAuthorization(p: Platform, st: ClientState, keys: map<string, KeyPair>, ecHandle: string,
                                      ec: CertInfo, atHandle: string, rec: AtRecord, hmacKey: Bytes, rnd: AtEntropy,
                                      w: World, aa: CertInfo, ea: CertInfo, decryptKey: Bytes, signKey: Bytes,
                                      eaDecryptKey: Bytes, issue: Issue, req: Encoded)
  {
    && p.Lawful() && ValidAtRecord(rec)
    && ecHandle in keys && atHandle in keys
    && keys[atHandle].publicKey == p.publicOf(rec.curve, keys[atHandle].privateKey)
    && rec.aaHid8 in st.certs && st.certs[rec.aaHid8] == aa
    && rec.eaHid8 in st.certs && st.certs[rec.eaHid8] == ea && ea.hashedId8 == rec.eaHid8
    && OpensFor(p, aa, decryptKey) && OpensFor(p, ea, eaDecryptKey) && RepliesAs(p, aa, signKey)
    && AtRequest(p, AtDescriptionFor(rec, w, hmacKey, keys[atHandle]), aa, ea, ec, keys[ecHandle].privateKey,
                 keys[atHandle].privateKey, rnd) == Ok(req)
    && w.net(0, st.aaUrl, req.bytes) == AaServer(p, aa, decryptKey, signKey, ea, eaDecryptKey, ec, issue, req.bytes)
    && w.net(0, st.aaUrl, req.bytes) != Answer([])
    && ValidChain(p, st.certs, st.rev, Issued(p, issue, "at"), Tai(w))
  }

  /** Authorization completes in the same way, with the EA consulted about the EC's signature: with the
      issued certificate exactly when the ticket is not for NIST P-384 and the EC vouches for the
      request, and with the AA's refusal otherwise. */
  lemma AuthorizationCompletes(p: Platform, st: ClientState, keys: map<string, KeyPair>, ecHandle: string,
                               ec: CertInfo, atHandle: string, rec: AtRecord, hmacKey: Bytes, rnd: AtEntropy,
                               w: World, aa: CertInfo, ea: CertInfo, decryptKey: Bytes, signKey: Bytes,
                               eaDecryptKey: Bytes, issue: Issue, req: Encoded)
    requires HonestAuthorization(p, st, keys, ecHandle, ec, atHandle, rec, hmacKey, rnd, w, aa, ea, decryptKey, signKey,
                                 eaDecryptKey, issue, req)
    ensures var desc := AtDescriptionFor(rec, w, hmacKey, keys[atHandle]);
            Authorized(p, st, keys, ecHandle, ec, atHandle, rec, hmacKey, rnd, w) ==
            if rec.curve != NistP384 && EcVouches(p, desc, ec, keys[ecHandle].privateKey, rnd.ext)
            then Ok(Issued(p, issue, "at")) else Err(HttpStatus)
  {
    var desc := AtDescriptionFor(rec, w, hmacKey, keys[atHandle]);
    var ecPriv, atPriv := keys[ecHandle].privateKey, keys[atHandle].privateKey;
    AuthorizationAnswered(p, st, keys, ecHandle, ec, atHandle, rec, hmacKey, rnd, w, aa, ea, req);
    AuthorizationAcceptedIff(p, desc, aa, ea, ec, ecPriv, atPriv, rnd, decryptKey, req);
    if rec.curve != NistP384 {
      AuthorizationAccepted(p, desc, aa, ea, ec, ecPriv, atPriv, rnd, decryptKey, eaDecryptKey, req);
      if EcVouches(p, desc, ec, ecPriv, rnd.ext) {
        HonestReplyConcludes(p, st, w, AT_RESPONSE_TAG, st.aaUrl, atPriv, req, aa, signKey, issue, "at", "at_response");
      }
    }
  }

  // --- What reaches the authority ---

  /** The psids of a record are 64-bit integers. */
  predicate Int64Psids(psids: seq<int>) { forall i :: 0 <= i < |psids| ==> -TWO63 <= psids[i] < TWO63 }

  /** The start of the validity is the time of the call as TAI seconds since 2004, with a zero before it and
      wrap-around at 32 bits. */
  ghost predicate StartsAt(start: Uint32, now: int) {
    var tai := now - 1072915200 + 5;
    if tai < 0 then start == 0 else exists k: nat :: tai == k * 0x1_0000_0000 + start
  }

  lemma StartIs(now: int)
    ensures StartsAt(UnixToTai32(now), now)
    ensures 1072915195 <= now < 1072915195 + 0x1_0000_0000 ==> UnixToTai32(now) == now - 1072915195
  {
    var tai := now - 1072915195;
    if tai >= 0 { assert tai == (tai / 0x1_0000_0000) * 0x1_0000_0000 + tai % 0x1_0000_0000; }
  }

  /** The request an AA accepts asks for what the record says: its psids, a start at the time of the
      call and the record's period, capped; the EA it names is the record's. */
  lemma RecordReachesAa(p: Platform, rec: AtRecord, w: World, hmacKey: Bytes, atKey: KeyPair)
    requires ValidAtRecord(rec) && Int64Psids(rec.psids)
    ensures var shared := Shared(p, AtDescriptionFor(rec, w, hmacKey, atKey));
            && shared.eaId == rec.eaHid8 && shared.certificateFormat == 1
            && StartsAt(shared.attributes.validity.start, w.now)
            && shared.attributes.validity.duration == Some(Hours(Min(rec.validityHours, 65535)))
            && |shared.attributes.appPermissions| == |rec.psids|
            && forall i :: 0 <= i < |rec.psids| ==> shared.attributes.appPermissions[i].psid == rec.psids[i]
  {
    StartIs(w.now);
  }

  lemma RecordReachesEa(rec: EcRecord, w: World)
    requires ValidEcRecord(rec)
    ensures var inner := InnerEc(AssembleEc(rec, w.now));
            && inner.attributes.appPermissions == [PsidSsp(623)] && inner.certificateFormat == 1
            && inner.itsId == (if rec.itsId != "" then rec.itsId else "v2xpki-its-s")
            && StartsAt(inner.attributes.validity.start, w.now)
            && (rec.validityDays <= 2730 ==>
                DurationSeconds(inner.attributes.validity.duration) == rec.validityDays * 86400)
  {
    StartIs(w.now);
    assert Permissions(rec.psids) == [PsidSsp(PSID_SCR)];
  }
}
