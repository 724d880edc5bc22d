/** Certificate revocation lists (section 6.3.3 of ETSI TS 102 941): decoding and the store. */
module Revocation {
  import opened Basics
  import opened Asn
  import opened PlatformModel
  import opened CertParse
  import opened SignedMessages

  datatype CrlContents = CrlContents(issuerHid8: Hid8, thisUpdate: nat, nextUpdate: nat, revoked: seq<Hid8>)

  type Revocations = map<Hid8, set<Hid8>>

  // --- Decoding ---

  function DecodeEtsi(p: Platform, bytes: Bytes): Option<EtsiTs102941Data> {
    var strict := p.decEtsi(bytes);
    if strict.Some? then strict else p.decEtsiBasic(bytes)
  }

  /** The entries of HashedId8 size, in order; others are skipped. */
  function Hid8Entries(entries: seq<Bytes>): seq<Hid8> {
    if entries == [] then [] else
    var n := |entries| - 1;
    Hid8Entries(entries[..n]) + if |entries[n]| == 8 then [entries[n]] else []
  }

  method CollectHid8(entries: seq<Bytes>) returns (out: seq<Hid8>)
    ensures out == Hid8Entries(entries)
  {
    out := [];
    for i := 0 to |entries|
      invariant out == Hid8Entries(entries[..i])
    {
      assert entries[..i + 1][..i] == entries[..i];
      if |entries[i]| == 8 { out := out + [entries[i]]; }
    }
    assert entries[..|entries|] == entries;
  }

  function CrlContent(d: EtsiTs102941Data): Option<ToBeSignedCrl> {
    match d.content
    case Some(RevocationList(crl)) => crl
    case _ => None
  }

  function DecodedCrl(p: Platform, coer: Bytes, rcaKey: Bytes, rcaCert: Bytes): Result<CrlContents> {
    var m :- OkOr(Unwrapped(p, coer), Decode);
    if rcaKey == [] || rcaCert == [] then Err(InvalidArgument)
    else if !Verifies(p, m, rcaKey, rcaCert) then Err(SignatureInvalid) else
    var data :- OkOr(DecodeEtsi(p, m.payload), Decode);
    var crl :- OkOr(CrlContent(data), Decode);
    if !m.hasSignerDigest then Err(Decode)
    else Ok(CrlContents(m.signerHid8, crl.thisUpdate, crl.nextUpdate, Hid8Entries(crl.entries)))
  }

  method DecodeCrl(p: Platform, coer: Bytes, rcaKey: Bytes, rcaCert: Bytes) returns (r: Result<CrlContents>)
    ensures r == DecodedCrl(p, coer, rcaKey, rcaCert)
  {
    var msg := Unwrap(p, coer);
    if msg.None? { return Err(Decode); }
    if rcaKey == [] || rcaCert == [] { return Err(InvalidArgument); }
    var verified := Verify(p, msg.value, rcaKey, rcaCert);
    if !verified { return Err(SignatureInvalid); }
    var data := DecodeEtsi(p, msg.value.payload);
    if data.None? || data.value.content.None? || !data.value.content.value.RevocationList? { return Err(Decode); }
    var crl := data.value.content.value.crl;
    if crl.None? { return Err(Decode); }
    if !msg.value.hasSignerDigest { return Err(Decode); }
    var revoked := CollectHid8(crl.value.entries);
    r := Ok(CrlContents(msg.value.signerHid8, crl.value.thisUpdate, crl.value.nextUpdate, revoked));
  }

  /** No entry of HashedId8 size is lost and none is made up. */
  lemma {:induction false} EntriesKept(entries: seq<Bytes>, h: Hid8)
    ensures h in Hid8Entries(entries) <==> h in entries
  {
    if entries != [] {
      var n := |entries| - 1;
      EntriesKept(entries[..n], h);
      assert entries == entries[..n] + [entries[n]];
    }
  }

  /** The payload is this CRL, decoded strictly, or leniently if that fails. */
  ghost predicate IsCrl(p: Platform, payload: Bytes, list: ToBeSignedCrl) {
    var d := EtsiTs102941Data(Some(RevocationList(Some(list))));
    p.decEtsi(payload) == Some(d) || (p.decEtsi(payload).None? && p.decEtsiBasic(payload) == Some(d))
  }

  /** A signed list that names its signer by digest: the certificate that verifies it. */
  ghost predicate GenuineCrl(p: Platform, coer: Bytes, rcaKey: Bytes, rcaCert: Bytes, m: SignedMessage,
                             list: ToBeSignedCrl) {
    && rcaCert != [] && Unwrapped(p, coer) == Some(m) && m.tbsCoer != []
    && SignatureHolds(p, m.sigCurve, rcaKey, Is384(m.sigCurve), m.tbsCoer, rcaCert, m.sigR, m.sigS)
    && m.hasSignerDigest && m.signerHid8 == ComputeHid8(p, rcaCert)
    && IsCrl(p, m.payload, list)
  }

  /** A CRL is decoded exactly when it is genuine; it then speaks for its signer, with the dates and all the 8-byte
      entries of the list. */
  lemma DecodedCrlIff(p: Platform, coer: Bytes, rcaKey: Bytes, rcaCert: Bytes)
    ensures var r := DecodedCrl(p, coer, rcaKey, rcaCert);
            && (r.Ok? <==> exists m, list :: GenuineCrl(p, coer, rcaKey, rcaCert, m, list))
            && forall m, list | GenuineCrl(p, coer, rcaKey, rcaCert, m, list) ::
                 && r.Ok? && r.value.issuerHid8 == ComputeHid8(p, rcaCert)
                 && r.value.thisUpdate == list.thisUpdate && r.value.nextUpdate == list.nextUpdate
                 && forall h: Hid8 :: h in r.value.revoked <==> h in list.entries
  {
    var r := DecodedCrl(p, coer, rcaKey, rcaCert);
    if r.Ok? {
      var m := Unwrapped(p, coer).value;
      var list := CrlContent(DecodeEtsi(p, m.payload).value).value;
      VerifiesIff(p, m, rcaKey, rcaCert);
      assert DecodeEtsi(p, m.payload).value == EtsiTs102941Data(Some(RevocationList(Some(list))));
      assert GenuineCrl(p, coer, rcaKey, rcaCert, m, list);
    }
    forall m, list | GenuineCrl(p, coer, rcaKey, rcaCert, m, list)
      ensures r == Ok(CrlContents(ComputeHid8(p, rcaCert), list.thisUpdate, list.nextUpdate, Hid8Entries(list.entries)))
      ensures forall h: Hid8 :: h in r.value.revoked <==> h in list.entries
    {
      VerifiesIff(p, m, rcaKey, rcaCert);
      forall h: Hid8 ensures h in Hid8Entries(list.entries) <==> h in list.entries { EntriesKept(list.entries, h); }
    }
  }

  /** A decoded CRL speaks for the certificate it was verified with, and for no other issuer. */
  lemma CrlSpeaksForSigner(p: Platform, coer: Bytes, rcaKey: Bytes, rcaCert: Bytes)
    requires DecodedCrl(p, coer, rcaKey, rcaCert).Ok?
    ensures DecodedCrl(p, coer, rcaKey, rcaCert).value.issuerHid8 == ComputeHid8(p, rcaCert)
  {
  }

  // --- The store ---

  predicate RevokedIn(rev: Revocations, issuer: Hid8, cert: Hid8) { issuer in rev && cert in rev[issuer] }

  /** A next update of 0 never expires. */
  predicate Stale(crl: CrlContents, now: int) { crl.nextUpdate > 0 && now > crl.nextUpdate }

  function Applied(rev: Revocations, crl: CrlContents, now: int): Revocations {
    if Stale(crl, now) then rev else rev[crl.issuerHid8 := set h | h in crl.revoked]
  }

  class RevocationStore {
    var revoked: Revocations

    constructor ()
      ensures revoked == map[]
    {
      revoked := map[];
    }

    method Apply(crl: CrlContents, now: int) returns (accepted: bool)
      modifies this
      ensures accepted <==> !Stale(crl, now)
      ensures revoked == Applied(old(revoked), crl, now)
    {
      if crl.nextUpdate > 0 && now > crl.nextUpdate { return false; }
      var entries := set h | h in crl.revoked;
      revoked := revoked[crl.issuerHid8 := entries];
      return true;
    }

    predicate IsRevoked(issuer: Hid8, cert: Hid8)
      reads this
    {
      RevokedIn(revoked, issuer, cert)
    }
  }

  // --- Every sequence of applications ---

  datatype Application = Application(crl: CrlContents, now: int)

  function ApplyAll(log: seq<Application>): Revocations {
    if log == [] then map[] else
    var n := |log| - 1;
    Applied(ApplyAll(log[..n]), log[n].crl, log[n].now)
  }

  /** The most recent CRL of issuer i that was not stale when it was applied. */
  function LastAccepted(log: seq<Application>, i: Hid8): Option<CrlContents> {
    if log == [] then None else
    var n := |log| - 1;
    if log[n].crl.issuerHid8 == i && !Stale(log[n].crl, log[n].now) then Some(log[n].crl) else LastAccepted(log[..n], i)
  }

  lemma {:induction false} RevokedByLastAccepted(log: seq<Application>, i: Hid8, c: Hid8)
    ensures RevokedIn(ApplyAll(log), i, c) <==> LastAccepted(log, i).Some? && c in LastAccepted(log, i).value.revoked
  {
    if log != [] { RevokedByLastAccepted(log[..|log| - 1], i, c); }
  }

  /** A list past its next update changes nothing, one without a next update is never past it, and any other
      becomes what its issuer revokes. */
  lemma AppliedExactly(rev: Revocations, crl: CrlContents, now: int, i: Hid8, c: Hid8)
    ensures 0 < crl.nextUpdate < now ==> Applied(rev, crl, now) == rev
    ensures !(0 < crl.nextUpdate < now) ==>
              (RevokedIn(Applied(rev, crl, now), i, c) <==>
               if i == crl.issuerHid8 then c in crl.revoked else i in rev && c in rev[i])
  {
  }

  /** One application changes what is revoked under its own issuer only. */
  lemma OtherIssuersUntouched(rev: Revocations, crl: CrlContents, now: int, i: Hid8, c: Hid8)
    requires i != crl.issuerHid8
    ensures RevokedIn(Applied(rev, crl, now), i, c) <==> RevokedIn(rev, i, c)
  {
  }

  /** Note 2 of section 6.3.3 asks that a revocation be permanent. The store keeps one exactly when
      the new CRL is refused, is another issuer's, or still lists the certificate. */
  lemma PermanenceIff(rev: Revocations, crl: CrlContents, now: int, i: Hid8, c: Hid8)
    requires RevokedIn(rev, i, c)
    ensures RevokedIn(Applied(rev, crl, now), i, c) <==> Stale(crl, now) || crl.issuerHid8 != i || c in crl.revoked
  {
  }

  /** A shortened CRL reinstates a certificate. */
  lemma PermanenceFails(i: Hid8, c: Hid8)
    ensures var log := [Application(CrlContents(i, 1, 0, [c]), 5), Application(CrlContents(i, 2, 0, []), 6)];
            RevokedIn(ApplyAll(log[..1]), i, c) && !RevokedIn(ApplyAll(log), i, c)
  {
    var log := [Application(CrlContents(i, 1, 0, [c]), 5), Application(CrlContents(i, 2, 0, []), 6)];
    RevokedByLastAccepted(log[..1], i, c);
    RevokedByLastAccepted(log, i, c);
  }
}
