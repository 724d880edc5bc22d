/** The certificate store and chain validation (section 6 of ETSI TS 103 097). */
module TrustStore {
  import opened Basics
  import opened Sizes
  import opened PlatformModel
  import opened CertParse
  import opened Revocation

  type Store = map<Hid8, CertInfo>

  /** Signature of `cert` under `issuer`'s key, with the hash the certificate names. */
  predicate VerifiesCert(p: Platform, cert: CertInfo, issuer: CertInfo) {
    var n := ScalarLen(issuer.curve);
    && cert.tbsBytes != [] && |cert.signatureR| == n && |cert.signatureS| == n
    && issuer.publicKey != []
    && EcdsaVerifyDigest(p, issuer.publicKey,
                         DoubleHash(p, cert.issuerHash, cert.tbsBytes,
                                    if cert.isSelfSigned then [] else issuer.certBytes),
                         cert.signatureR, cert.signatureS, issuer.curve)
  }

  /** In terms of the primitives: the certificate is signed by the issuer's key, with the hash it names,
      over its own bytes and the issuer's, or no bytes if it is self-signed. */
  ghost predicate SignedBy(p: Platform, cert: CertInfo, issuer: CertInfo) {
    && cert.tbsBytes != []
    && SignatureHolds(p, issuer.curve, issuer.publicKey, cert.issuerHash == Sha384, cert.tbsBytes,
                      if cert.isSelfSigned then [] else issuer.certBytes, cert.signatureR, cert.signatureS)
  }

  lemma VerifiesCertIff(p: Platform, cert: CertInfo, issuer: CertInfo)
    ensures VerifiesCert(p, cert, issuer) <==> SignedBy(p, cert, issuer)
  {
    var signer := if cert.isSelfSigned then [] else issuer.certBytes;
    if |cert.signatureR| == |cert.signatureS| == ScalarLen(issuer.curve) {
      DigestCheckIff(p, issuer.curve, issuer.publicKey, cert.issuerHash, cert.tbsBytes, signer, cert.signatureR,
                     cert.signatureS);
    }
    if SignedBy(p, cert, issuer) { assert issuer.publicKey != []; }
  }

  // --- The declarative specification ---

  /** `issuer` vouches for `cert`: it signed it and has not revoked it. */
  predicate Vouches(p: Platform, rev: Revocations, issuer: CertInfo, cert: CertInfo) {
    VerifiesCert(p, cert, issuer) && !RevokedIn(rev, issuer.hashedId8, cert.hashedId8)
  }

  /** One issuer hop through the store. */
  predicate Hop(p: Platform, certs: Store, rev: Revocations, cert: CertInfo, issuer: CertInfo) {
    && !cert.isSelfSigned
    && cert.issuerHashId8 in certs && certs[cert.issuerHashId8] == issuer
    && Vouches(p, rev, issuer, cert)
  }

  /** A chain of any length from path[0] to a self-signed anchor that vouches for itself. */
  ghost predicate AnchoredPath(p: Platform, certs: Store, rev: Revocations, path: seq<CertInfo>) {
    && path != []
    && (forall i :: 0 <= i < |path| - 1 ==> Hop(p, certs, rev, path[i], path[i + 1]))
    && var root := path[|path| - 1]; root.isSelfSigned && Vouches(p, rev, root, root)
  }

  ghost predicate AllValid(path: seq<CertInfo>, t: int) { forall i :: 0 <= i < |path| ==> path[i].ValidAt(t) }

  ghost predicate ValidPath(p: Platform, certs: Store, rev: Revocations, c: CertInfo, t: int, path: seq<CertInfo>) {
    2 <= |path| <= 3 && path[0] == c && AnchoredPath(p, certs, rev, path) && AllValid(path, t)
  }

  /** A certificate is trusted when one or two issuer hops lead from it to an anchor. */
  ghost predicate Trusted(p: Platform, certs: Store, rev: Revocations, c: CertInfo, t: int) {
    exists path :: ValidPath(p, certs, rev, c, t, path)
  }

  // --- The recursive form ---

  /** Reaches an anchor within `hops` issuer links. */
  predicate Reaches(p: Platform, certs: Store, rev: Revocations, c: CertInfo, t: int, hops: nat)
    decreases hops
  {
    && c.ValidAt(t)
    && if c.isSelfSigned then Vouches(p, rev, c, c)
       else
         && hops > 0
         && c.issuerHashId8 in certs
         && Vouches(p, rev, certs[c.issuerHashId8], c)
         && Reaches(p, certs, rev, certs[c.issuerHashId8], t, hops - 1)
  }

  predicate ValidChain(p: Platform, certs: Store, rev: Revocations, c: CertInfo, t: int) {
    !c.isSelfSigned && Reaches(p, certs, rev, c, t, 2)
  }

  /** Reachability within a bound is a path of at most that many links, for every bound. */
  lemma {:induction false} ReachesIffPath(p: Platform, certs: Store, rev: Revocations, c: CertInfo, t: int, hops: nat)
    ensures Reaches(p, certs, rev, c, t, hops) <==>
            exists path :: |path| <= hops + 1 && AnchoredPath(p, certs, rev, path) && path[0] == c && AllValid(path, t)
  {
    if Reaches(p, certs, rev, c, t, hops) {
      var path := PathFrom(p, certs, rev, c, t, hops);
    }
    forall path | |path| <= hops + 1 && AnchoredPath(p, certs, rev, path) && path[0] == c && AllValid(path, t)
      ensures Reaches(p, certs, rev, c, t, hops)
    {
      PathReaches(p, certs, rev, path, t, hops);
    }
  }

  lemma {:induction false} PathFrom(p: Platform, certs: Store, rev: Revocations, c: CertInfo, t: int, hops: nat)
      returns (path: seq<CertInfo>)
    requires Reaches(p, certs, rev, c, t, hops)
    ensures |path| <= hops + 1 && AnchoredPath(p, certs, rev, path) && path[0] == c && AllValid(path, t)
    decreases hops
  {
    if c.isSelfSigned {
      path := [c];
    } else {
      var rest := PathFrom(p, certs, rev, certs[c.issuerHashId8], t, hops - 1);
      path := [c] + rest;
      forall i | 0 <= i < |path| - 1 ensures Hop(p, certs, rev, path[i], path[i + 1]) {
        if i > 0 { assert path[i] == rest[i - 1] && path[i + 1] == rest[i]; }
      }
    }
  }

  lemma TailAnchored(p: Platform, certs: Store, rev: Revocations, path: seq<CertInfo>)
    requires AnchoredPath(p, certs, rev, path) && |path| > 1
    ensures Hop(p, certs, rev, path[0], path[1])
    ensures AnchoredPath(p, certs, rev, path[1..])
  {
    forall i | 0 <= i < |path[1..]| - 1 ensures Hop(p, certs, rev, path[1..][i], path[1..][i + 1]) {
      assert Hop(p, certs, rev, path[i + 1], path[i + 2]);
    }
  }

  lemma {:induction false} PathReaches(p: Platform, certs: Store, rev: Revocations, path: seq<CertInfo>, t: int,
                                       hops: nat)
    requires |path| <= hops + 1 && AnchoredPath(p, certs, rev, path) && AllValid(path, t)
    ensures Reaches(p, certs, rev, path[0], t, hops)
    decreases hops
  {
    if |path| > 1 {
      TailAnchored(p, certs, rev, path);
      PathReaches(p, certs, rev, path[1..], t, hops - 1);
    }
  }

  /** The procedure accepts exactly the certificates that the path specification trusts. */
  lemma ValidChainIffTrusted(p: Platform, certs: Store, rev: Revocations, c: CertInfo, t: int)
    ensures ValidChain(p, certs, rev, c, t) <==> Trusted(p, certs, rev, c, t)
  {
    ReachesIffPath(p, certs, rev, c, t, 2);
    if ValidChain(p, certs, rev, c, t) {
      var path := PathFrom(p, certs, rev, c, t, 2);
      assert |path| > 1;
      assert ValidPath(p, certs, rev, c, t, path);
    }
    if Trusted(p, certs, rev, c, t) {
      var path :| ValidPath(p, certs, rev, c, t, path);
      assert Hop(p, certs, rev, path[0], path[1]);
    }
  }

  predicate RevokedUnder(rev: Revocations, issuer: CertInfo, cert: CertInfo) {
    issuer.hashedId8 in rev && cert.hashedId8 in rev[issuer.hashedId8]
  }

  /** Acceptance written out, down to the primitives: an authority in the store signed the certificate
      and did not revoke it, and the authority is either itself a root or signed and not revoked by
      one in the store; the root signed itself and did not revoke itself; all are valid now. */
  lemma AcceptedExactly(p: Platform, certs: Store, rev: Revocations, c: CertInfo, t: int)
    ensures ValidChain(p, certs, rev, c, t) <==>
            && !c.isSelfSigned && c.ValidAt(t) && c.issuerHashId8 in certs
            && var ca := certs[c.issuerHashId8];
            && ca.ValidAt(t) && SignedBy(p, c, ca) && !RevokedUnder(rev, ca, c)
            && if ca.isSelfSigned then SignedBy(p, ca, ca) && !RevokedUnder(rev, ca, ca)
               else
                 && ca.issuerHashId8 in certs
                 && var root := certs[ca.issuerHashId8];
                 && root.isSelfSigned && root.ValidAt(t)
                 && SignedBy(p, ca, root) && !RevokedUnder(rev, root, ca)
                 && SignedBy(p, root, root) && !RevokedUnder(rev, root, root)
  {
    if c.issuerHashId8 in certs {
      var ca := certs[c.issuerHashId8];
      VouchesExactly(p, rev, ca, c);
      VouchesExactly(p, rev, ca, ca);
      assert Reaches(p, certs, rev, c, t, 2) ==> Reaches(p, certs, rev, ca, t, 1) || c.isSelfSigned;
      if ca.issuerHashId8 in certs {
        var root := certs[ca.issuerHashId8];
        VouchesExactly(p, rev, root, ca);
        VouchesExactly(p, rev, root, root);
        assert Reaches(p, certs, rev, root, t, 0) <==>
               root.ValidAt(t) && root.isSelfSigned && Vouches(p, rev, root, root);
      }
    }
  }

  lemma VouchesExactly(p: Platform, rev: Revocations, issuer: CertInfo, cert: CertInfo)
    ensures Vouches(p, rev, issuer, cert) <==> SignedBy(p, cert, issuer) && !RevokedUnder(rev, issuer, cert)
  {
    VerifiesCertIff(p, cert, issuer);
  }

  /** However the issuer links of the store loop, a path to an anchor never repeats a certificate:
      a loop leads to no anchor, at any depth. */
  lemma AnchoredPathsAcyclic(p: Platform, certs: Store, rev: Revocations, path: seq<CertInfo>, i: nat, j: nat)
    requires AnchoredPath(p, certs, rev, path) && i < j < |path|
    ensures path[i] != path[j]
  {
    if path[i] == path[j] {
      var k := |path| - 1 - j;
      assert Hop(p, certs, rev, path[i + k], path[i + k + 1]);
      SameTail(p, certs, rev, path, i, j, k);
    }
  }

  lemma {:induction false} SameTail(p: Platform, certs: Store, rev: Revocations, path: seq<CertInfo>, i: nat,
                                    j: nat, k: nat)
    requires AnchoredPath(p, certs, rev, path) && i < j && j + k < |path| && path[i] == path[j]
    ensures path[i + k] == path[j + k]
    decreases k
  {
    if k > 0 {
      SameTail(p, certs, rev, path, i, j, k - 1);
      assert Hop(p, certs, rev, path[i + k - 1], path[i + k]);
      assert Hop(p, certs, rev, path[j + k - 1], path[j + k]);
    }
  }

  // --- The store object ---

  /** An entry of the certificate directory; what cannot be read has no contents. */
  datatype DirEntry = DirEntry(isRegular: bool, extension: string, stem: string, contents: Option<Bytes>)

  /** The certificate an entry gives: a readable, non-empty regular file named *.cert that parses. */
  function CertIn(p: Platform, entry: DirEntry): Option<CertInfo> {
    if !entry.isRegular || entry.extension != ".cert" then None else
    var raw :- entry.contents;
    if raw == [] then None else
    var ci :- FromCoer(p, raw);
    Some(ci.(name := entry.stem))
  }

  /** Other entries are passed over; later files replace earlier ones of the same identity. */
  function Loaded(p: Platform, certs: Store, entries: seq<DirEntry>): Store {
    if entries == [] then certs else
    var rest := Loaded(p, certs, entries[..|entries| - 1]);
    match CertIn(p, entries[|entries| - 1])
    case None => rest
    case Some(ci) => rest[ci.hashedId8 := ci]
  }

  /** A file counts exactly when it is a regular one named *.cert, not empty and no longer than a message,
      and parses. */
  lemma CertInIff(p: Platform, entry: DirEntry, ci: CertInfo)
    ensures CertIn(p, entry) == Some(ci) <==>
            && entry.isRegular && entry.extension == ".cert"
            && exists raw, cert ::
                 && entry.contents == Some(raw) && 0 < |raw| <= 2048 && p.decCert(raw) == Some(cert)
                 && ci == FromStruct(p, cert, raw).(name := entry.stem)
  {
  }

  /** The entries of a directory; a path that is none has nothing to load. */
  function Entries(dir: Option<seq<DirEntry>>): seq<DirEntry> { if dir.Some? then dir.value else [] }

  class TrustChain {
    const p: Platform
    var certs: Store
    var revocation: RevocationStore?

    constructor (platform: Platform)
      ensures p == platform && certs == map[] && revocation == null
    {
      p := platform;
      certs := map[];
      revocation := null;
    }

    /** What is revoked, as seen through the shared store. */
    function Revoked(): Revocations
      reads this, revocation
    {
      if revocation == null then map[] else revocation.revoked
    }

    method SetRevocationStore(store: RevocationStore)
      modifies this`revocation
      ensures revocation == store
    {
      revocation := store;
    }

    method AddCert(ci: CertInfo)
      modifies this`certs
      ensures certs == old(certs)[ci.hashedId8 := ci]
    {
      certs := certs[ci.hashedId8 := ci];
    }

    method LoadFromDirectory(dir: Option<seq<DirEntry>>) returns (loadedAny: bool)
      modifies this`certs
      ensures certs == Loaded(p, old(certs), Entries(dir))
      ensures loadedAny <==> exists i :: 0 <= i < |Entries(dir)| && CertIn(p, Entries(dir)[i]).Some?
    {
      loadedAny := false;
      if dir.None? { return; }
      var entries := dir.value;
      for i := 0 to |entries|
        invariant certs == Loaded(p, old(certs), entries[..i])
        invariant loadedAny <==> exists j :: 0 <= j < i && CertIn(p, entries[j]).Some?
      {
        assert entries[..i + 1][..i] == entries[..i];
        var entry := entries[i];
        if entry.isRegular && entry.extension == ".cert" && entry.contents.Some? && entry.contents.value != [] {
          var ci := FromCoer(p, entry.contents.value);
          if ci.Some? {
            AddCert(ci.value.(name := entry.stem));
            loadedAny := true;
          }
        }
      }
      assert entries[..|entries|] == entries;
    }

    function Find(hid8: Hid8): Option<CertInfo>
      reads this
    {
      if hid8 in certs then Some(certs[hid8]) else None
    }

    predicate IsRevokedByIssuer(cert: CertInfo, issuer: CertInfo)
      reads this, revocation
    {
      revocation != null && revocation.IsRevoked(issuer.hashedId8, cert.hashedId8)
    }

    method VerifyCertSignature(cert: CertInfo, issuer: CertInfo) returns (ok: bool)
      ensures ok == VerifiesCert(p, cert, issuer)
    {
      var slen := ScalarLen(issuer.curve);
      if cert.tbsBytes == [] || |cert.signatureR| != slen || |cert.signatureS| != slen { return false; }
      if issuer.publicKey == [] { return false; }
      var concat := Hash(p, cert.issuerHash, cert.tbsBytes);
      var signerInput: Bytes := [];
      if !cert.isSelfSigned { signerInput := issuer.certBytes; }
      concat := concat + Hash(p, cert.issuerHash, signerInput);
      var digest := Hash(p, cert.issuerHash, concat);
      ok := EcdsaVerifyDigest(p, issuer.publicKey, digest, cert.signatureR, cert.signatureS, issuer.curve);
    }

    /** The early-exit procedure of the client. */
    method ValidateChain(at: CertInfo, now: int) returns (ok: bool)
      ensures ok == ValidChain(p, certs, Revoked(), at, now)
    {
      if at.isSelfSigned { return false; }
      if !at.ValidAt(now) { return false; }
      var aaOpt := Find(at.issuerHashId8);
      if aaOpt.None? { return false; }
      var aa := aaOpt.value;
      if !aa.ValidAt(now) { return false; }
      var signed := VerifyCertSignature(at, aa);
      if !signed { return false; }
      if IsRevokedByIssuer(at, aa) { return false; }
      if aa.isSelfSigned {
        if IsRevokedByIssuer(aa, aa) { return false; }
        ok := VerifyCertSignature(aa, aa);
        return;
      }
      var rcaOpt := Find(aa.issuerHashId8);
      if rcaOpt.None? { return false; }
      var rca := rcaOpt.value;
      if !rca.ValidAt(now) { return false; }
      signed := VerifyCertSignature(aa, rca);
      if !signed { return false; }
      if IsRevokedByIssuer(aa, rca) { return false; }
      if !rca.isSelfSigned { return false; }
      if IsRevokedByIssuer(rca, rca) { return false; }
      ok := VerifyCertSignature(rca, rca);
    }
  }

  // --- Consequences ---

  /** The chain of a certificate, as far as three members. */
  function Chain(certs: Store, c: CertInfo, hops: nat): (r: seq<CertInfo>)
    ensures r != []
    decreases hops
  {
    if c.isSelfSigned || hops == 0 || c.issuerHashId8 !in certs then [c]
    else [c] + Chain(certs, certs[c.issuerHashId8], hops - 1)
  }

  function LatestStart(path: seq<CertInfo>): int
    requires path != []
  {
    if |path| == 1 then path[0].Start() else Max(path[0].Start(), LatestStart(path[1..]))
  }

  function EarliestEnd(path: seq<CertInfo>): int
    requires path != []
  {
    if |path| == 1 then path[0].End() else Min(path[0].End(), EarliestEnd(path[1..]))
  }

  /** Everything validation asks of a chain apart from the clock. */
  predicate Sound(p: Platform, certs: Store, rev: Revocations, c: CertInfo, hops: nat)
    decreases hops
  {
    if c.isSelfSigned then Vouches(p, rev, c, c)
    else
      && hops > 0
      && c.issuerHashId8 in certs
      && Vouches(p, rev, certs[c.issuerHashId8], c)
      && Sound(p, certs, rev, certs[c.issuerHashId8], hops - 1)
  }

  ghost predicate StoreWellParsed(p: Platform, certs: Store) { forall k :: k in certs ==> WellParsed(p, certs[k]) }

  lemma {:induction false} ReachesWindow(p: Platform, certs: Store, rev: Revocations, c: CertInfo, t: int, hops: nat)
    requires StoreWellParsed(p, certs) && WellParsed(p, c)
    ensures Reaches(p, certs, rev, c, t, hops) <==>
            Sound(p, certs, rev, c, hops)
            && LatestStart(Chain(certs, c, hops)) <= t < EarliestEnd(Chain(certs, c, hops))
    decreases hops
  {
    WellParsedWindow(p, c, t);
    if !c.isSelfSigned && hops > 0 && c.issuerHashId8 in certs {
      var rest := Chain(certs, certs[c.issuerHashId8], hops - 1);
      ReachesWindow(p, certs, rev, certs[c.issuerHashId8], t, hops - 1);
      assert ([c] + rest)[1..] == rest;
    }
  }

  /** For a fixed store the accepted times of a certificate are none, or the half-open interval from
      the latest start to the earliest end along its chain. */
  lemma AcceptedTimes(p: Platform, certs: Store, rev: Revocations, c: CertInfo, t: int)
    requires StoreWellParsed(p, certs) && WellParsed(p, c)
    ensures ValidChain(p, certs, rev, c, t) <==>
            !c.isSelfSigned && Sound(p, certs, rev, c, 2) &&
            LatestStart(Chain(certs, c, 2)) <= t < EarliestEnd(Chain(certs, c, 2))
  {
    ReachesWindow(p, certs, rev, c, t, 2);
  }

  /** More certificates never hurt, more revocations never help. */
  lemma {:induction false} ReachesMonotone(p: Platform, certs: Store, rev: Revocations, more: Store,
                                           fewer: Revocations, c: CertInfo, t: int, hops: nat)
    requires forall k :: k in certs ==> k in more && more[k] == certs[k]
    requires forall i, h :: RevokedIn(fewer, i, h) ==> RevokedIn(rev, i, h)
    requires Reaches(p, certs, rev, c, t, hops)
    ensures Reaches(p, more, fewer, c, t, hops)
    decreases hops
  {
    if !c.isSelfSigned { ReachesMonotone(p, certs, rev, more, fewer, certs[c.issuerHashId8], t, hops - 1); }
  }

  lemma AddingKeepsAccepting(p: Platform, certs: Store, rev: Revocations, added: CertInfo, c: CertInfo, t: int)
    requires added.hashedId8 !in certs && ValidChain(p, certs, rev, c, t)
    ensures ValidChain(p, certs[added.hashedId8 := added], rev, c, t)
  {
    ReachesMonotone(p, certs, rev, certs[added.hashedId8 := added], rev, c, t, 2);
  }

  lemma RevokingKeepsRejecting(p: Platform, certs: Store, rev: Revocations, more: Revocations, c: CertInfo, t: int)
    requires forall i, h :: RevokedIn(rev, i, h) ==> RevokedIn(more, i, h)
    requires !ValidChain(p, certs, rev, c, t)
    ensures !ValidChain(p, certs, more, c, t)
  {
    if ValidChain(p, certs, more, c, t) { ReachesMonotone(p, certs, more, certs, rev, c, t, 2); }
  }

  /** Overwriting a used key can turn accept into reject: here by replacing the issuer with a
      certificate that is never valid. */
  lemma ReplacingMayReject(p: Platform, certs: Store, rev: Revocations, replaced: CertInfo, c: CertInfo, t: int)
    requires ValidChain(p, certs, rev, c, t)
    requires replaced.hashedId8 == c.issuerHashId8 && replaced.validityDuration == 0
    ensures !ValidChain(p, certs[replaced.hashedId8 := replaced], rev, c, t)
  {
  }

  /** Only the issuers along the chain matter: an entry under any other key can be overwritten or
      added without changing the verdict. */
  lemma OnlyTheChainMatters(p: Platform, certs: Store, rev: Revocations, other: CertInfo, c: CertInfo, t: int)
    requires other.hashedId8 != c.issuerHashId8
    requires c.issuerHashId8 in certs ==> other.hashedId8 != certs[c.issuerHashId8].issuerHashId8
    ensures ValidChain(p, certs[other.hashedId8 := other], rev, c, t) <==> ValidChain(p, certs, rev, c, t)
  {
    var certs' := certs[other.hashedId8 := other];
    if c.issuerHashId8 in certs {
      var issuer := certs[c.issuerHashId8];
      if !issuer.isSelfSigned && issuer.issuerHashId8 in certs {
        var root := certs[issuer.issuerHashId8];
        assert Reaches(p, certs', rev, root, t, 0) == Reaches(p, certs, rev, root, t, 0);
      }
      assert Reaches(p, certs', rev, issuer, t, 1) == Reaches(p, certs, rev, issuer, t, 1);
    }
  }

  /** Whatever link of an accepted chain one looks at, the hash named by the certificate is the
      one its issuer's curve calls for. */
  lemma LinkHashMatchesIssuer(p: Platform, cert: CertInfo, issuer: CertInfo)
    requires VerifiesCert(p, cert, issuer)
    ensures cert.issuerHash == CurveHash(issuer.curve)
  {
  }

  // --- Missing anchors ---

  predicate IssuerChainPresent(certs: Store, c: CertInfo) {
    && c.issuerHashId8 in certs
    && var issuer := certs[c.issuerHashId8];
       issuer.isSelfSigned || issuer.issuerHashId8 in certs
  }

  /** The missing-anchor test never stands in the way of a chain that would validate. */
  lemma AnchorTestIsSafe(p: Platform, certs: Store, rev: Revocations, c: CertInfo, t: int)
    requires ValidChain(p, certs, rev, c, t)
    ensures IssuerChainPresent(certs, c)
  {
    assert Reaches(p, certs, rev, certs[c.issuerHashId8], t, 1);
  }
}
