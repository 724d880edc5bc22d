/** ECIES of section 5.3.5 of IEEE 1609.2: KDF2, key wrap by XOR, MAC check, AES-128-CCM. */
module Ecies {
  import opened Basics
  import opened Sizes
  import opened PlatformModel

  // --- KDF2 with SHA-256 ---

  /** Big-endian 32-bit counter. */
  function Be32(c: bv32): (r: Bytes)
    ensures |r| == 4
  {
    [((c >> 24) & 0xFF) as bv8, ((c >> 16) & 0xFF) as bv8, ((c >> 8) & 0xFF) as bv8, (c & 0xFF) as bv8]
  }

  /** The counter of block i: it starts at 1 and wraps at 32 bits. */
  function Counter(i: nat): bv32 {
    if i == 0 then 1 else Counter(i - 1) + 1
  }

  /** No two counters share their four bytes. */
  lemma Be32Decodes(c: bv32)
    ensures var b := Be32(c);
            c == ((b[0] as bv32) << 24) | ((b[1] as bv32) << 16) | ((b[2] as bv32) << 8) | (b[3] as bv32)
  {
  }

  /** Block i of the key stream. */
  function KdfBlock(p: Platform, z: Bytes, p1: Bytes, i: nat): Digest32 {
    p.sha256(z + Be32(Counter(i)) + p1)
  }

  function KdfBlocks(p: Platform, z: Bytes, p1: Bytes): nat -> Digest32 {
    (i: nat) => KdfBlock(p, z, p1, i)
  }

  /** The first n blocks of a stream, joined. */
  function Joined(block: nat -> Digest32, n: nat): (r: Bytes)
    ensures |r| == 32 * n
  {
    if n == 0 then [] else Joined(block, n - 1) + block(n - 1)
  }

  function Kdf2(p: Platform, z: Bytes, p1: Bytes, outLen: nat): (r: Bytes)
    ensures |r| == outLen
  {
    Joined(KdfBlocks(p, z, p1), (outLen + 31) / 32)[..outLen]
  }

  lemma {:induction false} JoinedPrefix(block: nat -> Digest32, m: nat, n: nat)
    requires m <= n
    ensures Joined(block, m) == Joined(block, n)[..32 * m]
    decreases n
  {
    if m < n { JoinedPrefix(block, m, n - 1); }
  }

  /** A shorter key is a prefix of a longer one from the same secret. */
  lemma Kdf2Prefix(p: Platform, z: Bytes, p1: Bytes, m: nat, n: nat)
    requires m <= n
    ensures Kdf2(p, z, p1, m) == Kdf2(p, z, p1, n)[..m]
  {
    JoinedPrefix(KdfBlocks(p, z, p1), (m + 31) / 32, (n + 31) / 32);
  }

  lemma JoinedStep(block: nat -> Digest32, i: nat, outLen: nat)
    requires 32 * i < outLen
    ensures Joined(block, i) + block(i)[..Min(32, outLen - 32 * i)] == Joined(block, i + 1)[..Min(32 * (i + 1), outLen)]
  {
  }

  lemma SliceOfPrefix(s: Bytes, len: nat, a: nat, b: nat, len': nat)
    requires a <= b <= len <= |s| && b <= len' <= |s|
    ensures s[..len][a..b] == s[..len'][a..b]
  {
  }

  lemma JoinedSlice(block: nat -> Digest32, n: nat, outLen: nat, j: nat, k: nat)
    requires j < n && k <= 32 && 32 * j + k <= outLen <= 32 * n
    ensures Joined(block, n)[..outLen][32 * j..32 * j + k] == block(j)[..k]
  {
    JoinedPrefix(block, j + 1, n);
    var s := Joined(block, n);
    SliceOfPrefix(s, outLen, 32 * j, 32 * j + k, 32 * (j + 1));
    assert s[..32 * (j + 1)][32 * j..32 * j + k] == block(j)[..k];
  }

  /** The j-th 32 bytes are the hash of Z, the big-endian counter of block j and P1. */
  lemma Kdf2Block(p: Platform, z: Bytes, p1: Bytes, outLen: nat, j: nat)
    requires 32 * j < outLen
    ensures var k := Min(32, outLen - 32 * j);
            Kdf2(p, z, p1, outLen)[32 * j..32 * j + k] == p.sha256(z + Be32(Counter(j)) + p1)[..k]
  {
    JoinedSlice(KdfBlocks(p, z, p1), (outLen + 31) / 32, outLen, j, Min(32, outLen - 32 * j));
  }

  method Kdf2Sha256(p: Platform, z: Bytes, p1: Bytes, outLen: nat) returns (result: Bytes)
    ensures result == Kdf2(p, z, p1, outLen)
  {
    result := [];
    var counter: bv32 := 1;
    ghost var i: nat := 0;
    ghost var block := KdfBlocks(p, z, p1);
    while |result| < outLen
      invariant counter == Counter(i)
      invariant result == Joined(block, i)[..Min(32 * i, outLen)]
      invariant 32 * i < outLen + 32
      decreases outLen - |result|
    {
      assert result == Joined(block, i);
      var hash := p.sha256(z + Be32(counter) + p1);
      assert hash == block(i);
      JoinedStep(block, i, outLen);
      var toCopy := Min(|hash|, outLen - |result|);
      result := result + hash[..toCopy];
      counter := counter + 1;
      i := i + 1;
    }
    assert i == (outLen + 31) / 32;
  }

  // --- Key wrap ---

  function Xor(a: Bytes, b: Bytes): (r: Bytes)
    requires |a| == |b|
    ensures |r| == |a|
  {
    seq(|a|, i requires 0 <= i < |a| => a[i] ^ b[i])
  }

  lemma XorUndoes(a: Bytes, b: Bytes)
    requires |a| == |b|
    ensures Xor(a, Xor(a, b)) == b
  {
    forall i | 0 <= i < |a| ensures a[i] ^ (a[i] ^ b[i]) == b[i] {}
  }

  method XorKeys(a: Bytes, b: Bytes) returns (r: Bytes)
    requires |a| == |b| == 16
    ensures r == Xor(a, b)
  {
    var out := new bv8[16];
    for i := 0 to 16
      invariant forall j :: 0 <= j < i ==> out[j] == a[j] ^ b[j]
    {
      out[i] := a[i] ^ b[i];
    }
    r := out[..];
  }

  // --- ECIES ---

  datatype EciesResult = EciesResult(
    ephemeralPubkey: Bytes,
    encryptedKey: Bytes,
    tagKdf: Bytes,
    nonceCcm: Bytes,
    ciphertext: Bytes,
    tagCcm: Bytes,
    aesKey: Bytes)

  /** The random values one encryption draws: ephemeral scalar, content key and nonce. */
  datatype EciesEntropy = EciesEntropy(ephemeral: Bytes, aesKey: AesKey, nonce: CcmNonce)

  function WrapTag(p: Platform, kdf: Bytes, c: Bytes): (r: Bytes)
    requires |kdf| == 48
    ensures |r| == 16
  {
    p.hmac(kdf[16..], c)[..16]
  }

  function EciesEncrypted(p: Platform, recipientKey: Bytes, plaintext: Bytes, p1: Bytes, curve: Curve,
                          rnd: EciesEntropy)
    : Option<EciesResult>
  {
    if !p.PrivateOk(curve, rnd.ephemeral) then None else
    var ss :- EcdhDerive(p, rnd.ephemeral, recipientKey, curve);
    var kdf := Kdf2(p, ss, p1, 48);
    var c := Xor(kdf[..16], rnd.aesKey);
    var ccm :- CcmSeal(p, rnd.aesKey, rnd.nonce, plaintext);
    Some(EciesResult(p.publicOf(curve, rnd.ephemeral), c, WrapTag(p, kdf, c), rnd.nonce, ccm.0, ccm.1, rnd.aesKey))
  }

  /** The content key a recipient recovers, if the MAC over its wrapping is right. */
  function UnwrappedKey(p: Platform, priv: Bytes, enc: EciesResult, p1: Bytes, curve: Curve): Option<Bytes> {
    var ss :- EcdhDerive(p, priv, enc.ephemeralPubkey, curve);
    var kdf := Kdf2(p, ss, p1, 48);
    if |enc.tagKdf| != 16 || WrapTag(p, kdf, enc.encryptedKey) != enc.tagKdf then None
    else if |enc.encryptedKey| != 16 then None
    else Some(Xor(kdf[..16], enc.encryptedKey))
  }

  function EciesDecrypted(p: Platform, priv: Bytes, enc: EciesResult, p1: Bytes, curve: Curve): Option<Bytes> {
    var key :- UnwrappedKey(p, priv, enc, p1, curve);
    CcmOpen(p, key, enc.nonceCcm, enc.ciphertext, enc.tagCcm)
  }

  method EciesEncrypt(p: Platform, recipientKey: Bytes, plaintext: Bytes, p1: Bytes, curve: Curve, rnd: EciesEntropy)
    returns (r: Option<EciesResult>)
    ensures r == EciesEncrypted(p, recipientKey, plaintext, p1, curve, rnd)
  {
    if !p.PrivateOk(curve, rnd.ephemeral) { return None; }
    var ss := EcdhDerive(p, rnd.ephemeral, recipientKey, curve);
    if ss.None? { return None; }
    var kdfOut := Kdf2Sha256(p, ss.value, p1, 48);
    var k1, k2 := kdfOut[..16], kdfOut[16..];
    var c := XorKeys(k1, rnd.aesKey);
    var tagKdf := p.hmac(k2, c)[..16];
    var ccm := CcmSeal(p, rnd.aesKey, rnd.nonce, plaintext);
    if ccm.None? { return None; }
    r := Some(EciesResult(p.publicOf(curve, rnd.ephemeral), c, tagKdf, rnd.nonce, ccm.value.0, ccm.value.1,
                          rnd.aesKey));
  }

  method EciesDecrypt(p: Platform, priv: Bytes, enc: EciesResult, p1: Bytes, curve: Curve) returns (r: Option<Bytes>)
    ensures r == EciesDecrypted(p, priv, enc, p1, curve)
  {
    var ss := EcdhDerive(p, priv, enc.ephemeralPubkey, curve);
    if ss.None? { return None; }
    var kdfOut := Kdf2Sha256(p, ss.value, p1, 48);
    var k1, k2 := kdfOut[..16], kdfOut[16..];
    var mac := p.hmac(k2, enc.encryptedKey);
    if |enc.tagKdf| != 16 || mac[..16] != enc.tagKdf { return None; }
    if |enc.encryptedKey| != 16 { return None; }
    var kAes := XorKeys(k1, enc.encryptedKey);
    r := CcmOpen(p, kAes, enc.nonceCcm, enc.ciphertext, enc.tagCcm);
  }

  /** Whoever holds the recipient's private key recovers both the content key and the plaintext,
      for every P1, and in whichever SEC1 form the ephemeral key reaches them. */
  lemma EciesRoundTrip(p: Platform, recipientKey: Bytes, priv: Bytes, plaintext: Bytes, p1: Bytes, curve: Curve,
                       rnd: EciesEntropy, enc: EciesResult, ephemeral: Bytes)
    requires p.CurveLaws() && p.CipherLaws()
    requires KeysMatch(p, curve, recipientKey, priv)
    requires EciesEncrypted(p, recipientKey, plaintext, p1, curve, rnd) == Some(enc)
    requires KeysMatch(p, curve, ephemeral, rnd.ephemeral)
    ensures UnwrappedKey(p, priv, enc.(ephemeralPubkey := ephemeral), p1, curve) == Some(rnd.aesKey)
    ensures EciesDecrypted(p, priv, enc.(ephemeralPubkey := ephemeral), p1, curve) == Some(plaintext)
  {
    var ss := EcdhDerive(p, rnd.ephemeral, recipientKey, curve);
    assert EcdhDerive(p, priv, ephemeral, curve) == ss;
    XorUndoes(Kdf2(p, ss.value, p1, 48)[..16], rnd.aesKey);
  }

  // --- ECIES in terms of the primitives ---

  /** The wrapping key K1 and the MAC key K2 that both sides derive from a shared secret. */
  ghost predicate DerivedKeys(p: Platform, z: Bytes, p1: Bytes, k1: Bytes, k2: Bytes) {
    && |k1| == 16 && |k2| == 32
    && k1 + k2 == p.sha256(z + [0, 0, 0, 1] + p1) + p.sha256(z + [0, 0, 0, 2] + p1)[..16]
  }

  lemma KeysDerived(p: Platform, z: Bytes, p1: Bytes, k1: Bytes, k2: Bytes)
    ensures DerivedKeys(p, z, p1, k1, k2) <==> k1 == Kdf2(p, z, p1, 48)[..16] && k2 == Kdf2(p, z, p1, 48)[16..]
  {
    var kdf := Kdf2(p, z, p1, 48);
    Kdf2Block(p, z, p1, 48, 0);
    Kdf2Block(p, z, p1, 48, 1);
    assert Counter(1) == 2 && Be32(1) == [0, 0, 0, 1] && Be32(2) == [0, 0, 0, 2];
    assert kdf == kdf[..32] + kdf[32..];
    assert kdf == kdf[..16] + kdf[16..];
    if DerivedKeys(p, z, p1, k1, k2) {
      assert (k1 + k2)[..16] == k1 && (k1 + k2)[16..] == k2;
    }
  }

  /** Byte by byte, c is the XOR of the two keys. */
  predicate WrapsTo(k: Bytes, key: Bytes, c: Bytes) {
    |k| == |key| == |c| == 16 && forall i :: 0 <= i < 16 ==> c[i] == k[i] ^ key[i]
  }

  /** The shared secret of a private key and a public one, in either SEC1 form. */
  ghost predicate Agreed(p: Platform, curve: Curve, priv: Bytes, pub: Bytes, z: Bytes) {
    p.PrivateOk(curve, priv) && exists q :: NamesPoint(p, curve, pub, q) && p.dh(curve, priv, q) == Some(z)
  }

  lemma AgreedIff(p: Platform, curve: Curve, priv: Bytes, pub: Bytes, z: Bytes)
    ensures EcdhDerive(p, priv, pub, curve) == Some(z) <==> Agreed(p, curve, priv, pub, z)
  {
    var q := ImportPublic(p, curve, pub);
    if q.Some? { ImportNames(p, curve, pub, q.value); }
    if Agreed(p, curve, priv, pub, z) {
      var q' :| NamesPoint(p, curve, pub, q') && p.dh(curve, priv, q') == Some(z);
      ImportNames(p, curve, pub, q');
    }
  }

  ghost predicate Unlocks(p: Platform, priv: Bytes, enc: EciesResult, p1: Bytes, curve: Curve, z: Bytes, k1: Bytes,
                          k2: Bytes, key: Bytes)
  {
    && Agreed(p, curve, priv, enc.ephemeralPubkey, z) && DerivedKeys(p, z, p1, k1, k2)
    && enc.tagKdf == p.hmac(k2, enc.encryptedKey)[..16]
    && WrapsTo(k1, enc.encryptedKey, key)
  }

  /** A key is unwrapped exactly when the MAC of its wrapping under K2 is the one received, and then it is
      the wrapping XOR K1. */
  lemma UnwrappedKeyIff(p: Platform, priv: Bytes, enc: EciesResult, p1: Bytes, curve: Curve, key: Bytes)
    ensures UnwrappedKey(p, priv, enc, p1, curve) == Some(key) <==>
            exists z, k1, k2 :: Unlocks(p, priv, enc, p1, curve, z, k1, k2, key)
  {
    if UnwrappedKey(p, priv, enc, p1, curve) == Some(key) {
      var z := EcdhDerive(p, priv, enc.ephemeralPubkey, curve).value;
      var kdf := Kdf2(p, z, p1, 48);
      AgreedIff(p, curve, priv, enc.ephemeralPubkey, z);
      KeysDerived(p, z, p1, kdf[..16], kdf[16..]);
      assert Unlocks(p, priv, enc, p1, curve, z, kdf[..16], kdf[16..], key);
    }
    forall z, k1, k2 | Unlocks(p, priv, enc, p1, curve, z, k1, k2, key)
      ensures UnwrappedKey(p, priv, enc, p1, curve) == Some(key)
    {
      AgreedIff(p, curve, priv, enc.ephemeralPubkey, z);
      KeysDerived(p, z, p1, k1, k2);
      assert key == Xor(k1, enc.encryptedKey);
    }
  }

  /** Decryption succeeds exactly when a key is unwrapped, after its MAC, and the content opens under it. */
  lemma EciesDecryptedIff(p: Platform, priv: Bytes, enc: EciesResult, p1: Bytes, curve: Curve, plaintext: Bytes)
    ensures EciesDecrypted(p, priv, enc, p1, curve) == Some(plaintext) <==>
            exists z, k1, k2, key ::
              && Unlocks(p, priv, enc, p1, curve, z, k1, k2, key)
              && |enc.nonceCcm| == 12 && |enc.tagCcm| == 16
              && p.open(key, enc.nonceCcm, enc.ciphertext, enc.tagCcm) == Some(plaintext)
  {
    if EciesDecrypted(p, priv, enc, p1, curve) == Some(plaintext) {
      var key := UnwrappedKey(p, priv, enc, p1, curve).value;
      UnwrappedKeyIff(p, priv, enc, p1, curve, key);
      var z, k1, k2 :| Unlocks(p, priv, enc, p1, curve, z, k1, k2, key);
      assert p.open(key, enc.nonceCcm, enc.ciphertext, enc.tagCcm) == Some(plaintext);
    }
    forall z, k1, k2, key | Unlocks(p, priv, enc, p1, curve, z, k1, k2, key)
      ensures UnwrappedKey(p, priv, enc, p1, curve) == Some(key)
    {
      UnwrappedKeyIff(p, priv, enc, p1, curve, key);
    }
  }

  /** What encryption emits: the public half of the ephemeral key, the content key XOR K1, the MAC of that
      under K2, and the content sealed under the content key. */
  lemma EciesEncryptedIs(p: Platform, pub: Bytes, plaintext: Bytes, p1: Bytes, curve: Curve, rnd: EciesEntropy,
                         e: EciesResult)
      returns (z: Bytes, k1: Bytes, k2: Bytes)
    requires EciesEncrypted(p, pub, plaintext, p1, curve, rnd) == Some(e)
    ensures Agreed(p, curve, rnd.ephemeral, pub, z) && DerivedKeys(p, z, p1, k1, k2)
    ensures e.ephemeralPubkey == p.publicOf(curve, rnd.ephemeral) && e.aesKey == rnd.aesKey && e.nonceCcm == rnd.nonce
    ensures WrapsTo(k1, rnd.aesKey, e.encryptedKey) && e.tagKdf == p.hmac(k2, e.encryptedKey)[..16]
    ensures p.seal(rnd.aesKey, rnd.nonce, plaintext) == Some((e.ciphertext, e.tagCcm))
  {
    z := EcdhDerive(p, rnd.ephemeral, pub, curve).value;
    k1, k2 := Kdf2(p, z, p1, 48)[..16], Kdf2(p, z, p1, 48)[16..];
    AgreedIff(p, curve, rnd.ephemeral, pub, z);
    KeysDerived(p, z, p1, k1, k2);
  }
}
