/** Conversions between ASN.1 curve points and SEC1 byte strings, and signature extraction. */
module CurvePoints {
  import opened Basics
  import opened Sizes
  import opened Asn
  import opened PlatformModel

  /** The SEC1 bytes of a point with n-byte coordinates; no bytes if it is absent or malformed. */
  function ToSec1(pt: Option<CurvePoint>, n: nat): Bytes {
    match pt
    case Some(Uncompressed(x, y)) => if |x| != n || |y| != n then [] else [0x04] + x + y
    case Some(XOnly(x)) => x
    case Some(CompressedY0(x)) => if |x| != n then [] else [0x02] + x
    case Some(CompressedY1(x)) => if |x| != n then [] else [0x03] + x
    case _ => []
  }

  /** The builder always compresses. */
  function FromSec1(pub: Bytes, n: nat): Option<CurvePoint> {
    if |pub| != 2 * n + 1 then None
    else if pub[2 * n] & 1 != 0 then Some(CompressedY1(pub[1..1 + n]))
    else Some(CompressedY0(pub[1..1 + n]))
  }

  function SigR(pt: CurvePoint): Bytes {
    match pt
    case XOnly(x) => x
    case CompressedY0(x) => x
    case CompressedY1(x) => x
    case Uncompressed(x, _) => x
    case OtherPoint => []
  }

  datatype SigRS = SigRS(r: Bytes, s: Bytes, curve: Curve)

  /** The curve a signature variant names. */
  function VariantCurve(sig: Signature): Option<Curve> {
    match sig
    case SigNistP256(_) => Some(NistP256)
    case SigBrainpoolP256r1(_) => Some(BrainpoolP256r1)
    case SigBrainpoolP384r1(_) => Some(BrainpoolP384r1)
    case SigNistP384(_) => Some(NistP384)
    case SigOther => None
  }

  function ExtractSig(sig: Option<Signature>): Option<SigRS> {
    var asn :- sig;
    var curve :- VariantCurve(asn);
    var ecdsa :- asn.ecdsa;
    var rPoint :- ecdsa.rSig;
    if |ecdsa.sSig| != ScalarLen(curve) || |SigR(rPoint)| != ScalarLen(curve) then None
    else Some(SigRS(SigR(rPoint), ecdsa.sSig, curve))
  }

  function BuildAsnSignature(r: Bytes, s: Bytes, curve: Curve): Signature {
    var n := ScalarLen(curve);
    var ecdsa := Some(EcdsaSignature(Some(XOnly(Fixed(r, n))), Fixed(s, n)));
    if IsP256Size(curve) then
      if curve.BrainpoolP256r1? then SigBrainpoolP256r1(ecdsa) else SigNistP256(ecdsa)
    else
      SigBrainpoolP384r1(ecdsa)
  }

  /** The curve a signature is read back with after it was written for `c`. */
  function ReadBackCurve(c: Curve): Curve { if c.NistP384? then BrainpoolP384r1 else c }

  /** Reading a written signature always succeeds and returns r and s; the curve survives on
      exactly three of the four curves, NIST P-384 being written as Brainpool P-384. */
  lemma SignatureReadBack(r: Bytes, s: Bytes, curve: Curve)
    requires |r| == ScalarLen(curve) && |s| == ScalarLen(curve)
    ensures ExtractSig(Some(BuildAsnSignature(r, s, curve))) == Some(SigRS(r, s, ReadBackCurve(curve)))
    ensures ExtractSig(Some(BuildAsnSignature(r, s, curve))) == Some(SigRS(r, s, curve)) <==> curve != NistP384
  {
  }

  /** A key that travels in compressed form comes back as a key the same private scalar matches. */
  lemma CompressedKeyMatches(p: Platform, c: Curve, priv: Bytes)
    requires p.CurveLaws() && p.PrivateOk(c, priv)
    ensures var pt := FromSec1(p.publicOf(c, priv), ScalarLen(c));
            && pt.Some?
            && ToSec1(pt, ScalarLen(c)) != []
            && KeysMatch(p, c, ToSec1(pt, ScalarLen(c)), priv)
  {
    BothFormsMatch(p, c, priv);
    var pub := p.publicOf(c, priv);
    assert ToSec1(FromSec1(pub, ScalarLen(c)), ScalarLen(c)) == CompressedForm(c, pub);
  }

  /** The x coordinate of a point, in whichever form it is written. */
  ghost predicate HasX(pt: CurvePoint, x: Bytes) {
    pt == XOnly(x) || pt == CompressedY0(x) || pt == CompressedY1(x) || exists y :: pt == Uncompressed(x, y)
  }

  /** A signature is read exactly when its variant names the curve, r is the x coordinate of its point
      and both numbers have the length of that curve. */
  lemma ExtractSigIff(sig: Option<Signature>, r: Bytes, s: Bytes, curve: Curve)
    ensures ExtractSig(sig) == Some(SigRS(r, s, curve)) <==>
            exists pt ::
              && HasX(pt, r) && |r| == |s| == (if Is384(curve) then 48 else 32)
              && sig == Some(match curve
                             case NistP256 => SigNistP256(Some(EcdsaSignature(Some(pt), s)))
                             case BrainpoolP256r1 => SigBrainpoolP256r1(Some(EcdsaSignature(Some(pt), s)))
                             case NistP384 => SigNistP384(Some(EcdsaSignature(Some(pt), s)))
                             case BrainpoolP384r1 => SigBrainpoolP384r1(Some(EcdsaSignature(Some(pt), s))))
  {
    if ExtractSig(sig) == Some(SigRS(r, s, curve)) {
      var pt := sig.value.ecdsa.value.rSig.value;
      if pt.Uncompressed? { assert pt == Uncompressed(r, pt.y); }
      assert HasX(pt, r);
    }
  }
}
