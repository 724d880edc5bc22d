/** Curve tables, protocol constants and the two TAI conversions. */
module Sizes {
  datatype Curve = NistP256 | BrainpoolP256r1 | NistP384 | BrainpoolP384r1

  datatype SigHash = Sha256 | Sha384

  const MAX_COER_MESSAGE := 2048
  const YEAR_SECONDS := 31556952
  const SIXTY_HOURS_SECONDS := 216000
  const TAI_EPOCH_UNIX := 1072915200
  const TAI_MINUS_UTC := 5
  const PSID_SCR := 623
  const TWO16 := 0x1_0000
  const TWO32 := 0x1_0000_0000
  const TWO63 := 0x8000_0000_0000_0000
  const TWO64 := 0x1_0000_0000_0000_0000

  predicate IsP256Size(c: Curve) { c.NistP256? || c.BrainpoolP256r1? }

  function ScalarLen(c: Curve): nat { if IsP256Size(c) then 32 else 48 }

  function PubkeyLen(c: Curve): nat { if IsP256Size(c) then 65 else 97 }

  function CompressedLen(c: Curve): nat { if IsP256Size(c) then 33 else 49 }

  function HashLen(c: Curve): nat { if IsP256Size(c) then 32 else 48 }

  function CurveHash(c: Curve): SigHash { if IsP256Size(c) then Sha256 else Sha384 }

  function UnixToTaiSeconds(s: int): int { s - TAI_EPOCH_UNIX + TAI_MINUS_UTC }

  function UnixToTaiMicros(us: int): int { us - (TAI_EPOCH_UNIX - TAI_MINUS_UTC) * 1000000 }

  /** The wire field is a Time32: negative times clamp to 0, later ones wrap. */
  function UnixToTai32(s: int): (r: nat)
    ensures r < TWO32
  {
    var tai := UnixToTaiSeconds(s);
    if tai < 0 then 0 else tai % TWO32
  }

  /** Conversion to a signed 64-bit integer, two's complement. */
  function ToInt64(x: int): (r: int)
    ensures -TWO63 <= r < TWO63
    ensures -TWO63 <= x < TWO63 ==> r == x
  {
    var m := x % TWO64;
    if m < TWO63 then m else m - TWO64
  }

  /** The generation time of a message, in microseconds, falls in the second that the second-granular
      conversion gives for the same instant, also before 1970. */
  lemma TaiConversionsAgree(us: int)
    ensures UnixToTaiMicros(us) / 1000000 == UnixToTaiSeconds(us / 1000000)
  {
    var shift := TAI_EPOCH_UNIX - TAI_MINUS_UTC;
    assert us == (us / 1000000) * 1000000 + us % 1000000;
    assert UnixToTaiMicros(us) == (us / 1000000 - shift) * 1000000 + us % 1000000;
  }
}
