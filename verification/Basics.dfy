/** Bytes, optional values and the client's error channel. */
module Basics {

  type Bytes = seq<bv8>

  /** The digests the client uses have a fixed length, whatever the input. */
  type Digest32 = b: Bytes | |b| == 32 witness seq(32, _ => 0)
  type Digest48 = b: Bytes | |b| == 48 witness seq(48, _ => 0)

  type Hid8 = b: Bytes | |b| == 8 witness seq(8, _ => 0)
  type AesKey = b: Bytes | |b| == 16 witness seq(16, _ => 0)
  type CcmNonce = b: Bytes | |b| == 12 witness seq(12, _ => 0)

  const ZERO_HID8: Hid8 := [0, 0, 0, 0, 0, 0, 0, 0]

  datatype Option<+T> = None | Some(value: T) {
    predicate IsFailure() { None? }

    function PropagateFailure<U>(): Option<U>
      requires None?
    {
      None
    }

    function Extract(): T
      requires Some?
    {
      value
    }
  }

  datatype Error =
    | InvalidArgument | Network | HttpStatus | Decode | Encode | Crypto
    | SignatureInvalid | NotFound | KeyStore | Protocol

  datatype Result<+T> = Ok(value: T) | Err(error: Error) {
    predicate IsFailure() { Err? }

    function PropagateFailure<U>(): Result<U>
      requires Err?
    {
      Err(error)
    }

    function Extract(): T
      requires Ok?
    {
      value
    }
  }

  function OkOr<T>(o: Option<T>, e: Error): Result<T> {
    match o
    case Some(v) => Ok(v)
    case None => Err(e)
  }

  /** An encoder reports failure by returning no bytes. */
  function NonEmpty(b: Bytes, e: Error): Result<Bytes> {
    if b == [] then Err(e) else Ok(b)
  }

  /** A fixed-capacity buffer refuses what does not fit; it never truncates. */
  function Bounded(capacity: nat, b: Bytes): Option<Bytes> {
    if |b| > capacity then None else Some(b)
  }

  /** The first n bytes of a zero-filled buffer that holds b. */
  function Fixed(b: Bytes, n: nat): (r: Bytes)
    ensures |r| == n
    ensures |b| == n ==> r == b
  {
    if |b| >= n then b[..n] else b + seq(n - |b|, _ => 0)
  }

  function Min(a: int, b: int): int { if a <= b then a else b }

  function Max(a: int, b: int): int { if a <= b then b else a }

  function Pow2(n: nat): nat { if n == 0 then 1 else 2 * Pow2(n - 1) }
}
