/** Types shared by every component of the model. */
module Basics {
  datatype Option<+T> = None | Some(value: T)

  datatype Result<+T, +E> = Ok(value: T) | Err(error: E)

  type byte = b: int | 0 <= b < 256

  type Bytes = seq<byte>

  const DIGEST_SIZE: nat := 32

  /** The result type of SHA-256. */
  type Digest = b: Bytes | |b| == DIGEST_SIZE witness seq(DIGEST_SIZE, _ => 0)

  /** SHA-256 itself is a parameter of the model. */
  type Sha = Bytes -> Digest

  function Copies<T>(x: T, n: nat): (xs: seq<T>)
    ensures |xs| == n
  {
    seq(n, _ => x)
  }

  lemma AppendAssociates<T>(a: seq<T>, b: seq<T>, c: seq<T>)
    ensures (a + b) + c == a + (b + c)
  {
  }
}
