/** Bytes, as the recorders and the pairer hold them. */
module Bytes {
  type byte = b: int | 0 <= b < 256

  type Buffer = seq<byte>

  /** std::vector::resize. */
  function Resized(buffer: Buffer, n: nat): (r: Buffer)
    ensures |r| == n
  {
    if n <= |buffer| then buffer[..n] else buffer + Zeros(n - |buffer|)
  }

  function Zeros(n: nat): (r: Buffer)
    ensures |r| == n
  {
    seq(n, i => 0)
  }

  /** memcpy of all of `from` to `offset` in `to`. */
  function Copied(to: Buffer, offset: nat, from: Buffer): (r: Buffer)
    requires offset + |from| <= |to|
    ensures |r| == |to|
  {
    to[..offset] + from + to[offset + |from|..]
  }
}
