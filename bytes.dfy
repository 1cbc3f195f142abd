/** Byte buffers as the C++ code handles them: a `uint8_t`, a zero-filled
    `std::vector<uint8_t>`, a foreign call writing into a buffer, and
    `std::vector::resize`. */
module Bytes {

  /** An unsigned 8-bit value (`uint8_t`). */
  newtype byte = x: int | 0 <= x < 256

  /** `static_cast<uint8_t>(x)`: conversion to an unsigned type keeps the
      value modulo 2^8 (Dafny's `%` never yields a negative remainder). */
  function ToUint8(x: int): (b: byte)
    ensures 0 <= x < 256 ==> b as int == x
    ensures (b as int - x) % 256 == 0
  {
    (x % 256) as byte
  }

  /** A vector of `n` value-initialised bytes (`std::vector<uint8_t>(n)`). */
  function Zeros(n: nat): seq<byte>
  {
    seq(n, _ => 0 as byte)
  }

  /** The contents of `buffer` after a foreign call has written the bytes
      `written` from its start: the buffer keeps its size and what is not
      written keeps its old value. The libraries called write at most the
      buffer's size; a longer write would overrun the buffer, which has no
      defined result in C++, and is here cut off at the buffer's end. */
  function Overlay(buffer: seq<byte>, written: seq<byte>): (r: seq<byte>)
    ensures |r| == |buffer|
    ensures forall i :: 0 <= i < |r| ==> r[i] == if i < |written| then written[i] else buffer[i]
  {
    if |buffer| <= |written| then written[..|buffer|] else written + buffer[|written|..]
  }

  /** `v.resize(n)`: truncate to `n` bytes, or append zero bytes up to `n`. */
  function Resized(v: seq<byte>, n: nat): (r: seq<byte>)
    ensures |r| == n
    ensures forall i :: 0 <= i < n ==> r[i] == if i < |v| then v[i] else 0
  {
    if n <= |v| then v[..n] else v + Zeros(n - |v|)
  }
}
