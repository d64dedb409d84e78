// Bytes and the big-endian integer encodings shared by the wire formats.
module Bytes {

  type byte = x: int | 0 <= x < 256

  type int8 = x: int | -128 <= x < 128

  function Reverse<T>(s: seq<T>): (r: seq<T>)
    ensures |r| == |s|
    ensures forall i :: 0 <= i < |s| ==> r[i] == s[|s| - 1 - i]
  {
    if s == [] then [] else Reverse(s[1..]) + [s[0]]
  }

  type uint16 = x: int | 0 <= x < 0x1_0000

  type uint32 = x: int | 0 <= x < 0x1_0000_0000

  const UINT64: nat := 0x1_0000_0000_0000_0000

  type uint64 = x: int | 0 <= x < UINT64

  type int64 = x: int | -0x8000_0000_0000_0000 <= x < 0x8000_0000_0000_0000

  function Zeros(n: nat): (z: seq<byte>)
    ensures |z| == n
  {
    seq(n, _ => 0)
  }
}
