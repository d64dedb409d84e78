/** Big-endian fields, and the loops that append and read them. */
module Wire {
  import opened Bytes

  function Pow256(n: nat): (p: nat)
    ensures 0 < p
  {
    if n == 0 then 1 else 256 * Pow256(n - 1)
  }

  /** The n-byte big-endian form. */
  function BigEndian(v: nat, n: nat): (bytes: seq<byte>)
    ensures |bytes| == n
  {
    if n == 0 then [] else BigEndian(v / 256, n - 1) + [v % 256]
  }

  function Value(bytes: seq<byte>): (v: nat)
    ensures v < Pow256(|bytes|)
  {
    if bytes == [] then 0 else Value(bytes[..|bytes| - 1]) * 256 + bytes[|bytes| - 1]
  }

  lemma ValueAppend(front: seq<byte>, last: byte)
    ensures Value(front + [last]) == Value(front) * 256 + last
  {
    assert (front + [last])[..|front|] == front;
  }

  /** Reading what was written. */
  lemma {:induction false} ValueOfBigEndian(v: nat, n: nat)
    requires v < Pow256(n)
    ensures Value(BigEndian(v, n)) == v
  {
    if n > 0 {
      var front := BigEndian(v / 256, n - 1);
      assert (front + [v % 256])[..n - 1] == front;
      ValueOfBigEndian(v / 256, n - 1);
      ValueAppend(front, v % 256);
    }
  }

  /** Writing what was read. */
  lemma {:induction false} BigEndianOfValue(bytes: seq<byte>)
    ensures BigEndian(Value(bytes), |bytes|) == bytes
  {
    if bytes != [] {
      BigEndianOfValue(bytes[..|bytes| - 1]);
    }
  }

  lemma Widths()
    ensures Pow256(1) == 0x100 && Pow256(2) == 0x1_0000 && Pow256(4) == 0x1_0000_0000
    ensures Pow256(8) == 0x1_0000_0000_0000_0000
  {
    assert Pow256(1) == 256 * Pow256(0);
    assert Pow256(2) == 256 * Pow256(1);
    assert Pow256(3) == 256 * Pow256(2);
    assert Pow256(4) == 256 * Pow256(3);
    assert Pow256(5) == 256 * Pow256(4);
    assert Pow256(6) == 256 * Pow256(5);
    assert Pow256(7) == 256 * Pow256(6);
    assert Pow256(8) == 256 * Pow256(7);
  }

  function U16(v: uint16): (b: seq<byte>)
    ensures |b| == 2
  {
    BigEndian(v, 2)
  }

  function U32(v: uint32): (b: seq<byte>)
    ensures |b| == 4
  {
    BigEndian(v, 4)
  }

  function U64(v: nat): (b: seq<byte>)
    ensures |b| == 8
  {
    BigEndian(v, 8)
  }

  function Get16(b: seq<byte>, p: nat): (v: uint16)
    requires p + 2 <= |b|
  {
    Widths();
    Value(b[p..p + 2])
  }

  function Get32(b: seq<byte>, p: nat): (v: uint32)
    requires p + 4 <= |b|
  {
    Widths();
    Value(b[p..p + 4])
  }

  /** A field read back from the middle of a message. */
  lemma Get32Put(before: seq<byte>, v: uint32, after: seq<byte>)
    ensures Get32(before + U32(v) + after, |before|) == v
  {
    Widths();
    ValueOfBigEndian(v, 4);
    assert (before + U32(v) + after)[|before|..|before| + 4] == U32(v);
  }

  lemma Get16Put(before: seq<byte>, v: uint16, after: seq<byte>)
    ensures Get16(before + U16(v) + after, |before|) == v
  {
    Widths();
    ValueOfBigEndian(v, 2);
    assert (before + U16(v) + after)[|before|..|before| + 2] == U16(v);
  }

  lemma Put32Get(b: seq<byte>, p: nat)
    requires p + 4 <= |b|
    ensures U32(Get32(b, p)) == b[p..p + 4]
  {
    BigEndianOfValue(b[p..p + 4]);
  }

  lemma Put16Get(b: seq<byte>, p: nat)
    requires p + 2 <= |b|
    ensures U16(Get16(b, p)) == b[p..p + 2]
  {
    BigEndianOfValue(b[p..p + 2]);
  }

  lemma SliceOfSlice(s: seq<byte>, a: nat, b: nat, i: nat, j: nat)
    requires a <= b <= |s| && i <= j <= b - a
    ensures s[a..b][i..j] == s[a + i..a + j]
  {
    var left := s[a..b];
    assert |left[i..j]| == |s[a + i..a + j]|;
    forall k | 0 <= k < j - i ensures left[i..j][k] == s[a + i..a + j][k] {
      assert left[i..j][k] == left[i + k] == s[a + i + k];
    }
    assert left[i..j] == s[a + i..a + j];
  }

  // ----- the loops -----

  function Shifted(v: nat, i: nat): nat {
    if i == 0 then v else Shifted(v, i - 1) / 256
  }

  lemma {:induction false} BigEndianFirst(v: nat, i: nat)
    requires 0 < i
    ensures BigEndian(v, i) == [Shifted(v, i - 1) % 256] + BigEndian(v, i - 1)
  {
    if i > 1 {
      BigEndianFirst(v / 256, i - 1);
      ShiftedLater(v, i - 1);
    }
  }

  lemma {:induction false} ShiftedLater(v: nat, i: nat)
    requires 0 < i
    ensures Shifted(v, i) == Shifted(v / 256, i - 1)
  {
    if i > 1 { ShiftedLater(v, i - 1); }
  }

  /** Put: one byte per round, most significant first; (v >> 8 i) & 255 is Shifted(v, i) % 256. */
  method Put(o: seq<byte>, v: nat, n: nat) returns (r: seq<byte>)
    ensures r == o + BigEndian(v, n)
  {
    r := o;
    ghost var done: seq<byte> := [];
    var i := n;
    while i > 0
      invariant 0 <= i <= n
      invariant r == o + done && done + BigEndian(v, i) == BigEndian(v, n)
    {
      BigEndianFirst(v, i);
      var b: byte := Shifted(v, i - 1) % 256;
      r := r + [b];
      done := done + [b];
      i := i - 1;
    }
  }

  /** Get: shifts in one byte per round, or reports that the input ends. */
  method Get(b: seq<byte>, p: nat, n: nat) returns (ok: bool, v: nat, next: nat)
    ensures ok <==> p + n <= |b|
    ensures ok ==> v == Value(b[p..p + n]) && next == p + n
  {
    ok, v, next := p + n <= |b|, 0, p;
    if !ok { return; }
    for i := 0 to n
      invariant next == p + i && v == Value(b[p..p + i])
    {
      assert b[p..p + i + 1][..i] == b[p..p + i];
      v := v * 256 + b[next];
      next := next + 1;
    }
  }
}
