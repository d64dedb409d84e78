/** Length-prefixed encodings: each is told apart from what follows it. */
module Canonical {
  import opened Bytes
  import opened Wire

  const UINT32: nat := 0x1_0000_0000

  /** static_cast to an unsigned word. */
  function Unsigned(v: int64): uint64 {
    if v < 0 then v + UINT64 else v
  }

  // ----- fixed widths -----

  lemma U32Apart(a: uint32, b: uint32, x: seq<byte>, y: seq<byte>)
    requires U32(a) + x == U32(b) + y
    ensures a == b && x == y
  {
    Widths();
    ValueOfBigEndian(a, 4);
    ValueOfBigEndian(b, 4);
    assert (U32(a) + x)[..4] == U32(a) && (U32(b) + y)[..4] == U32(b);
    assert (U32(a) + x)[4..] == x && (U32(b) + y)[4..] == y;
  }

  lemma U64Apart(a: uint64, b: uint64, x: seq<byte>, y: seq<byte>)
    requires U64(a) + x == U64(b) + y
    ensures a == b && x == y
  {
    Widths();
    ValueOfBigEndian(a, 8);
    ValueOfBigEndian(b, 8);
    assert (U64(a) + x)[..8] == U64(a) && (U64(b) + y)[..8] == U64(b);
    assert (U64(a) + x)[8..] == x && (U64(b) + y)[8..] == y;
  }

  // ----- strings -----

  type Text = seq<byte>

  predicate Fits(n: nat) {
    n < UINT32
  }

  function TextBytes(t: Text): seq<byte>
    requires Fits(|t|)
  {
    U32(|t|) + t
  }

  lemma TextApart(a: Text, b: Text, x: seq<byte>, y: seq<byte>)
    requires Fits(|a|) && Fits(|b|) && TextBytes(a) + x == TextBytes(b) + y
    ensures a == b && x == y
  {
    hide U32;
    assert U32(|a|) + (a + x) == TextBytes(a) + x && U32(|b|) + (b + y) == TextBytes(b) + y;
    U32Apart(|a|, |b|, a + x, b + y);
    assert (a + x)[..|a|] == a && (b + y)[..|b|] == b && (a + x)[|a|..] == x && (b + y)[|b|..] == y;
  }

  // ----- lists -----

  predicate TextsFit(ts: seq<Text>) {
    forall i :: 0 <= i < |ts| ==> Fits(|ts[i]|)
  }

  function TextsBytes(ts: seq<Text>): seq<byte>
    requires TextsFit(ts)
  {
    if ts == [] then [] else TextBytes(ts[0]) + TextsBytes(ts[1..])
  }

  lemma {:induction false} TextsApart(a: seq<Text>, b: seq<Text>, x: seq<byte>, y: seq<byte>)
    requires TextsFit(a) && TextsFit(b) && |a| == |b| && TextsBytes(a) + x == TextsBytes(b) + y
    ensures a == b && x == y
  {
    hide TextBytes;
    if a != [] {
      assert TextBytes(a[0]) + (TextsBytes(a[1..]) + x) == TextsBytes(a) + x;
      assert TextBytes(b[0]) + (TextsBytes(b[1..]) + y) == TextsBytes(b) + y;
      TextApart(a[0], b[0], TextsBytes(a[1..]) + x, TextsBytes(b[1..]) + y);
      TextsApart(a[1..], b[1..], x, y);
      assert a == [a[0]] + a[1..] && b == [b[0]] + b[1..];
    } else {
      assert TextsBytes(a) + x == x && TextsBytes(b) + y == y;
    }
  }

  function ShapeBytes(shape: seq<int64>): seq<byte> {
    if shape == [] then [] else U64(Unsigned(shape[0])) + ShapeBytes(shape[1..])
  }

  lemma {:induction false} ShapeApart(a: seq<int64>, b: seq<int64>, x: seq<byte>, y: seq<byte>)
    requires |a| == |b| && ShapeBytes(a) + x == ShapeBytes(b) + y
    ensures a == b && x == y
  {
    hide U64;
    if a != [] {
      assert U64(Unsigned(a[0])) + (ShapeBytes(a[1..]) + x) == ShapeBytes(a) + x;
      assert U64(Unsigned(b[0])) + (ShapeBytes(b[1..]) + y) == ShapeBytes(b) + y;
      U64Apart(Unsigned(a[0]), Unsigned(b[0]), ShapeBytes(a[1..]) + x, ShapeBytes(b[1..]) + y);
      ShapeApart(a[1..], b[1..], x, y);
      assert a == [a[0]] + a[1..] && b == [b[0]] + b[1..];
    } else {
      assert ShapeBytes(a) + x == x && ShapeBytes(b) + y == y;
    }
  }

  // ----- names in order -----

  /** std::string's order. */
  predicate NameLess(a: Text, b: Text)
    decreases |a|
  {
    b != [] && (a == [] || a[0] < b[0] || (a[0] == b[0] && NameLess(a[1..], b[1..])))
  }

  /** The names agree up to place k, where the first one ends or has the smaller byte. */
  predicate SmallerAt(a: Text, b: Text, k: nat) {
    && k <= |a| && k < |b|
    && (forall i :: 0 <= i < k ==> a[i] == b[i])
    && (k < |a| ==> a[k] < b[k])
  }

  /** Lexicographic order of unsigned bytes: a proper prefix comes first, else the first difference decides. */
  lemma {:induction false} NameLessMeans(a: Text, b: Text)
    ensures NameLess(a, b) <==> exists k: nat :: SmallerAt(a, b, k)
    decreases |a|
  {
    if b == [] || a == [] || a[0] != b[0] {
      if NameLess(a, b) { assert SmallerAt(a, b, 0); }
    } else {
      NameLessMeans(a[1..], b[1..]);
      if NameLess(a[1..], b[1..]) {
        var k: nat :| SmallerAt(a[1..], b[1..], k);
        assert forall i :: 0 < i < k + 1 ==> a[i] == a[1..][i - 1] && b[i] == b[1..][i - 1];
        assert SmallerAt(a, b, k + 1);
      }
      if k: nat :| SmallerAt(a, b, k) {
        assert k != 0;
        assert SmallerAt(a[1..], b[1..], k - 1);
      }
    }
  }

  lemma {:induction false} NameLessIrreflexive(a: Text)
    ensures !NameLess(a, a)
    decreases |a|
  {
    if a != [] { NameLessIrreflexive(a[1..]); }
  }

  lemma {:induction false} NameLessTransitive(a: Text, b: Text, c: Text)
    requires NameLess(a, b) && NameLess(b, c)
    ensures NameLess(a, c)
    decreases |a|
  {
    if a != [] && a[0] == b[0] == c[0] { NameLessTransitive(a[1..], b[1..], c[1..]); }
  }

  lemma {:induction false} NameLessTotal(a: Text, b: Text)
    requires a != b
    ensures NameLess(a, b) || NameLess(b, a)
    decreases |a|
  {
    if a != [] && b != [] && a[0] == b[0] {
      assert a == [a[0]] + a[1..] && b == [b[0]] + b[1..];
      NameLessTotal(a[1..], b[1..]);
    }
  }
}
