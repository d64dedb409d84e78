/** The prior-op index kernels: in each pass every position of a part is read from, or written to, the
    channel chunk that the mask selects for its parity; the passes together cover the tensor once. */
module MaskPasses {
  import opened Arith

  // ----- the masks -----

  function Parity(y: nat, x: nat): (p: nat)
    ensures p < 4
  {
    y % 2 * 2 + x % 2
  }

  predicate MicroMask4(mask: nat, chunk: nat, y: nat, x: nat) {
    var selector, parity := mask % 4 * 4 + chunk % 4, Parity(y, x);
    if selector == 0 then parity == 0
    else if selector == 1 then parity == 1
    else if selector == 2 then parity == 2
    else if selector == 3 then parity == 3
    else if selector == 4 then parity == 3
    else if selector == 5 then parity == 2
    else if selector == 6 then parity == 1
    else if selector == 7 then parity == 0
    else if selector == 8 then parity == 2
    else if selector == 9 then parity == 3
    else if selector == 10 then parity == 0
    else if selector == 11 then parity == 1
    else if selector == 12 then parity == 1
    else if selector == 13 then parity == 0
    else if selector == 14 then parity == 3
    else parity == 2
  }

  predicate MicroMask2(mask: nat, chunk: nat, y: nat, x: nat) {
    var parity := Parity(y, x);
    if mask % 2 == 0 then
      if chunk % 2 == 0 then parity == 0 || parity == 3 else parity == 1 || parity == 2
    else
      if chunk % 2 == 0 then parity == 1 || parity == 2 else parity == 0 || parity == 3
  }

  predicate Selects(parts: nat, mask: nat, chunk: nat, y: nat, x: nat) {
    if parts == 4 then MicroMask4(mask, chunk, y, x) else MicroMask2(mask, chunk, y, x)
  }

  predicate PartsOk(parts: nat) {
    parts == 2 || parts == 4
  }

  /** The chunk a mask selects at a position. */
  function Chunk(parts: nat, mask: nat, y: nat, x: nat): (chunk: nat)
    requires PartsOk(parts)
    ensures chunk < parts && Selects(parts, mask, chunk, y, x)
    ensures forall other :: 0 <= other < parts && Selects(parts, mask, other, y, x) ==> other == chunk
  {
    if parts == 4 then
      if MicroMask4(mask, 0, y, x) then 0
      else if MicroMask4(mask, 1, y, x) then 1
      else if MicroMask4(mask, 2, y, x) then 2
      else 3
    else if MicroMask2(mask, 0, y, x) then 0 else 1
  }

  /** SelectedChunk: the first chunk whose mask is set. */
  method SelectedChunk(parts: nat, mask: nat, y: nat, x: nat) returns (chunk: nat)
    requires PartsOk(parts)
    ensures chunk == Chunk(parts, mask, y, x)
  {
    if parts == 4 {
      chunk := 0;
      while chunk < 4 && !MicroMask4(mask, chunk, y, x)
        invariant chunk <= Chunk(parts, mask, y, x)
      {
        chunk := chunk + 1;
      }
    } else {
      chunk := if MicroMask2(mask, 0, y, x) then 0 else 1;
    }
  }

  /** The masks form a Latin square: at each position every chunk is selected by exactly one mask. */
  function MaskFor(parts: nat, chunk: nat, y: nat, x: nat): (mask: nat)
    requires PartsOk(parts) && chunk < parts
    ensures mask < parts && Chunk(parts, mask, y, x) == chunk
    ensures forall other :: 0 <= other < parts && Chunk(parts, other, y, x) == chunk ==> other == mask
  {
    Latin(parts, chunk, y, x);
    if Selects(parts, 0, chunk, y, x) then 0
    else if Selects(parts, 1, chunk, y, x) then 1
    else if Selects(parts, 2, chunk, y, x) then 2
    else 3
  }

  /** Some mask selects the chunk, and no two do. */
  lemma Latin(parts: nat, chunk: nat, y: nat, x: nat)
    requires PartsOk(parts) && chunk < parts
    ensures exists mask :: 0 <= mask < parts && Selects(parts, mask, chunk, y, x)
    ensures forall a, b :: 0 <= a < b < parts ==> !(Selects(parts, a, chunk, y, x) && Selects(parts, b, chunk, y, x))
    ensures forall mask :: 0 <= mask < parts ==> (Selects(parts, mask, chunk, y, x) <==> Chunk(parts, mask, y, x) == chunk)
  {
    hide Chunk;
    if parts == 4 { LatinFour(chunk, y, x); } else { LatinTwo(chunk, y, x); }
  }

  lemma LatinFour(chunk: nat, y: nat, x: nat)
    requires chunk < 4
    ensures Selects(4, 0, chunk, y, x) || Selects(4, 1, chunk, y, x) || Selects(4, 2, chunk, y, x) || Selects(4, 3, chunk, y, x)
    ensures forall a, b :: 0 <= a < b < 4 ==> !(Selects(4, a, chunk, y, x) && Selects(4, b, chunk, y, x))
  {
    forall a, b | 0 <= a < b < 4 ensures !(Selects(4, a, chunk, y, x) && Selects(4, b, chunk, y, x)) {
      FourApart(a, b, chunk, y, x);
    }
  }

  /** The parity at which a mask selects a chunk. */
  function ParityFor(mask: nat, chunk: nat): nat
    requires mask < 4 && chunk < 4
  {
    if mask == 0 then chunk
    else if mask == 1 then 3 - chunk
    else if mask == 2 then (chunk + 2) % 4
    else if chunk % 2 == 0 then chunk + 1 else chunk - 1
  }

  lemma SelectsAtParity(mask: nat, chunk: nat, y: nat, x: nat)
    requires mask < 4 && chunk < 4
    ensures Selects(4, mask, chunk, y, x) <==> Parity(y, x) == ParityFor(mask, chunk)
  {
  }

  lemma FourApart(a: nat, b: nat, chunk: nat, y: nat, x: nat)
    requires a < b < 4 && chunk < 4
    ensures !(Selects(4, a, chunk, y, x) && Selects(4, b, chunk, y, x))
  {
    hide Selects, Parity;
    SelectsAtParity(a, chunk, y, x);
    SelectsAtParity(b, chunk, y, x);
  }

  lemma LatinTwo(chunk: nat, y: nat, x: nat)
    requires chunk < 2
    ensures Selects(2, 0, chunk, y, x) || Selects(2, 1, chunk, y, x)
    ensures !(Selects(2, 0, chunk, y, x) && Selects(2, 1, chunk, y, x))
  {
  }

  /** The masks in numbers.  Two parts: a checkerboard, moved on by one place in the second pass.  Four parts:
      squares of two by two, moved by half a square in both directions, down, and across. */
  function ChunkNumber(parts: nat, mask: nat, y: nat, x: nat): nat {
    if parts == 2 then (y + x + mask) % 2
    else
      var down, across := if mask % 4 == 1 || mask % 4 == 2 then 1 else 0, mask % 2;
      (y + down) % 2 * 2 + (x + across) % 2
  }

  lemma MasksInNumbers(parts: nat, mask: nat, chunk: nat, y: nat, x: nat)
    requires PartsOk(parts) && chunk < parts
    ensures Selects(parts, mask, chunk, y, x) <==> chunk == ChunkNumber(parts, mask, y, x)
  {
    if parts == 2 { TwoInNumbers(mask, chunk, y, x); } else { FourInNumbers(mask, chunk, y, x); }
  }

  lemma TwoInNumbers(mask: nat, chunk: nat, y: nat, x: nat)
    requires chunk < 2
    ensures MicroMask2(mask, chunk, y, x) <==> chunk == (y + x + mask) % 2
  {
    var a, b, m := y % 2, x % 2, mask % 2;
    assert y == y / 2 * 2 + a && x == x / 2 * 2 + b && mask == mask / 2 * 2 + m;
    assert y + x + mask == (y / 2 + x / 2 + mask / 2) * 2 + (a + b + m);
    assert (y + x + mask) % 2 == (a + b + m) % 2;
  }

  lemma FourInNumbers(mask: nat, chunk: nat, y: nat, x: nat)
    requires chunk < 4
    ensures Selects(4, mask, chunk, y, x) <==> chunk == ChunkNumber(4, mask, y, x)
  {
    hide MicroMask4, Selects, ParityFor;
    MaskWraps(mask, chunk, y, x);
    SelectsAtParity(mask % 4, chunk, y, x);
    FourSquares(mask % 4, chunk, y % 2, x % 2);
    ShiftParity(y, if mask % 4 == 1 || mask % 4 == 2 then 1 else 0);
    ShiftParity(x, mask % 2);
  }

  lemma MaskWraps(mask: nat, chunk: nat, y: nat, x: nat)
    ensures Selects(4, mask, chunk, y, x) <==> Selects(4, mask % 4, chunk, y, x)
    ensures mask % 4 % 2 == mask % 2
  {
    hide Parity;
    SameRemainder(mask);
  }

  lemma SameRemainder(mask: nat)
    ensures mask % 4 % 4 == mask % 4 && mask % 4 % 2 == mask % 2
  {
  }

  lemma ShiftParity(n: nat, shift: nat)
    ensures (n + shift) % 2 == (n % 2 + shift) % 2
  {
  }

  lemma FourSquares(mask: nat, chunk: nat, a: nat, b: nat)
    requires mask < 4 && chunk < 4 && a < 2 && b < 2
    ensures a * 2 + b == ParityFor(mask, chunk) <==>
            chunk == (a + if mask == 1 || mask == 2 then 1 else 0) % 2 * 2 + (b + mask % 2) % 2
  {
  }

  // ----- indices -----

  /** Sizes are positive. */
  datatype Shape = Shape(parts: nat, partChannels: nat, height: nat, width: nat)

  predicate ShapeOk(s: Shape) {
    PartsOk(s.parts) && 0 < s.partChannels && 0 < s.height && 0 < s.width
  }

  function PartSize(s: Shape): nat {
    s.partChannels * s.height * s.width
  }

  function FullSize(s: Shape): nat {
    s.parts * s.partChannels * s.height * s.width
  }

  function Flat(s: Shape, c: nat, y: nat, x: nat): nat {
    (c * s.height + y) * s.width + x
  }

  function XOf(s: Shape, i: nat): (x: nat)
    requires ShapeOk(s)
    ensures x < s.width
  {
    i % s.width
  }

  function YOf(s: Shape, i: nat): (y: nat)
    requires ShapeOk(s)
    ensures y < s.height
  {
    i / s.width % s.height
  }

  lemma PositiveArea(s: Shape)
    requires ShapeOk(s)
    ensures 0 < s.height * s.width
  {
    MulMonotone(1, s.height, s.width);
  }

  function COf(s: Shape, i: nat): nat
    requires ShapeOk(s)
  {
    PositiveArea(s);
    i / (s.height * s.width)
  }

  /** Where element linear of a part lies in the full tensor: sourceIndex and targetIndex. */
  function FullIndex(s: Shape, mask: nat, linear: nat): nat
    requires ShapeOk(s)
  {
    var y, x := YOf(s, linear), XOf(s, linear);
    Flat(s, Chunk(s.parts, mask, y, x) * s.partChannels + COf(s, linear), y, x)
  }

  lemma Unflat(s: Shape, c: nat, y: nat, x: nat)
    requires ShapeOk(s) && y < s.height && x < s.width
    ensures var i := Flat(s, c, y, x); XOf(s, i) == x && YOf(s, i) == y && COf(s, i) == c
  {
    PositiveArea(s);
    var q := c * s.height + y;
    DivMod(q, x, s.width);
    DivMod(c, y, s.height);
    DivDiv(q * s.width + x, s.width, s.height);
    assert s.width * s.height == s.height * s.width;
  }

  /** Element (c, y, x) of a part is element (chunk * partChannels + c, y, x) of the tensor. */
  lemma PlaceInNumbers(s: Shape, mask: nat, c: nat, y: nat, x: nat)
    requires ShapeOk(s) && y < s.height && x < s.width
    ensures FullIndex(s, mask, (c * s.height + y) * s.width + x)
         == ((ChunkNumber(s.parts, mask, y, x) * s.partChannels + c) * s.height + y) * s.width + x
  {
    hide COf, XOf, YOf, Selects, ChunkNumber;
    Unflat(s, c, y, x);
    MasksInNumbers(s.parts, mask, Chunk(s.parts, mask, y, x), y, x);
  }

  lemma Reflat(s: Shape, i: nat)
    requires ShapeOk(s)
    ensures Flat(s, COf(s, i), YOf(s, i), XOf(s, i)) == i
  {
    PositiveArea(s);
    DivDiv(i, s.width, s.height);
    assert s.width * s.height == s.height * s.width;
    assert i / s.width == i / s.width / s.height * s.height + i / s.width % s.height;
    assert i == i / s.width * s.width + i % s.width;
  }

  /** An index is below n * height * width exactly when its channel is below n. */
  lemma FlatBound(s: Shape, n: nat, c: nat, y: nat, x: nat)
    requires ShapeOk(s) && y < s.height && x < s.width
    ensures Flat(s, c, y, x) < n * s.height * s.width <==> c < n
  {
    var q := c * s.height + y;
    if c < n {
      MulMonotone(c + 1, n, s.height);
      assert (c + 1) * s.height == c * s.height + s.height;
      MulMonotone(q + 1, n * s.height, s.width);
      assert (q + 1) * s.width == q * s.width + s.width;
    } else {
      MulMonotone(n, c, s.height);
      MulMonotone(n * s.height, q, s.width);
    }
  }

  /** The pass and the place in the part that a full index belongs to. */
  function PassOf(s: Shape, i: nat): nat
    requires ShapeOk(s) && i < FullSize(s)
  {
    ChunkBound(s, i);
    MaskFor(s.parts, COf(s, i) / s.partChannels, YOf(s, i), XOf(s, i))
  }

  function PlaceOf(s: Shape, i: nat): nat
    requires ShapeOk(s) && i < FullSize(s)
  {
    Flat(s, COf(s, i) % s.partChannels, YOf(s, i), XOf(s, i))
  }

  lemma ChunkBound(s: Shape, i: nat)
    requires ShapeOk(s) && i < FullSize(s)
    ensures COf(s, i) < s.parts * s.partChannels && COf(s, i) / s.partChannels < s.parts
  {
    hide COf, XOf, YOf, Flat;
    var c := COf(s, i);
    Reflat(s, i);
    FlatBound(s, s.parts * s.partChannels, c, YOf(s, i), XOf(s, i));
    var q, r := c / s.partChannels, c % s.partChannels;
    assert c == q * s.partChannels + r;
    MulMonotone(s.parts, q, s.partChannels);
  }

  /** Every full index is reached, in its pass and from its place. */
  lemma Reached(s: Shape, i: nat)
    requires ShapeOk(s) && i < FullSize(s)
    ensures PassOf(s, i) < s.parts && PlaceOf(s, i) < PartSize(s) && FullIndex(s, PassOf(s, i), PlaceOf(s, i)) == i
  {
    hide COf, XOf, YOf, Flat, Chunk, MaskFor;
    var c, y, x := COf(s, i), YOf(s, i), XOf(s, i);
    ChunkBound(s, i);
    Unflat(s, c % s.partChannels, y, x);
    FlatBound(s, s.partChannels, c % s.partChannels, y, x);
    assert c == c / s.partChannels * s.partChannels + c % s.partChannels;
    Reflat(s, i);
  }

  /** And from nowhere else: (mask, linear) and full index determine each other. */
  lemma ReachedOnce(s: Shape, mask: nat, linear: nat)
    requires ShapeOk(s) && mask < s.parts && linear < PartSize(s)
    ensures FullIndex(s, mask, linear) < FullSize(s)
    ensures PassOf(s, FullIndex(s, mask, linear)) == mask && PlaceOf(s, FullIndex(s, mask, linear)) == linear
  {
    hide COf, XOf, YOf, Flat, Chunk, MaskFor;
    var c, y, x := COf(s, linear), YOf(s, linear), XOf(s, linear);
    var chunk := Chunk(s.parts, mask, y, x);
    Reflat(s, linear);
    FlatBound(s, s.partChannels, c, y, x);
    Unflat(s, chunk * s.partChannels + c, y, x);
    DivMod(chunk, c, s.partChannels);
    MulMonotone(chunk + 1, s.parts, s.partChannels);
    assert (chunk + 1) * s.partChannels == chunk * s.partChannels + s.partChannels;
    FlatBound(s, s.parts * s.partChannels, chunk * s.partChannels + c, y, x);
  }

  // ----- the kernels -----

  /** The tiles of one core: linear runs over [coreOffset, coreOffset + coreElements). */
  function TileCount(coreElements: nat, tileElements: nat): nat
    requires 0 < tileElements
  {
    (coreElements + tileElements - 1) / tileElements
  }

  lemma TilesCover(coreElements: nat, tileElements: nat)
    requires 0 < tileElements
    ensures coreElements <= TileCount(coreElements, tileElements) * tileElements
    ensures forall tile :: 0 <= tile < TileCount(coreElements, tileElements) ==> Start(tile, tileElements) < coreElements
  {
    var n := coreElements + tileElements - 1;
    assert n == n / tileElements * tileElements + n % tileElements;
    forall tile | 0 <= tile < TileCount(coreElements, tileElements) ensures Start(tile, tileElements) < coreElements {
      MulMonotone(tile + 1, n / tileElements, tileElements);
      assert (tile + 1) * tileElements == Start(tile, tileElements) + tileElements;
    }
  }

  function Start(tile: int, tileElements: nat): int {
    tile * tileElements
  }

  /** What RestoreY adds up at one place of the full tensor. */
  function RestoredAt(symbols: seq<real>, means: seq<real>, s: Shape, i: nat): real
    requires ShapeOk(s) && |symbols| == PartSize(s) && |means| == FullSize(s) && i < FullSize(s)
  {
    Reached(s, i);
    symbols[PlaceOf(s, i)] + means[i]
  }

  /** KernelMlvcRestoreY over one core's range: exactly the places of this pass in the range change. */
  method RestoreY(s: Shape, mask: nat, symbols: seq<real>, means: seq<real>, output: array<real>,
                  coreOffset: nat, coreElements: nat, tileElements: nat)
    requires ShapeOk(s) && mask < s.parts && 0 < tileElements
    requires |symbols| == PartSize(s) && |means| == FullSize(s) == output.Length
    requires coreOffset + coreElements <= PartSize(s)
    modifies output
    ensures forall i :: 0 <= i < output.Length ==>
              output[i] == if PassOf(s, i) == mask && coreOffset <= PlaceOf(s, i) < coreOffset + coreElements
                           then RestoredAt(symbols, means, s, i) else old(output[i])
  {
    hide PassOf, PlaceOf, FullIndex, FullSize, PartSize;
    TilesCover(coreElements, tileElements);
    var tiles, done := TileCount(coreElements, tileElements), 0;
    var tile := 0;
    while tile < tiles
      invariant 0 <= tile <= tiles && done <= coreElements
      invariant done == if Start(tile, tileElements) < coreElements then Start(tile, tileElements) else coreElements
      invariant RestoredUpTo(s, mask, symbols, means, old(output[..]), output[..], coreOffset, done)
    {
      var offset := Start(tile, tileElements);
      var count := if coreElements - offset < tileElements then coreElements - offset else tileElements;
      NextStart(tile, tileElements);
      var k := 0;
      while k < count
        invariant 0 <= k <= count && done == offset + k
        invariant RestoredUpTo(s, mask, symbols, means, old(output[..]), output[..], coreOffset, done)
      {
        RestoreOne(s, mask, symbols, means, output, coreOffset + done);
        done := done + 1;
        k := k + 1;
      }
      tile := tile + 1;
    }
    assert done == coreElements;
  }

  lemma NextStart(tile: int, tileElements: nat)
    ensures Start(tile + 1, tileElements) == Start(tile, tileElements) + tileElements
  {
  }

  ghost predicate RestoredUpTo(s: Shape, mask: nat, symbols: seq<real>, means: seq<real>, was: seq<real>, now: seq<real>,
                               coreOffset: nat, done: nat)
    requires ShapeOk(s) && |symbols| == PartSize(s) && |means| == FullSize(s)
  {
    && |was| == |now| == FullSize(s)
    && forall i :: 0 <= i < |now| ==>
         now[i] == if PassOf(s, i) == mask && coreOffset <= PlaceOf(s, i) < coreOffset + done
                   then RestoredAt(symbols, means, s, i) else was[i]
  }

  /** One round of the inner loop. */
  method RestoreOne(s: Shape, mask: nat, symbols: seq<real>, means: seq<real>, output: array<real>, linear: nat)
    requires ShapeOk(s) && mask < s.parts && linear < PartSize(s)
    requires |symbols| == PartSize(s) && |means| == FullSize(s) == output.Length
    modifies output
    ensures forall i :: 0 <= i < output.Length ==>
              output[i] == if PassOf(s, i) == mask && PlaceOf(s, i) == linear
                           then RestoredAt(symbols, means, s, i) else old(output[i])
  {
    hide PassOf, PlaceOf, FullSize, PartSize, Flat, COf;
    ReachedOnce(s, mask, linear);
    var x, y, c := XOf(s, linear), YOf(s, linear), COf(s, linear);
    var chunk := SelectedChunk(s.parts, mask, y, x);
    var target := Flat(s, chunk * s.partChannels + c, y, x);
    assert target == FullIndex(s, mask, linear);
    output[target] := symbols[linear] + means[target];
    forall i | 0 <= i < output.Length && PassOf(s, i) == mask && PlaceOf(s, i) == linear ensures i == target {
      Reached(s, i);
    }
  }

  /** KernelMlvcSinglePart: the part a mask selects. */
  function Gathered<T>(s: Shape, mask: nat, full: seq<T>): (part: seq<T>)
    requires ShapeOk(s) && mask < s.parts && |full| == FullSize(s)
    ensures |part| == PartSize(s)
  {
    seq(PartSize(s), l requires 0 <= l < PartSize(s) => GatheredAt(s, mask, full, l))
  }

  function GatheredAt<T>(s: Shape, mask: nat, full: seq<T>, l: nat): T
    requires ShapeOk(s) && mask < s.parts && |full| == FullSize(s) && l < PartSize(s)
  {
    ReachedOnce(s, mask, l);
    full[FullIndex(s, mask, l)]
  }

  /** KernelMlvcSinglePart over one core's range: exactly that range of the part is gathered. */
  method SinglePart<T>(s: Shape, mask: nat, full: seq<T>, part: array<T>, coreOffset: nat, coreElements: nat,
                       tileElements: nat)
    requires ShapeOk(s) && mask < s.parts && 0 < tileElements
    requires |full| == FullSize(s) && part.Length == PartSize(s) && coreOffset + coreElements <= PartSize(s)
    modifies part
    ensures forall l :: 0 <= l < part.Length ==>
              part[l] == if coreOffset <= l < coreOffset + coreElements then GatheredAt(s, mask, full, l) else old(part[l])
  {
    hide FullSize, PartSize, FullIndex;
    TilesCover(coreElements, tileElements);
    var tiles, done := TileCount(coreElements, tileElements), 0;
    var tile := 0;
    while tile < tiles
      invariant 0 <= tile <= tiles && done <= coreElements
      invariant done == if Start(tile, tileElements) < coreElements then Start(tile, tileElements) else coreElements
      invariant GatheredUpTo(s, mask, full, old(part[..]), part[..], coreOffset, done)
    {
      var offset := Start(tile, tileElements);
      var count := if coreElements - offset < tileElements then coreElements - offset else tileElements;
      NextStart(tile, tileElements);
      var k := 0;
      while k < count
        invariant 0 <= k <= count && done == offset + k
        invariant GatheredUpTo(s, mask, full, old(part[..]), part[..], coreOffset, done)
      {
        var linear := coreOffset + done;
        var value := GatherOne(s, mask, full, linear);
        part[linear] := value;
        done := done + 1;
        k := k + 1;
      }
      tile := tile + 1;
    }
    assert done == coreElements;
  }

  ghost predicate GatheredUpTo<T>(s: Shape, mask: nat, full: seq<T>, was: seq<T>, now: seq<T>, coreOffset: nat, done: nat)
    requires ShapeOk(s) && mask < s.parts && |full| == FullSize(s)
  {
    && |was| == |now| == PartSize(s)
    && forall l :: 0 <= l < |now| ==>
         now[l] == if coreOffset <= l < coreOffset + done then GatheredAt(s, mask, full, l) else was[l]
  }

  /** One round of the inner loop. */
  method GatherOne<T>(s: Shape, mask: nat, full: seq<T>, linear: nat) returns (value: T)
    requires ShapeOk(s) && mask < s.parts && |full| == FullSize(s) && linear < PartSize(s)
    ensures value == GatheredAt(s, mask, full, linear)
  {
    hide FullSize, PartSize, Flat, COf;
    ReachedOnce(s, mask, linear);
    var x, y, c := XOf(s, linear), YOf(s, linear), COf(s, linear);
    var chunk := SelectedChunk(s.parts, mask, y, x);
    value := full[Flat(s, chunk * s.partChannels + c, y, x)];
  }

  // ----- all passes -----

  /** The output after one pass over the whole part. */
  ghost predicate Pass(s: Shape, mask: nat, symbols: seq<real>, means: seq<real>, before: seq<real>, after: seq<real>)
    requires ShapeOk(s) && |symbols| == PartSize(s) && |means| == FullSize(s)
  {
    RestoredUpTo(s, mask, symbols, means, before, after, 0, PartSize(s))
  }

  /** The passes of all masks, in order; each may use means that depend on the passes before it. */
  ghost predicate Passes(s: Shape, symbols: seq<seq<real>>, means: seq<seq<real>>, states: seq<seq<real>>)
    requires ShapeOk(s)
  {
    && |symbols| == |means| == s.parts && |states| == s.parts + 1
    && forall m :: 0 <= m < s.parts ==>
         && |symbols[m]| == PartSize(s) && |means[m]| == FullSize(s)
         && Pass(s, m, symbols[m], means[m], states[m], states[m + 1])
  }

  lemma {:induction false} KeptAfter(s: Shape, symbols: seq<seq<real>>, means: seq<seq<real>>, states: seq<seq<real>>,
                                     m: nat, n: nat, i: nat)
    requires ShapeOk(s) && Passes(s, symbols, means, states) && i < FullSize(s) && PassOf(s, i) < m <= n <= s.parts
    ensures |states[m]| == |states[n]| == FullSize(s) && states[n][i] == states[m][i]
  {
    hide PassOf, PlaceOf, FullSize, PartSize;
    if m < n {
      KeptAfter(s, symbols, means, states, m, n - 1, i);
      assert Pass(s, n - 1, symbols[n - 1], means[n - 1], states[n - 1], states[n]);
    } else {
      assert Pass(s, m - 1, symbols[m - 1], means[m - 1], states[m - 1], states[m]);
    }
  }

  /** All passes together write every element, each in exactly one pass and from one symbol. */
  lemma PassesCoverOnce(s: Shape, symbols: seq<seq<real>>, means: seq<seq<real>>, states: seq<seq<real>>, i: nat)
    requires ShapeOk(s) && Passes(s, symbols, means, states) && i < FullSize(s)
    ensures PassOf(s, i) < s.parts && PlaceOf(s, i) < PartSize(s) && |states[s.parts]| == FullSize(s)
    ensures var m := PassOf(s, i);
            |symbols[m]| == PartSize(s) && |means[m]| == FullSize(s)
            && states[s.parts][i] == symbols[m][PlaceOf(s, i)] + means[m][i]
    ensures forall m, l :: 0 <= m < s.parts && 0 <= l < PartSize(s) && FullIndex(s, m, l) == i ==>
              m == PassOf(s, i) && l == PlaceOf(s, i)
  {
    hide PassOf, PlaceOf, FullSize, PartSize, FullIndex;
    Reached(s, i);
    var m := PassOf(s, i);
    assert Pass(s, m, symbols[m], means[m], states[m], states[m + 1]);
    KeptAfter(s, symbols, means, states, m + 1, s.parts, i);
    forall k, l | 0 <= k < s.parts && 0 <= l < PartSize(s) && FullIndex(s, k, l) == i
      ensures k == m && l == PlaceOf(s, i)
    {
      ReachedOnce(s, k, l);
    }
  }

  /** Gathering every part and scattering them by the same maps rebuilds the tensor. */
  lemma ScatterUndoesGather<T>(s: Shape, full: seq<T>, rebuilt: seq<T>)
    requires ShapeOk(s) && |full| == |rebuilt| == FullSize(s)
    requires forall m, l :: 0 <= m < s.parts && 0 <= l < PartSize(s) ==>
               GatheredAt(s, m, rebuilt, l) == Gathered(s, m, full)[l]
    ensures rebuilt == full
  {
    hide PassOf, PlaceOf, FullSize, PartSize, FullIndex;
    forall i | 0 <= i < |full| ensures rebuilt[i] == full[i] {
      Reached(s, i);
      assert GatheredAt(s, PassOf(s, i), rebuilt, PlaceOf(s, i)) == Gathered(s, PassOf(s, i), full)[PlaceOf(s, i)];
    }
  }
}
