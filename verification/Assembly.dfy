/** The fragments of one unit received so far: where they lie, and what they add up to. */
module Assembly {
  import opened Options
  import opened Bytes
  import opened Tally

  /** Fragments by offset. */
  type Pieces = map<nat, seq<byte>>

  function Size(piece: seq<byte>): nat {
    |piece|
  }

  ghost function Total(pieces: Pieces): nat {
    Sum(pieces, Size)
  }

  /** Non-empty, inside [0, length), and disjoint. */
  ghost predicate Sound(pieces: Pieces, length: nat) {
    && (forall o :: o in pieces ==> pieces[o] != [] && o + |pieces[o]| <= length)
    && (forall a, b :: a in pieces && b in pieces && a < b ==> a + |pieces[a]| <= b)
  }

  ghost predicate CoversAt(pieces: Pieces, o: nat, i: nat) {
    o in pieces && o <= i < o + |pieces[o]|
  }

  ghost predicate Covered(pieces: Pieces, i: nat) {
    exists o :: CoversAt(pieces, o, i)
  }

  /** The byte at a position; zero where nothing was received. */
  ghost function ByteAt(pieces: Pieces, i: nat): byte {
    if Covered(pieces, i) then
      var o :| CoversAt(pieces, o, i);
      pieces[o][i - o]
    else 0
  }

  /** The buffer: all pieces in place over zeros. */
  ghost function Joined(pieces: Pieces, length: nat): (data: seq<byte>)
    ensures |data| == length
  {
    seq(length, i requires 0 <= i < length => ByteAt(pieces, i))
  }

  lemma ByteOfPiece(pieces: Pieces, length: nat, o: nat, i: nat)
    requires Sound(pieces, length) && CoversAt(pieces, o, i)
    ensures ByteAt(pieces, i) == pieces[o][i - o]
  {
    assert Covered(pieces, i);
    forall p: nat | CoversAt(pieces, p, i) ensures p == o {}
  }

  lemma PieceInJoined(pieces: Pieces, length: nat, o: nat)
    requires Sound(pieces, length) && o in pieces
    ensures Joined(pieces, length)[o..o + |pieces[o]|] == pieces[o]
  {
    forall k | 0 <= k < |pieces[o]| ensures Joined(pieces, length)[o + k] == pieces[o][k] {
      assert CoversAt(pieces, o, o + k);
      ByteOfPiece(pieces, length, o, o + k);
    }
  }

  /** Copying one more piece into the buffer. */
  lemma JoinedAdd(pieces: Pieces, length: nat, o: nat, piece: seq<byte>)
    requires o !in pieces && Sound(pieces[o := piece], length) && o + |piece| <= length
    ensures var data := Joined(pieces, length);
            Joined(pieces[o := piece], length) == data[..o] + piece + data[o + |piece|..]
  {
    var more := pieces[o := piece];
    var data := Joined(pieces, length);
    forall i | 0 <= i < length ensures Joined(more, length)[i] == (data[..o] + piece + data[o + |piece|..])[i] {
      if CoversAt(more, o, i) {
        ByteOfPiece(more, length, o, i);
      } else {
        OtherByte(pieces, length, o, piece, i);
      }
    }
  }

  lemma OtherByte(pieces: Pieces, length: nat, o: nat, piece: seq<byte>, i: nat)
    requires o !in pieces && Sound(pieces[o := piece], length) && !CoversAt(pieces[o := piece], o, i)
    ensures ByteAt(pieces[o := piece], i) == ByteAt(pieces, i)
  {
    var more := pieces[o := piece];
    assert Sound(pieces, length) by {
      forall a | a in pieces ensures pieces[a] == more[a] {}
    }
    if Covered(pieces, i) {
      var p :| CoversAt(pieces, p, i);
      assert CoversAt(more, p, i);
      ByteOfPiece(pieces, length, p, i);
      ByteOfPiece(more, length, p, i);
    } else if Covered(more, i) {
      var p :| CoversAt(more, p, i);
      assert CoversAt(pieces, p, i);
    }
  }

  // ----- counting widths counts coverage -----

  ghost function Last(pieces: Pieces): nat
    requires pieces != map[]
    ensures Last(pieces) in pieces && forall o :: o in pieces ==> o <= Last(pieces)
  {
    LastExists(pieces.Keys);
    var o :| o in pieces && forall p :: p in pieces ==> p <= o;
    o
  }

  lemma {:induction false} LastExists(s: set<nat>)
    requires s != {}
    ensures exists o :: o in s && forall p :: p in s ==> p <= o
  {
    var x :| x in s;
    if s - {x} != {} {
      LastExists(s - {x});
      var o :| o in s - {x} && forall p :: p in s - {x} ==> p <= o;
      var last := if x <= o then o else x;
      assert last in s;
      forall p | p in s ensures p <= last {
        if p != x { assert p in s - {x}; }
      }
    } else {
      assert x in s && forall p :: p in s ==> p <= x by {
        forall p | p in s ensures p <= x { assert p !in s - {x}; }
      }
    }
  }

  lemma SoundBelow(pieces: Pieces, length: nat, o: nat)
    requires Sound(pieces, length) && o in pieces && forall p :: p in pieces ==> p <= o
    ensures Sound(pieces - {o}, o)
  {
  }

  /** Disjoint pieces within [0, length) have total width at most length, and less if a byte is missing. */
  lemma {:induction false} TotalBound(pieces: Pieces, length: nat, i: nat)
    requires Sound(pieces, length)
    ensures Total(pieces) <= length
    ensures i < length && !Covered(pieces, i) ==> Total(pieces) < length
    decreases |pieces|
  {
    if pieces != map[] {
      var o := Last(pieces);
      Smaller(pieces, o);
      SumRemove(pieces, Size, o);
      SoundBelow(pieces, length, o);
      TotalBound(pieces - {o}, o, i);
      if i < length && !Covered(pieces, i) {
        assert !CoversAt(pieces, o, i);
        if i < o && Covered(pieces - {o}, i) {
          var p :| CoversAt(pieces - {o}, p, i);
          assert CoversAt(pieces, p, i);
        }
      }
    }
  }

  /** Count equal to length means every byte is there, the first one included. */
  lemma FullIsCovered(pieces: Pieces, length: nat)
    requires Sound(pieces, length) && Total(pieces) == length
    ensures forall i: nat :: i < length ==> Covered(pieces, i)
    ensures 0 < length ==> 0 in pieces
  {
    forall i: nat | i < length ensures Covered(pieces, i) { TotalBound(pieces, length, i); }
    if 0 < length {
      assert Covered(pieces, 0);
      var o: nat :| CoversAt(pieces, o, 0);
    }
  }

  /** All pieces cut from one unit: once they are as long as the unit, they are the unit. */
  ghost predicate CutFrom(pieces: Pieces, unit: seq<byte>) {
    forall o :: o in pieces ==> o + |pieces[o]| <= |unit| && pieces[o] == unit[o..o + |pieces[o]|]
  }

  lemma FullIsUnit(pieces: Pieces, unit: seq<byte>)
    requires Sound(pieces, |unit|) && CutFrom(pieces, unit) && Total(pieces) == |unit|
    ensures Joined(pieces, |unit|) == unit
  {
    FullIsCovered(pieces, |unit|);
    forall i | 0 <= i < |unit| ensures Joined(pieces, |unit|)[i] == unit[i] {
      assert Covered(pieces, i);
      var o: nat :| CoversAt(pieces, o, i);
      ByteOfPiece(pieces, |unit|, o, i);
    }
  }

  // ----- finding an overlap -----

  predicate Meets(pieces: Pieces, o: nat, offset: nat, end: nat) {
    o in pieces && o < end && offset < o + |pieces[o]|
  }

  /** The first key at or after offset, as std::map::lower_bound finds it. */
  ghost predicate IsNext(pieces: Pieces, offset: nat, next: nat) {
    next in pieces && offset <= next && forall o :: o in pieces && offset <= o ==> next <= o
  }

  ghost predicate IsPrevious(pieces: Pieces, offset: nat, previous: nat) {
    previous in pieces && previous < offset && forall o :: o in pieces && o < offset ==> o <= previous
  }

  /** Next and previous are the neighbours of a range that starts at offset. */
  ghost predicate Neighbours(pieces: Pieces, offset: nat, next: Option<nat>, previous: Option<nat>) {
    && (match next case Some(n) => IsNext(pieces, offset, n) case None => forall o :: o in pieces ==> o < offset)
    && (match previous case Some(p) => IsPrevious(pieces, offset, p) case None => forall o :: o in pieces ==> offset <= o)
  }

  /** A range overlaps some piece exactly when it overlaps one of its two neighbours. */
  lemma NeighboursDecide(pieces: Pieces, length: nat, offset: nat, end: nat, next: Option<nat>, previous: Option<nat>)
    requires Sound(pieces, length) && offset < end && Neighbours(pieces, offset, next, previous)
    ensures (exists o: nat :: Meets(pieces, o, offset, end))
       <==> (next.Some? && Meets(pieces, next.value, offset, end)) || (previous.Some? && Meets(pieces, previous.value, offset, end))
  {
    if o: nat :| Meets(pieces, o, offset, end) {
      if offset <= o { assert Meets(pieces, next.value, offset, end); } else { assert o == previous.value; }
    }
  }

  /** Adding a piece that meets none keeps the pieces disjoint. */
  lemma SoundAdd(pieces: Pieces, length: nat, offset: nat, piece: seq<byte>)
    requires Sound(pieces, length) && piece != [] && offset + |piece| <= length
    requires forall o :: o in pieces ==> !Meets(pieces, o, offset, offset + |piece|)
    ensures offset !in pieces && Sound(pieces[offset := piece], length)
  {
    var more := pieces[offset := piece];
    forall a, b | a in more && b in more && a < b ensures a + |more[a]| <= b {
      if a == offset { assert !Meets(pieces, b, offset, offset + |piece|); }
      if b == offset { assert !Meets(pieces, a, offset, offset + |piece|); }
    }
  }
}
