/** A unit whose fragments all arrive is delivered: in any order, with any repeats, START first or the
    bytes before it within the budgets. */
module ReassemblyLiveness {
  import opened Bytes
  import opened Tally
  import opened RtpFragment
  import opened Assembly
  import opened ReassemblySpec
  import opened ReassemblyRuns
  import opened ReassemblyDelivery

  /** The slices with these numbers, by number. */
  function Slices(unit: seq<byte>, seen: set<nat>): (m: map<nat, seq<byte>>) {
    map i | i in seen && i < Count(|unit|) :: Slice(unit, i)
  }

  ghost function Width(unit: seq<byte>, seen: set<nat>): nat {
    Sum(Slices(unit, seen), Size)
  }

  predicate Complete(unit: seq<byte>, seen: set<nat>) {
    forall i: nat :: i < Count(|unit|) ==> i in seen
  }

  /** The pieces are exactly the slices with these numbers. */
  ghost predicate Matches(pieces: Pieces, unit: seq<byte>, seen: set<nat>) {
    && (forall o :: o in pieces ==> IsSlice(unit, seen, o, pieces[o]))
    && (forall i :: i in seen ==> i * CHUNK in pieces)
  }

  ghost predicate IsSlice(unit: seq<byte>, seen: set<nat>, o: nat, piece: seq<byte>) {
    exists i :: i in seen && i < Count(|unit|) && o == i * CHUNK && piece == Slice(unit, i)
  }

  ghost predicate Holds(pieces: Pieces, unit: seq<byte>, seen: set<nat>) {
    Matches(pieces, unit, seen) && Total(pieces) == Width(unit, seen) && |pieces| == |seen|
  }

  /** Others' share of the store only shrinks; base is the sums before the first fragment. */
  datatype Base = Base(bytes: nat, ranges: nat, preStart: nat)

  ghost function BaseOf(s: Store): Base {
    Base(PendingBytes(s) + CompletedBytes(s), Ranges(s), PreStart(s))
  }

  /** No fragment has come yet. */
  ghost predicate Waiting(limits: Limits, base: Base, s: Store, key: UnitKey) {
    && StoreOk(limits, s) && key !in s.completed && key !in s.pending
    && PendingBytes(s) + CompletedBytes(s) <= base.bytes && Ranges(s) <= base.ranges && PreStart(s) <= base.preStart
  }

  /** The unit is open and has exactly these slices. */
  ghost predicate Growing(limits: Limits, base: Base, s: Store, key: UnitKey, unit: seq<byte>, seen: set<nat>, from: int) {
    && StoreOk(limits, s) && key !in s.completed && key in s.pending && s.pending[key].length == |unit|
    && Holds(s.pending[key].pieces, unit, seen) && from <= s.pending[key].lastUpdated
    && PendingBytes(s) + CompletedBytes(s) <= base.bytes + |unit| && Ranges(s) <= base.ranges + |seen|
    && PreStart(s) <= base.preStart + if 0 in seen then 0 else Width(unit, seen)
  }

  function KeyOfHeader(h: Header): UnitKey {
    UnitKey(h.ssrc, h.timestamp, h.unitType, h.configId, h.unitId)
  }

  lemma SliceStarts(unit: seq<byte>, i: nat)
    requires i < Count(|unit|)
    ensures i * CHUNK < |unit|
  {
  }

  lemma WidthGrows(unit: seq<byte>, seen: set<nat>, i: nat)
    requires i < Count(|unit|) && i !in seen && forall j :: j in seen ==> j < Count(|unit|)
    ensures Width(unit, seen + {i}) == Width(unit, seen) + |Slice(unit, i)|
  {
    SumAdd(Slices(unit, seen), Size, i, Slice(unit, i));
    assert Slices(unit, seen)[i := Slice(unit, i)] == Slices(unit, seen + {i});
  }

  /** A slice already there is recognised; a new one overlaps none. */
  lemma SliceRepeats(pieces: Pieces, unit: seq<byte>, seen: set<nat>, h: Header, i: nat)
    requires |unit| <= UNIT_MAX_BYTES && i in seen && forall j :: j in seen ==> j < Count(|unit|)
    requires Matches(pieces, unit, seen)
    ensures var f := Cut(h, unit, i); SameRange(pieces, f) && pieces[f.offset] == f.payload
  {
    var o := i * CHUNK;
    assert IsSlice(unit, seen, o, pieces[o]);
  }

  lemma SliceIsNew(pieces: Pieces, unit: seq<byte>, seen: set<nat>, h: Header, i: nat)
    requires |unit| <= UNIT_MAX_BYTES && i < Count(|unit|) && forall j :: j in seen ==> j < Count(|unit|)
    requires Matches(pieces, unit, seen) && i !in seen
    ensures var f := Cut(h, unit, i); !SameRange(pieces, f) && !Overlaps(pieces, f)
  {
    var f := Cut(h, unit, i);
    forall o | o in pieces ensures !Meets(pieces, o, f.offset, End(f)) {
      assert IsSlice(unit, seen, o, pieces[o]);
      var j :| j in seen && j < Count(|unit|) && o == j * CHUNK && pieces[o] == Slice(unit, j);
      Apart(unit, j, i);
    }
    assert SameRange(pieces, f) ==> Meets(pieces, f.offset, f.offset, End(f));
  }

  lemma Apart(unit: seq<byte>, i: nat, j: nat)
    requires i < Count(|unit|) && j < Count(|unit|) && i != j
    ensures i * CHUNK + |Slice(unit, i)| <= j * CHUNK || j * CHUNK + |Slice(unit, j)| <= i * CHUNK
  {
  }

  lemma MatchesMore(pieces: Pieces, unit: seq<byte>, seen: set<nat>, i: nat)
    requires i < Count(|unit|) && forall j :: j in seen ==> j < Count(|unit|)
    requires Matches(pieces, unit, seen) && i !in seen
    ensures i * CHUNK !in pieces && Matches(pieces[i * CHUNK := Slice(unit, i)], unit, seen + {i})
  {
    var more, all := pieces[i * CHUNK := Slice(unit, i)], seen + {i};
    forall o | o in pieces ensures o != i * CHUNK && IsSlice(unit, all, o, pieces[o]) {
      assert IsSlice(unit, seen, o, pieces[o]);
      var j :| j in seen && j < Count(|unit|) && o == j * CHUNK && pieces[o] == Slice(unit, j);
      assert j in all;
    }
    assert i in all;
    assert IsSlice(unit, all, i * CHUNK, more[i * CHUNK]);
  }

  lemma PieceMore(pieces: Pieces, o: nat, piece: seq<byte>)
    requires o !in pieces
    ensures Total(pieces[o := piece]) == Total(pieces) + |piece| && |pieces[o := piece]| == |pieces| + 1
  {
    SumAdd<nat, seq<byte>>(pieces, Size, o, piece);
    Smaller(pieces[o := piece], o);
    assert pieces[o := piece] - {o} == pieces;
  }

  lemma HoldsMore(pieces: Pieces, unit: seq<byte>, seen: set<nat>, i: nat)
    requires i < Count(|unit|) && forall j :: j in seen ==> j < Count(|unit|)
    requires Holds(pieces, unit, seen) && i !in seen
    ensures Holds(pieces[i * CHUNK := Slice(unit, i)], unit, seen + {i})
  {
    hide Matches, Slices, Width, Slice;
    MatchesMore(pieces, unit, seen, i);
    WidthGrows(unit, seen, i);
    PieceMore(pieces, i * CHUNK, Slice(unit, i));
  }

  /** Full exactly when every slice has come. */
  lemma FullWhenAll(pieces: Pieces, unit: seq<byte>, seen: set<nat>)
    requires forall j :: j in seen ==> j < Count(|unit|)
    requires Sound(pieces, |unit|) && Matches(pieces, unit, seen)
    ensures Complete(unit, seen) <==> Total(pieces) == |unit|
    ensures Total(pieces) <= |unit|
  {
    TotalBound(pieces, |unit|, 0);
    if Complete(unit, seen) {
      forall x: nat | x < |unit| ensures Covered(pieces, x) { SliceCovers(pieces, unit, seen, x); }
      CoveredIsFull(pieces, |unit|);
    } else {
      var i: nat :| i < Count(|unit|) && i !in seen;
      SliceMissing(pieces, unit, seen, i);
      TotalBound(pieces, |unit|, i * CHUNK);
    }
  }

  lemma SliceMissing(pieces: Pieces, unit: seq<byte>, seen: set<nat>, i: nat)
    requires forall j :: j in seen ==> j < Count(|unit|)
    requires i < Count(|unit|) && i !in seen && Matches(pieces, unit, seen)
    ensures !Covered(pieces, i * CHUNK) && i * CHUNK < |unit|
  {
    SliceStarts(unit, i);
    forall o: nat | o in pieces ensures !CoversAt(pieces, o, i * CHUNK) {
      assert IsSlice(unit, seen, o, pieces[o]);
      var j :| j in seen && j < Count(|unit|) && o == j * CHUNK && pieces[o] == Slice(unit, j);
      Apart(unit, j, i);
    }
  }

  lemma SliceCovers(pieces: Pieces, unit: seq<byte>, seen: set<nat>, x: nat)
    requires forall j :: j in seen ==> j < Count(|unit|)
    requires x < |unit| && Complete(unit, seen) && Matches(pieces, unit, seen)
    ensures Covered(pieces, x)
  {
    var i := x / CHUNK;
    InSlice(unit, x);
    assert i in seen;
    assert IsSlice(unit, seen, i * CHUNK, pieces[i * CHUNK]);
    assert CoversAt(pieces, i * CHUNK, x);
  }

  lemma InSlice(unit: seq<byte>, x: nat)
    requires x < |unit|
    ensures x / CHUNK < Count(|unit|) && x / CHUNK * CHUNK <= x < SliceEnd(|unit|, x / CHUNK)
  {
  }

  lemma {:induction false} CoveredIsFull(pieces: Pieces, length: nat)
    requires Sound(pieces, length) && forall x: nat :: x < length ==> Covered(pieces, x)
    ensures Total(pieces) == length
    decreases |pieces|
  {
    if pieces == map[] {
      assert length > 0 ==> Covered(pieces, 0);
    } else {
      var o := Last(pieces);
      Smaller(pieces, o);
      SumRemove(pieces, Size, o);
      SoundBelow(pieces, length, o);
      LastEnds(pieces, length, o);
      forall x: nat | x < o ensures Covered(pieces - {o}, x) {
        assert Covered(pieces, x);
        var p: nat :| CoversAt(pieces, p, x);
        assert CoversAt(pieces - {o}, p, x);
      }
      CoveredIsFull(pieces - {o}, o);
    }
  }

  lemma LastEnds(pieces: Pieces, length: nat, o: nat)
    requires Sound(pieces, length) && o in pieces && forall p :: p in pieces ==> p <= o
    requires forall x: nat :: x < length ==> Covered(pieces, x)
    ensures o + |pieces[o]| == length
  {
    if o + |pieces[o]| < length {
      assert Covered(pieces, length - 1);
      var p: nat :| CoversAt(pieces, p, length - 1);
    }
  }

  // ----- one arrival -----

  lemma ExpireWaits(limits: Limits, base: Base, s: Store, key: UnitKey, now: int)
    requires Waiting(limits, base, s, key)
    ensures Waiting(limits, base, Expire(limits, s, now), key)
  {
    ExpireKeeps(limits, s, now);
    FewerUnits(limits, s, Expire(limits, s, now));
  }

  /** The unit itself does not expire: its last fragment is more recent than the timeout. */
  lemma ExpireGrows(limits: Limits, base: Base, s: Store, key: UnitKey, unit: seq<byte>, seen: set<nat>, from: int, now: int)
    requires forall i :: i in seen ==> i < Count(|unit|)
    requires Growing(limits, base, s, key, unit, seen, from) && now < from + limits.timeout
    ensures Growing(limits, base, Expire(limits, s, now), key, unit, seen, from)
    ensures Expire(limits, s, now).pending[key] == s.pending[key]
  {
    FewerUnits(limits, s, Expire(limits, s, now));
  }

  lemma NoSlices(unit: seq<byte>)
    ensures Holds(map[], unit, {}) && Width(unit, {}) == 0
  {
    assert Slices(unit, {}) == map[];
  }

  /** The first fragment opens the unit. */
  lemma OpenGrows(limits: Limits, base: Base, s: Store, f: Fragment, unit: seq<byte>, from: int, now: int)
    requires LimitsOk(limits) && Waiting(limits, base, s, KeyOf(f)) && from <= now
    requires f.unitLength == |unit| && 0 < |unit| <= limits.bytes
    ensures Growing(limits, base, Open(limits, s, f, now), KeyOf(f), unit, {}, from)
  {
    var room := Room(limits, s, f.unitLength);
    OpenKeeps(limits, s, f, now);
    OpenIsRoom(limits, s, f, now);
    RoomHolds(limits, s, f.unitLength);
    FewerUnits(limits, s, room);
    EmptyUnit(f.unitLength, now);
    AddedSums(room, KeyOf(f), Unit(f.unitLength, map[], now));
    NoSlices(unit);
  }

  /** Room for what waits for the START: the fixed budget, and one chunk below the byte limit. */
  ghost predicate Budgeted(limits: Limits, base: Base, unit: seq<byte>, seen: set<nat>) {
    base.preStart + Width(unit, seen) <= MAX_PRE_START && base.bytes + |unit| + CHUNK <= limits.bytes
  }

  lemma MatchesCut(pieces: Pieces, unit: seq<byte>, seen: set<nat>)
    requires forall i :: i in seen ==> i < Count(|unit|)
    requires Matches(pieces, unit, seen)
    ensures CutFrom(pieces, unit) && (0 in seen <==> 0 in pieces)
  {
    forall o | o in pieces ensures o + |pieces[o]| <= |unit| && pieces[o] == unit[o..o + |pieces[o]|] {
      assert IsSlice(unit, seen, o, pieces[o]);
    }
    if 0 in pieces { assert IsSlice(unit, seen, 0, pieces[0]); }
    if 0 in seen { assert 0 * CHUNK in pieces; }
  }

  /** A new slice passes both limits of Take. */
  lemma SliceFits(limits: Limits, base: Base, s: Store, h: Header, unit: seq<byte>, seen: set<nat>, from: int, i: nat)
    requires Sendable(limits, h, unit) && i < Count(|unit|) && i !in seen && forall j :: j in seen ==> j < Count(|unit|)
    requires Growing(limits, base, s, KeyOfHeader(h), unit, seen, from)
    requires 0 !in seen && i != 0 ==> Budgeted(limits, base, unit, seen + {i})
    ensures var f, u := Cut(h, unit, i), s.pending[KeyOfHeader(h)];
            0 !in u.pieces && f.offset != 0 ==> PreStartFits(limits, s, f)
  {
    MatchesCut(s.pending[KeyOfHeader(h)].pieces, unit, seen);
    WidthGrows(unit, seen, i);
  }

  /** What one more slice makes of the unit. */
  lemma PlusSlice(u: Unit, unit: seq<byte>, seen: set<nat>, h: Header, i: nat)
    requires |unit| <= UNIT_MAX_BYTES && i < Count(|unit|) && i !in seen && forall j :: j in seen ==> j < Count(|unit|)
    requires u.length == |unit| && Sound(u.pieces, u.length) && Holds(u.pieces, unit, seen)
    ensures var f, pieces := Cut(h, unit, i), PlusPiece(u, Cut(h, unit, i));
            && !SameRange(u.pieces, f) && !Overlaps(u.pieces, f) && f.offset !in u.pieces
            && Sound(pieces, |unit|) && Holds(pieces, unit, seen + {i}) && CutFrom(pieces, unit)
            && (Complete(unit, seen + {i}) <==> Total(pieces) == |unit|)
            && Total(pieces) == Total(u.pieces) + |f.payload| && |pieces| == |u.pieces| + 1
            && (0 in pieces <==> 0 in seen + {i})
  {
    var f := Cut(h, unit, i);
    SliceIsNew(u.pieces, unit, seen, h, i);
    PieceAdded(u, f);
    HoldsMore(u.pieces, unit, seen, i);
    assert PlusPiece(u, f) == u.pieces[i * CHUNK := Slice(unit, i)];
    FullWhenAll(PlusPiece(u, f), unit, seen + {i});
    MatchesCut(PlusPiece(u, f), unit, seen + {i});
  }

  /** What Take does with a slice that fits. */
  lemma TakeFits(limits: Limits, s: Store, f: Fragment, now: int)
    requires KeyOf(f) in s.pending
    requires var u := s.pending[KeyOf(f)];
             && (Ranges(s) < MAX_RANGES || u.length <= Total(u.pieces) + |f.payload|)
             && (0 !in u.pieces && f.offset != 0 ==> PreStartFits(limits, s, f))
    ensures var u := s.pending[KeyOf(f)];
            var pieces := PlusPiece(u, f);
            if Total(pieces) == u.length then Take(limits, s, f, now).1 == Delivered(Joined(pieces, u.length))
            else Take(limits, s, f, now) == (WithUnit(s, KeyOf(f), Unit(u.length, pieces, now)), NotYet)
  {
  }

  /** The last missing slice delivers the unit. */
  lemma LastSliceDelivers(limits: Limits, base: Base, s: Store, h: Header, unit: seq<byte>, seen: set<nat>, from: int,
                          i: nat, now: int)
    requires Sendable(limits, h, unit) && i < Count(|unit|) && i !in seen && forall j :: j in seen ==> j < Count(|unit|)
    requires Growing(limits, base, s, KeyOfHeader(h), unit, seen, from)
    requires 0 !in seen && i != 0 ==> Budgeted(limits, base, unit, seen + {i})
    requires Complete(unit, seen + {i})
    ensures Take(limits, s, Cut(h, unit, i), now).1 == Delivered(unit)
  {
    var u, f := s.pending[KeyOfHeader(h)], Cut(h, unit, i);
    PlusSlice(u, unit, seen, h, i);
    SliceFits(limits, base, s, h, unit, seen, from, i);
    TakeFits(limits, s, f, now);
    FullIsUnit(PlusPiece(u, f), unit);
  }

  /** The sums after one more slice. */
  lemma SliceSums(base: Base, s: Store, key: UnitKey, unit: seq<byte>, seen: set<nat>, i: nat, v: Unit)
    requires i < Count(|unit|) && i !in seen && forall j :: j in seen ==> j < Count(|unit|)
    requires key in s.pending && v.length == s.pending[key].length == |unit|
    requires |v.pieces| == |s.pending[key].pieces| + 1
    requires 0 in v.pieces <==> 0 in seen + {i}
    requires 0 in s.pending[key].pieces <==> 0 in seen
    requires Total(s.pending[key].pieces) == Width(unit, seen) && Total(v.pieces) == Width(unit, seen + {i})
    requires PreStart(s) <= base.preStart + if 0 in seen then 0 else Width(unit, seen)
    ensures var t := WithUnit(s, key, v);
            && PendingBytes(t) == PendingBytes(s) && Ranges(t) == Ranges(s) + 1
            && PreStart(t) <= base.preStart + if 0 in seen + {i} then 0 else Width(unit, seen + {i})
  {
    UpdatedSums(s, key, v);
  }

  /** Any other new slice is buffered. */
  lemma NewSliceBuffers(limits: Limits, base: Base, s: Store, h: Header, unit: seq<byte>, seen: set<nat>, from: int,
                        i: nat, now: int) returns (t: Store)
    requires Sendable(limits, h, unit) && i < Count(|unit|) && i !in seen && forall j :: j in seen ==> j < Count(|unit|)
    requires Growing(limits, base, s, KeyOfHeader(h), unit, seen, from) && from <= now
    requires 0 !in seen && i != 0 ==> Budgeted(limits, base, unit, seen + {i})
    requires !Complete(unit, seen + {i}) && base.ranges + |seen| < MAX_RANGES
    ensures Take(limits, s, Cut(h, unit, i), now) == (t, NotYet)
    ensures Growing(limits, base, t, KeyOfHeader(h), unit, seen + {i}, from)
  {
    hide Growing, Holds, Take, Complete, StoreOk, Budgeted;
    hide Total, Width, PreStart, Ranges, PendingBytes, CompletedBytes, SliceEnd, Count;
    var key := KeyOfHeader(h);
    var v := SliceTaken(limits, base, s, h, unit, seen, from, i, now);
    GrowingFacts(limits, base, s, key, unit, seen, from);
    HoldsTotals(s.pending[key].pieces, unit, seen);
    HoldsTotals(v.pieces, unit, seen + {i});
    SliceSums(base, s, key, unit, seen, i, v);
    GrowingMore(limits, base, s, key, unit, seen, from, i, v);
    t := WithUnit(s, key, v);
  }

  lemma CutFacts(h: Header, unit: seq<byte>, i: nat)
    requires i < Count(|unit|) && |unit| <= UNIT_MAX_BYTES
    ensures var f := Cut(h, unit, i);
            f.payload != [] && End(f) <= |unit| && KeyOf(f) == KeyOfHeader(h) && f.unitLength == |unit|
  {
  }

  /** The unit with the new slice, put back. */
  lemma SliceTaken(limits: Limits, base: Base, s: Store, h: Header, unit: seq<byte>, seen: set<nat>, from: int,
                   i: nat, now: int) returns (v: Unit)
    requires Sendable(limits, h, unit) && i < Count(|unit|) && i !in seen && forall j :: j in seen ==> j < Count(|unit|)
    requires Growing(limits, base, s, KeyOfHeader(h), unit, seen, from)
    requires 0 !in seen && i != 0 ==> Budgeted(limits, base, unit, seen + {i})
    requires !Complete(unit, seen + {i}) && base.ranges + |seen| < MAX_RANGES
    ensures KeyOfHeader(h) in s.pending && v.length == |unit| && v.lastUpdated == now
    ensures |v.pieces| == |s.pending[KeyOfHeader(h)].pieces| + 1 && Holds(v.pieces, unit, seen + {i})
    ensures Take(limits, s, Cut(h, unit, i), now) == (WithUnit(s, KeyOfHeader(h), v), NotYet)
    ensures StoreOk(limits, WithUnit(s, KeyOfHeader(h), v))
  {
    hide Growing, Holds, Take, Complete, PreStartFits, StoreOk, CutFrom, Sound, Overlaps, SameRange, Budgeted;
    hide Total, Width, PreStart, Ranges, PendingBytes, CompletedBytes, SliceEnd, Count, Cut;
    var key, f := KeyOfHeader(h), Cut(h, unit, i);
    CutFacts(h, unit, i);
    GrowingFacts(limits, base, s, key, unit, seen, from);
    var u := s.pending[key];
    v := Unit(u.length, PlusPiece(u, f), now);
    PlusSlice(u, unit, seen, h, i);
    SliceFits(limits, base, s, h, unit, seen, from, i);
    TakeFits(limits, s, f, now);
    TakeKeeps(limits, s, f, now);
  }

  lemma GrowingFacts(limits: Limits, base: Base, s: Store, key: UnitKey, unit: seq<byte>, seen: set<nat>, from: int)
    requires forall i :: i in seen ==> i < Count(|unit|)
    requires Growing(limits, base, s, key, unit, seen, from)
    ensures key in s.pending && StoreOk(limits, s)
    ensures var u := s.pending[key]; u.length == |unit| && Sound(u.pieces, u.length) && Holds(u.pieces, unit, seen)
    ensures PendingBytes(s) + CompletedBytes(s) <= base.bytes + |unit| && Ranges(s) <= base.ranges + |seen|
    ensures PreStart(s) <= base.preStart + if 0 in seen then 0 else Width(unit, seen)
  {
  }

  lemma HoldsTotals(pieces: Pieces, unit: seq<byte>, seen: set<nat>)
    requires forall i :: i in seen ==> i < Count(|unit|)
    requires Holds(pieces, unit, seen)
    ensures Total(pieces) == Width(unit, seen) && (0 in seen <==> 0 in pieces)
  {
    MatchesCut(pieces, unit, seen);
  }

  lemma GrowingMore(limits: Limits, base: Base, s: Store, key: UnitKey, unit: seq<byte>, seen: set<nat>, from: int,
                    i: nat, v: Unit)
    requires i < Count(|unit|) && i !in seen && forall j :: j in seen ==> j < Count(|unit|)
    requires Growing(limits, base, s, key, unit, seen, from)
    requires v.length == |unit| && Holds(v.pieces, unit, seen + {i}) && from <= v.lastUpdated
    requires var t := WithUnit(s, key, v);
             && StoreOk(limits, t) && PendingBytes(t) == PendingBytes(s) && Ranges(t) == Ranges(s) + 1
             && PreStart(t) <= base.preStart + if 0 in seen + {i} then 0 else Width(unit, seen + {i})
    ensures Growing(limits, base, WithUnit(s, key, v), key, unit, seen + {i}, from)
  {
    hide StoreOk, Holds, Width, PreStart, Ranges;
  }

  // ----- pushes -----

  ghost predicate InProgress(limits: Limits, base: Base, s: Store, key: UnitKey, unit: seq<byte>, seen: set<nat>, from: int) {
    if seen == {} then Waiting(limits, base, s, key) else Growing(limits, base, s, key, unit, seen, from)
  }

  /** Push of a valid fragment into an open unit. */
  lemma PushOpened(limits: Limits, s: Store, f: Fragment, now: int)
    requires Rejection(limits, f).None? && KeyOf(f) !in Expire(limits, s, now).completed
    ensures var t := Expire(limits, s, now);
            var open := if KeyOf(f) in t.pending then t else Open(limits, t, f, now);
            KeyOf(f) in open.pending &&
            var u := open.pending[KeyOf(f)];
            && (u.length == f.unitLength && SameRange(u.pieces, f) && u.pieces[f.offset] == f.payload ==>
                  Push(limits, s, f, now) == (open, NotYet))
            && (u.length == f.unitLength && !SameRange(u.pieces, f) && !Overlaps(u.pieces, f) ==>
                  Push(limits, s, f, now) == Take(limits, open, f, now))
  {
  }

  lemma OpenSlice(limits: Limits, base: Base, s: Store, h: Header, unit: seq<byte>, seen: set<nat>, from: int,
                  i: nat, now: int)
    requires LimitsOk(limits) && Sendable(limits, h, unit) && i < Count(|unit|) && forall j :: j in seen ==> j < Count(|unit|)
    requires InProgress(limits, base, s, KeyOfHeader(h), unit, seen, from)
    requires from <= now < from + limits.timeout
    ensures var f, t := Cut(h, unit, i), Expire(limits, s, now);
            var open := if KeyOf(f) in t.pending then t else Open(limits, t, f, now);
            KeyOf(f) == KeyOfHeader(h) && KeyOf(f) !in t.completed && Growing(limits, base, open, KeyOfHeader(h), unit, seen, from)
  {
    if seen == {} {
      ExpireWaits(limits, base, s, KeyOfHeader(h), now);
      OpenGrows(limits, base, Expire(limits, s, now), Cut(h, unit, i), unit, from, now);
    } else {
      ExpireGrows(limits, base, s, KeyOfHeader(h), unit, seen, from, now);
    }
  }

  /** A repeated fragment changes nothing. */
  lemma PushRepeats(limits: Limits, base: Base, s: Store, h: Header, unit: seq<byte>, seen: set<nat>, from: int,
                    i: nat, now: int) returns (t: Store)
    requires LimitsOk(limits) && Sendable(limits, h, unit) && i in seen && forall j :: j in seen ==> j < Count(|unit|)
    requires InProgress(limits, base, s, KeyOfHeader(h), unit, seen, from)
    requires from <= now < from + limits.timeout
    ensures Push(limits, s, Cut(h, unit, i), now) == (t, NotYet)
    ensures InProgress(limits, base, t, KeyOfHeader(h), unit, seen, from)
  {
    var f, kept := Cut(h, unit, i), Expire(limits, s, now);
    CutTravels(limits, h, unit, i);
    OpenSlice(limits, base, s, h, unit, seen, from, i, now);
    PushOpened(limits, s, f, now);
    t := if KeyOf(f) in kept.pending then kept else Open(limits, kept, f, now);
    SliceRepeats(t.pending[KeyOf(f)].pieces, unit, seen, h, i);
  }

  /** A new fragment is taken into the open unit. */
  lemma PushTakes(limits: Limits, base: Base, s: Store, h: Header, unit: seq<byte>, seen: set<nat>, from: int,
                  i: nat, now: int) returns (open: Store)
    requires LimitsOk(limits) && Sendable(limits, h, unit) && i < Count(|unit|) && i !in seen
    requires forall j :: j in seen ==> j < Count(|unit|)
    requires InProgress(limits, base, s, KeyOfHeader(h), unit, seen, from)
    requires from <= now < from + limits.timeout
    ensures Growing(limits, base, open, KeyOfHeader(h), unit, seen, from)
    ensures KeyOf(Cut(h, unit, i)) in open.pending
    ensures Push(limits, s, Cut(h, unit, i), now) == Take(limits, open, Cut(h, unit, i), now)
  {
    var f, t := Cut(h, unit, i), Expire(limits, s, now);
    CutTravels(limits, h, unit, i);
    OpenSlice(limits, base, s, h, unit, seen, from, i, now);
    PushOpened(limits, s, f, now);
    open := if KeyOf(f) in t.pending then t else Open(limits, t, f, now);
    SliceIsNew(open.pending[KeyOf(f)].pieces, unit, seen, h, i);
  }

  /** The last missing fragment delivers the unit. */
  lemma PushDelivers(limits: Limits, base: Base, s: Store, h: Header, unit: seq<byte>, seen: set<nat>, from: int,
                  i: nat, now: int)
    requires LimitsOk(limits) && Sendable(limits, h, unit) && i < Count(|unit|) && i !in seen
    requires forall j :: j in seen ==> j < Count(|unit|)
    requires InProgress(limits, base, s, KeyOfHeader(h), unit, seen, from)
    requires from <= now < from + limits.timeout
    requires 0 !in seen && i != 0 ==> Budgeted(limits, base, unit, seen + {i})
    requires Complete(unit, seen + {i})
    ensures Push(limits, s, Cut(h, unit, i), now).1 == Delivered(unit)
  {
    var open := PushTakes(limits, base, s, h, unit, seen, from, i, now);
    LastSliceDelivers(limits, base, open, h, unit, seen, from, i, now);
  }

  /** Any other new fragment is buffered. */
  lemma PushBuffers(limits: Limits, base: Base, s: Store, h: Header, unit: seq<byte>, seen: set<nat>, from: int,
                  i: nat, now: int) returns (t: Store)
    requires LimitsOk(limits) && Sendable(limits, h, unit) && i < Count(|unit|) && i !in seen
    requires forall j :: j in seen ==> j < Count(|unit|)
    requires InProgress(limits, base, s, KeyOfHeader(h), unit, seen, from)
    requires from <= now < from + limits.timeout
    requires 0 !in seen && i != 0 ==> Budgeted(limits, base, unit, seen + {i})
    requires !Complete(unit, seen + {i}) && base.ranges + |seen| < MAX_RANGES
    ensures Push(limits, s, Cut(h, unit, i), now) == (t, NotYet)
    ensures InProgress(limits, base, t, KeyOfHeader(h), unit, seen + {i}, from)
  {
    hide Growing, Waiting, Take, Push, Complete, Budgeted;
    var open := PushTakes(limits, base, s, h, unit, seen, from, i, now);
    t := NewSliceBuffers(limits, base, open, h, unit, seen, from, i, now);
    assert i in seen + {i};
  }

  // ----- whole arrivals -----

  function Arrivals(h: Header, unit: seq<byte>, order: seq<nat>, times: seq<int>): seq<Event>
    requires |order| == |times| && |unit| <= UNIT_MAX_BYTES && forall k :: 0 <= k < |order| ==> order[k] < Count(|unit|)
  {
    seq(|order|, k requires 0 <= k < |order| => Event(Cut(h, unit, order[k]), times[k]))
  }

  function Seen(order: seq<nat>): set<nat> {
    set i | i in order
  }

  /** The numbers that arrive before the first START. */
  function BeforeStart(order: seq<nat>): set<nat> {
    if order == [] || order[0] == 0 then {} else {order[0]} + BeforeStart(order[1..])
  }

  lemma WidthMonotone(unit: seq<byte>, a: set<nat>, b: set<nat>)
    requires a <= b
    ensures Width(unit, a) <= Width(unit, b)
  {
    SumShrinks(Slices(unit, a), Slices(unit, b), Size);
  }

  lemma {:induction false} SeenCount(seen: set<nat>, n: nat)
    requires forall i :: i in seen ==> i < n
    ensures |seen| <= n && (|seen| == n ==> forall i: nat :: i < n ==> i in seen)
  {
    if n > 0 {
      var rest := seen - {n - 1};
      SeenCount(rest, n - 1);
      if n - 1 in seen {
        assert |rest| == |seen| - 1;
      } else {
        assert rest == seen;
      }
    }
  }

  /** NotYet for every arrival but the last, which delivers. */
  ghost predicate DeliversLast(outcomes: seq<Outcome>, unit: seq<byte>) {
    && outcomes != [] && outcomes[|outcomes| - 1] == Delivered(unit)
    && forall k :: 0 <= k < |outcomes| - 1 ==> outcomes[k] == NotYet
  }

  lemma DeliversLater(outcomes: seq<Outcome>, unit: seq<byte>)
    requires DeliversLast(outcomes, unit)
    ensures DeliversLast([NotYet] + outcomes, unit)
  {
  }

  lemma OutcomesSplit(limits: Limits, s: Store, h: Header, unit: seq<byte>, order: seq<nat>, times: seq<int>)
    requires order != [] && |order| == |times| && |unit| <= UNIT_MAX_BYTES
    requires forall k :: 0 <= k < |order| ==> order[k] < Count(|unit|)
    ensures var (t, outcome) := Push(limits, s, Cut(h, unit, order[0]), times[0]);
            Outcomes(limits, s, Arrivals(h, unit, order, times))
            == [outcome] + Outcomes(limits, t, Arrivals(h, unit, order[1..], times[1..]))
  {
    assert Arrivals(h, unit, order, times)[1..] == Arrivals(h, unit, order[1..], times[1..]);
  }

  /** How the hypotheses on the numbers pass to the rest. */
  lemma OrderStep(seen: set<nat>, order: seq<nat>)
    requires order != []
    ensures var i, rest := order[0], order[1..];
            && seen + Seen(order) == seen + {i} + Seen(rest)
            && (i != 0 ==> seen + BeforeStart(order) == seen + {i} + BeforeStart(rest))
            && (rest != [] ==> seen + Seen(order[..|order| - 1]) == seen + {i} + Seen(rest[..|rest| - 1]))
            && (rest == [] ==> Seen(rest) == {})
            && (i != 0 ==> seen + {i} <= seen + BeforeStart(order))
  {
    SplitSeen(order);
    if order[1..] != [] {
      SplitSeen(order[..|order| - 1]);
      assert order[..|order| - 1][1..] == order[1..][..|order[1..]| - 1];
    }
  }

  /** An arrival that leaves something missing. */
  lemma PushMore(limits: Limits, base: Base, s: Store, h: Header, unit: seq<byte>, seen: set<nat>, from: int,
                 i: nat, now: int) returns (t: Store)
    requires LimitsOk(limits) && Sendable(limits, h, unit) && i < Count(|unit|) && forall j :: j in seen ==> j < Count(|unit|)
    requires InProgress(limits, base, s, KeyOfHeader(h), unit, seen, from)
    requires from <= now < from + limits.timeout && base.ranges + Count(|unit|) <= MAX_RANGES + 1
    requires 0 !in seen && i != 0 ==> Budgeted(limits, base, unit, seen + {i})
    requires !Complete(unit, seen + {i})
    ensures Push(limits, s, Cut(h, unit, i), now) == (t, NotYet)
    ensures InProgress(limits, base, t, KeyOfHeader(h), unit, seen + {i}, from)
  {
    hide Push, InProgress, Budgeted, Complete;
    if i in seen {
      assert seen + {i} == seen;
      t := PushRepeats(limits, base, s, h, unit, seen, from, i, now);
    } else {
      RoomForRange(unit, seen, i);
      t := PushBuffers(limits, base, s, h, unit, seen, from, i, now);
    }
  }

  lemma BudgetSoFar(limits: Limits, base: Base, unit: seq<byte>, seen: set<nat>, order: seq<nat>)
    requires order != [] && (0 in seen || BeforeStart(order) == {} || Budgeted(limits, base, unit, seen + BeforeStart(order)))
    ensures 0 !in seen && order[0] != 0 ==> Budgeted(limits, base, unit, seen + {order[0]})
    ensures var now, rest := seen + {order[0]}, order[1..];
            0 in now || BeforeStart(rest) == {} || Budgeted(limits, base, unit, now + BeforeStart(rest))
  {
    OrderStep(seen, order);
    if 0 !in seen && order[0] != 0 { WidthMonotone(unit, seen + {order[0]}, seen + BeforeStart(order)); }
  }

  /** The hypotheses on what is still to come. */
  ghost predicate Ready(limits: Limits, base: Base, unit: seq<byte>, seen: set<nat>, from: int,
                        order: seq<nat>, times: seq<int>)
  {
    && |order| == |times| && order != []
    && (forall j :: j in seen ==> j < Count(|unit|)) && (forall k :: 0 <= k < |order| ==> order[k] < Count(|unit|))
    && (forall k :: 0 <= k < |times| ==> from <= times[k] < from + limits.timeout)
    && Complete(unit, seen + Seen(order)) && !Complete(unit, seen + Seen(order[..|order| - 1]))
    && (0 in seen || BeforeStart(order) == {} || Budgeted(limits, base, unit, seen + BeforeStart(order)))
  }

  lemma ReadyStep(limits: Limits, base: Base, unit: seq<byte>, seen: set<nat>, from: int, order: seq<nat>, times: seq<int>)
    requires Ready(limits, base, unit, seen, from, order, times)
    ensures 0 !in seen && order[0] != 0 ==> Budgeted(limits, base, unit, seen + {order[0]})
    ensures |order| == 1 ==> order[0] !in seen && Complete(unit, seen + {order[0]})
    ensures |order| > 1 ==>
              !Complete(unit, seen + {order[0]}) && Ready(limits, base, unit, seen + {order[0]}, from, order[1..], times[1..])
  {
    OrderStep(seen, order);
    BudgetSoFar(limits, base, unit, seen, order);
    if |order| == 1 {
      assert seen + Seen(order[..0]) == seen && seen + {order[0]} == seen + Seen(order);
      assert order[0] in seen ==> seen + Seen(order) == seen;
    } else {
      NotCompleteYet(unit, seen, order);
    }
  }

  lemma {:induction false} RunSlices(limits: Limits, base: Base, s: Store, h: Header, unit: seq<byte>, seen: set<nat>,
                                     from: int, order: seq<nat>, times: seq<int>)
    requires LimitsOk(limits) && Sendable(limits, h, unit) && base.ranges + Count(|unit|) <= MAX_RANGES + 1
    requires Ready(limits, base, unit, seen, from, order, times)
    requires InProgress(limits, base, s, KeyOfHeader(h), unit, seen, from)
    ensures DeliversLast(Outcomes(limits, s, Arrivals(h, unit, order, times)), unit)
    decreases |order|
  {
    hide Push, InProgress, Growing, Waiting, StoreOk, UnitsOk;
    var i, rest := order[0], order[1..];
    ReadyStep(limits, base, unit, seen, from, order, times);
    OutcomesSplit(limits, s, h, unit, order, times);
    if |order| == 1 {
      PushDelivers(limits, base, s, h, unit, seen, from, i, times[0]);
    } else {
      var t := PushMore(limits, base, s, h, unit, seen, from, i, times[0]);
      RunSlices(limits, base, t, h, unit, seen + {i}, from, rest, times[1..]);
      DeliversLater(Outcomes(limits, t, Arrivals(h, unit, rest, times[1..])), unit);
    }
  }

  lemma NotCompleteYet(unit: seq<byte>, seen: set<nat>, order: seq<nat>)
    requires |order| >= 2 && !Complete(unit, seen + Seen(order[..|order| - 1]))
    ensures !Complete(unit, seen + {order[0]})
  {
    assert order[0] == order[..|order| - 1][0];
    var i: nat :| i < Count(|unit|) && i !in seen + Seen(order[..|order| - 1]);
    assert i !in seen + {order[0]};
  }

  lemma RoomForRange(unit: seq<byte>, seen: set<nat>, i: nat)
    requires (forall j :: j in seen ==> j < Count(|unit|)) && i < Count(|unit|) && i !in seen
    requires !Complete(unit, seen + {i})
    ensures |seen| + 1 < Count(|unit|)
  {
    SeenCount(seen + {i}, Count(|unit|));
  }

  lemma SplitSeen(order: seq<nat>)
    requires order != []
    ensures Seen(order) == {order[0]} + Seen(order[1..])
  {
    assert order == [order[0]] + order[1..];
  }

  lemma NothingYet(limits: Limits, s: Store, key: UnitKey)
    requires StoreOk(limits, s) && key !in s.pending && key !in s.completed
    ensures Waiting(limits, BaseOf(s), s, key)
  {
  }

  /** The fragments of a unit, in any order and with any repeats, until the last missing one comes: all
      return false but that one, which returns the unit.  Needed: the key is new, nothing in the run is
      older than the timeout, the range table has room, and START is first or what precedes it fits. */
  lemma AllFragmentsDeliver(limits: Limits, s: Store, h: Header, unit: seq<byte>, from: int, order: seq<nat>, times: seq<int>)
    requires LimitsOk(limits) && StoreOk(limits, s) && Sendable(limits, h, unit) && |order| == |times|
    requires KeyOfHeader(h) !in s.pending && KeyOfHeader(h) !in s.completed
    requires forall k :: 0 <= k < |order| ==> order[k] < Count(|unit|)
    requires forall k :: 0 <= k < |times| ==> from <= times[k] < from + limits.timeout
    requires Ranges(s) + Count(|unit|) <= MAX_RANGES + 1
    requires order != [] && Complete(unit, Seen(order)) && !Complete(unit, Seen(order[..|order| - 1]))
    requires order[0] == 0 || Budgeted(limits, BaseOf(s), unit, BeforeStart(order))
    ensures DeliversLast(Outcomes(limits, s, Arrivals(h, unit, order, times)), unit)
  {
    hide Outcomes, Budgeted, Arrivals, StoreOk, Waiting, Growing, Complete;
    assert {} + Seen(order) == Seen(order) && {} + Seen(order[..|order| - 1]) == Seen(order[..|order| - 1]);
    assert {} + BeforeStart(order) == BeforeStart(order);
    NothingYet(limits, s, KeyOfHeader(h));
    RunSlices(limits, BaseOf(s), s, h, unit, {}, from, order, times);
  }
}
