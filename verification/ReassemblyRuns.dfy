/** What holds of the reassembler over whole runs, whatever is pushed. */
module ReassemblyRuns {
  import opened Bytes
  import opened Tally
  import opened RtpFragment
  import opened Assembly
  import opened ReassemblySpec

  // ----- the bounds -----

  ghost predicate UnitOk(limits: Limits, u: Unit) {
    0 < u.length <= limits.bytes && Sound(u.pieces, u.length) && Total(u.pieces) < u.length
  }

  ghost predicate UnitsOk(limits: Limits, s: Store) {
    forall k :: k in s.pending ==> UnitOk(limits, s.pending[k]) && k !in s.completed
  }

  /** All the bounds at once: bytes, units, ranges, and bytes waiting for a START. */
  ghost predicate Bounded(limits: Limits, s: Store) {
    && PendingBytes(s) + CompletedBytes(s) <= limits.bytes
    && |s.pending| <= limits.units && |s.completed| <= limits.units
    && Ranges(s) <= MAX_RANGES && PreStart(s) <= MAX_PRE_START
  }

  ghost predicate StoreOk(limits: Limits, s: Store) {
    UnitsOk(limits, s) && Bounded(limits, s)
  }

  function WithUnit(s: Store, key: UnitKey, u: Unit): Store {
    s.(pending := s.pending[key := u])
  }

  function Without(s: Store, key: UnitKey): Store {
    s.(pending := s.pending - {key})
  }

  lemma AddedSums(s: Store, key: UnitKey, u: Unit)
    requires key !in s.pending
    ensures var t := WithUnit(s, key, u);
            && PendingBytes(t) == PendingBytes(s) + u.length && Ranges(t) == Ranges(s) + |u.pieces|
            && PreStart(t) == PreStart(s) + PreStartBytes(u) && |t.pending| == |s.pending| + 1
            && CompletedBytes(t) == CompletedBytes(s)
  {
    SumAdd(s.pending, Length, key, u);
    SumAdd(s.pending, RangeCount, key, u);
    SumAdd(s.pending, PreStartBytes, key, u);
    Smaller(s.pending[key := u], key);
    assert s.pending[key := u] - {key} == s.pending;
  }

  lemma UpdatedSums(s: Store, key: UnitKey, u: Unit)
    requires key in s.pending
    ensures var t, v := WithUnit(s, key, u), s.pending[key];
            && PendingBytes(t) == PendingBytes(s) - v.length + u.length && Ranges(t) == Ranges(s) - |v.pieces| + |u.pieces|
            && PreStart(t) == PreStart(s) - PreStartBytes(v) + PreStartBytes(u) && |t.pending| == |s.pending|
            && CompletedBytes(t) == CompletedBytes(s)
  {
    SumUpdate(s.pending, Length, key, u);
    SumUpdate(s.pending, RangeCount, key, u);
    SumUpdate(s.pending, PreStartBytes, key, u);
    assert s.pending[key := u].Keys == s.pending.Keys;
    assert |s.pending[key := u].Keys| == |s.pending[key := u]| && |s.pending.Keys| == |s.pending|;
  }

  lemma RemovedSums(s: Store, key: UnitKey)
    requires key in s.pending
    ensures var t, v := Without(s, key), s.pending[key];
            && PendingBytes(t) == PendingBytes(s) - v.length && Ranges(t) == Ranges(s) - |v.pieces|
            && PreStart(t) == PreStart(s) - PreStartBytes(v) && |t.pending| == |s.pending| - 1
            && CompletedBytes(t) == CompletedBytes(s)
  {
    SumRemove(s.pending, Length, key);
    SumRemove(s.pending, RangeCount, key);
    SumRemove(s.pending, PreStartBytes, key);
    Smaller(s.pending, key);
  }

  predicate LimitsOk(limits: Limits) {
    0 < limits.bytes && 0 < limits.units && 0 < limits.timeout
  }

  ghost predicate PartOf<V>(part: map<UnitKey, V>, whole: map<UnitKey, V>) {
    forall k :: k in part ==> k in whole && part[k] == whole[k]
  }

  /** Losing units keeps every bound. */
  lemma FewerUnits(limits: Limits, s: Store, t: Store)
    requires StoreOk(limits, s) && PartOf(t.pending, s.pending) && PartOf(t.completed, s.completed)
    ensures StoreOk(limits, t)
    ensures PendingBytes(t) <= PendingBytes(s) && CompletedBytes(t) <= CompletedBytes(s) && PreStart(t) <= PreStart(s)
    ensures Ranges(t) <= Ranges(s)
  {
    SumShrinks(t.pending, s.pending, Length);
    SumShrinks(t.completed, s.completed, Size);
    SumShrinks(t.pending, s.pending, RangeCount);
    SumShrinks(t.pending, s.pending, PreStartBytes);
    SizeShrinks(t.pending, s.pending);
    SizeShrinks(t.completed, s.completed);
  }

  lemma {:induction false} ForgetHolds(completed: map<UnitKey, seq<byte>>, allowance: int)
    ensures PartOf(Forget(completed, allowance), completed)
    ensures 0 <= allowance ==> Sum(Forget(completed, allowance), Size) <= allowance
    decreases |completed|
  {
    if !(Sum(completed, Size) <= allowance || completed == map[]) {
      Smaller(completed, First(completed));
      ForgetHolds(completed - {First(completed)}, allowance);
    }
  }

  lemma {:induction false} EvictHolds(limits: Limits, pending: map<UnitKey, Unit>, length: nat, completedBytes: nat)
    requires 0 < limits.units && length + completedBytes <= limits.bytes
    ensures var left := Evict(limits, pending, length, completedBytes);
            PartOf(left, pending) && |left| < limits.units && length + Sum(left, Length) + completedBytes <= limits.bytes
    decreases |pending|
  {
    if !(pending == map[] || (|pending| < limits.units && length <= limits.bytes - Sum(pending, Length) - completedBytes)) {
      Smaller(pending, Oldest(pending));
      EvictHolds(limits, pending - {Oldest(pending)}, length, completedBytes);
    }
  }

  lemma {:induction false} TrimHolds(limits: Limits, s: Store)
    ensures Trim(limits, s).pending == s.pending && Trim(limits, s).lastCleanup == s.lastCleanup
    ensures PartOf(Trim(limits, s).completed, s.completed)
    ensures |Trim(limits, s).completed| <= limits.units
    decreases |s.completed|
  {
    if !(s.completed == map[]
         || (CompletedBytes(s) + PendingBytes(s) <= limits.bytes && |s.completed| <= limits.units))
    {
      Smaller(s.completed, First(s.completed));
      TrimHolds(limits, s.(completed := s.completed - {First(s.completed)}));
    }
  }

  lemma ExpireKeeps(limits: Limits, s: Store, now: int)
    requires StoreOk(limits, s)
    ensures StoreOk(limits, Expire(limits, s, now))
    ensures PartOf(Expire(limits, s, now).pending, s.pending) && Expire(limits, s, now).completed == s.completed
  {
    FewerUnits(limits, s, Expire(limits, s, now));
  }

  /** The store after making room for a unit of this length. */
  ghost function Room(limits: Limits, s: Store, length: nat): Store {
    var completed := Forget(s.completed, limits.bytes - length);
    s.(completed := completed, pending := Evict(limits, s.pending, length, Sum(completed, Size)))
  }

  /** Making room makes enough. */
  lemma RoomHolds(limits: Limits, s: Store, length: nat)
    requires 0 < limits.units && 0 < length <= limits.bytes
    ensures var room := Room(limits, s, length);
            && PartOf(room.pending, s.pending) && PartOf(room.completed, s.completed)
            && |room.pending| < limits.units && length + PendingBytes(room) + CompletedBytes(room) <= limits.bytes
  {
    hide Forget, Evict, Sum;
    var completed := Forget(s.completed, limits.bytes - length);
    ForgetHolds(s.completed, limits.bytes - length);
    EvictHolds(limits, s.pending, length, Sum(completed, Size));
  }

  lemma EmptyUnit(length: nat, now: int)
    ensures var u := Unit(length, map[], now); PreStartBytes(u) == 0 && Total(u.pieces) == 0 && |u.pieces| == 0
  {
  }

  lemma OpenIsRoom(limits: Limits, s: Store, f: Fragment, now: int)
    requires LimitsOk(limits)
    ensures Open(limits, s, f, now) == WithUnit(Room(limits, s, f.unitLength), KeyOf(f), Unit(f.unitLength, map[], now))
  {
  }

  /** Making room, then opening the unit. */
  lemma OpenKeeps(limits: Limits, s: Store, f: Fragment, now: int)
    requires LimitsOk(limits) && StoreOk(limits, s) && 0 < f.unitLength <= limits.bytes
    requires KeyOf(f) !in s.pending && KeyOf(f) !in s.completed
    ensures StoreOk(limits, Open(limits, s, f, now))
  {
    var empty := Unit(f.unitLength, map[], now);
    var room := Room(limits, s, f.unitLength);
    OpenIsRoom(limits, s, f, now);
    RoomHolds(limits, s, f.unitLength);
    FewerUnits(limits, s, room);
    OpenRoomKeeps(limits, room, KeyOf(f), empty);
  }

  lemma OpenRoomKeeps(limits: Limits, room: Store, key: UnitKey, empty: Unit)
    requires StoreOk(limits, room) && key !in room.pending && key !in room.completed
    requires empty.pieces == map[] && 0 < empty.length <= limits.bytes
    requires |room.pending| < limits.units && empty.length + PendingBytes(room) + CompletedBytes(room) <= limits.bytes
    ensures StoreOk(limits, WithUnit(room, key, empty))
  {
    EmptyUnit(empty.length, empty.lastUpdated);
    AddedSums(room, key, empty);
    UnitPut(limits, room, key, empty);
  }

  lemma UnitPut(limits: Limits, s: Store, key: UnitKey, u: Unit)
    requires UnitsOk(limits, s) && UnitOk(limits, u) && key !in s.completed
    ensures UnitsOk(limits, WithUnit(s, key, u))
  {
  }

  lemma DropKeeps(limits: Limits, s: Store, k: UnitKey)
    requires StoreOk(limits, s)
    ensures StoreOk(limits, Without(s, k))
  {
    FewerUnits(limits, s, Without(s, k));
  }

  function PlusPiece(u: Unit, f: Fragment): Pieces {
    u.pieces[f.offset := f.payload]
  }

  /** The unit with one more piece. */
  lemma PieceSound(u: Unit, f: Fragment)
    requires Sound(u.pieces, u.length) && f.payload != [] && End(f) <= u.length && !Overlaps(u.pieces, f)
    ensures f.offset !in u.pieces && Sound(PlusPiece(u, f), u.length)
  {
    forall o | o in u.pieces ensures !Meets(u.pieces, o, f.offset, f.offset + |f.payload|) {
      assert End(f) == f.offset + |f.payload|;
    }
    SoundAdd(u.pieces, u.length, f.offset, f.payload);
  }

  lemma PieceCounted(u: Unit, f: Fragment)
    requires f.offset !in u.pieces
    ensures Total(PlusPiece(u, f)) == Total(u.pieces) + |f.payload|
    ensures |PlusPiece(u, f)| == |u.pieces| + 1
  {
    SumAdd<nat, seq<byte>>(u.pieces, Size, f.offset, f.payload);
    Smaller(PlusPiece(u, f), f.offset);
    assert PlusPiece(u, f) - {f.offset} == u.pieces;
  }

  lemma PieceAdded(u: Unit, f: Fragment)
    requires Sound(u.pieces, u.length) && f.payload != [] && End(f) <= u.length && !Overlaps(u.pieces, f)
    ensures f.offset !in u.pieces && Sound(PlusPiece(u, f), u.length)
    ensures Total(PlusPiece(u, f)) == Total(u.pieces) + |f.payload| <= u.length
    ensures |PlusPiece(u, f)| == |u.pieces| + 1
  {
    PieceSound(u, f);
    PieceCounted(u, f);
    TotalBound(PlusPiece(u, f), u.length, 0);
  }

  lemma PreStartAfter(u: Unit, f: Fragment, now: int)
    requires Total(PlusPiece(u, f)) == Total(u.pieces) + |f.payload|
    ensures var v := Unit(u.length, PlusPiece(u, f), now);
            PreStartBytes(v) <= PreStartBytes(u) + if 0 !in u.pieces && f.offset != 0 then |f.payload| else 0
  {
  }

  /** Buffering a piece: the sums move by exactly what was added. */
  lemma BufferKeeps(limits: Limits, s: Store, f: Fragment, now: int)
    requires StoreOk(limits, s) && KeyOf(f) in s.pending
    requires var u := s.pending[KeyOf(f)];
             f.payload != [] && End(f) <= u.length && !Overlaps(u.pieces, f) && Total(u.pieces) + |f.payload| < u.length
    requires Ranges(s) < MAX_RANGES
    requires 0 !in s.pending[KeyOf(f)].pieces && f.offset != 0 ==> PreStartFits(limits, s, f)
    ensures var u := s.pending[KeyOf(f)];
            StoreOk(limits, WithUnit(s, KeyOf(f), Unit(u.length, PlusPiece(u, f), now)))
  {
    var key, u := KeyOf(f), s.pending[KeyOf(f)];
    var v := Unit(u.length, PlusPiece(u, f), now);
    PieceAdded(u, f);
    PreStartAfter(u, f, now);
    UpdatedSums(s, key, v);
    UnitPut(limits, s, key, v);
  }

  /** Delivering a unit: its bytes move from the pending to the completed side. */
  lemma DeliverKeeps(limits: Limits, s: Store, f: Fragment, data: seq<byte>)
    requires StoreOk(limits, s) && KeyOf(f) in s.pending && |data| == s.pending[KeyOf(f)].length
    ensures StoreOk(limits, Trim(limits, Without(s, KeyOf(f)).(completed := s.completed[KeyOf(f) := data])))
  {
    hide Trim, UnitOk, Sum;
    var key := KeyOf(f);
    var t := Without(s, key).(completed := s.completed[key := data]);
    DropKeeps(limits, s, key);
    RemovedSums(s, key);
    SumAdd(s.completed, Size, key, data);
    TrimHolds(limits, t);
    SumShrinks(Trim(limits, t).completed, t.completed, Size);
  }

  lemma TakeKeeps(limits: Limits, s: Store, f: Fragment, now: int)
    requires StoreOk(limits, s) && KeyOf(f) in s.pending
    requires f.payload != [] && End(f) <= s.pending[KeyOf(f)].length && !Overlaps(s.pending[KeyOf(f)].pieces, f)
    ensures StoreOk(limits, Take(limits, s, f, now).0)
  {
    var u := s.pending[KeyOf(f)];
    var pieces := PlusPiece(u, f);
    PieceAdded(u, f);
    DropKeeps(limits, s, KeyOf(f));
    if Total(pieces) == u.length {
      DeliverKeeps(limits, s, f, Joined(pieces, u.length));
    } else if Ranges(s) < MAX_RANGES && !(0 !in u.pieces && f.offset != 0 && !PreStartFits(limits, s, f)) {
      BufferKeeps(limits, s, f, now);
    }
  }

  /** Every bound is kept by every push, however it returns or throws. */
  lemma PushKeeps(limits: Limits, s: Store, f: Fragment, now: int)
    requires LimitsOk(limits) && StoreOk(limits, s)
    ensures StoreOk(limits, Push(limits, s, f, now).0)
  {
    if Rejection(limits, f).None? {
      ExpireKeeps(limits, s, now);
      var t := Expire(limits, s, now);
      if KeyOf(f) !in t.completed {
        if KeyOf(f) !in t.pending { OpenKeeps(limits, t, f, now); }
        var open := if KeyOf(f) in t.pending then t else Open(limits, t, f, now);
        var u := open.pending[KeyOf(f)];
        if u.length == f.unitLength && !SameRange(u.pieces, f) && !Overlaps(u.pieces, f) {
          TakeKeeps(limits, open, f, now);
        }
      }
    }
  }

  /** No unit is stored without a fragment. */
  ghost predicate Started(s: Store) {
    forall k :: k in s.pending ==> s.pending[k].pieces != map[]
  }

  lemma StartedParts(s: Store, t: Store)
    requires Started(s) && PartOf(t.pending, s.pending)
    ensures Started(t)
  {
  }

  lemma TakeStarts(limits: Limits, s: Store, f: Fragment, now: int)
    requires KeyOf(f) in s.pending && Started(Without(s, KeyOf(f)))
    ensures Started(Take(limits, s, f, now).0)
  {
    hide Trim, PreStartFits, Joined;
    var key, u := KeyOf(f), s.pending[KeyOf(f)];
    var t := Without(s, key).(completed := s.completed[key := Joined(PlusPiece(u, f), u.length)]);
    TrimHolds(limits, t);
    assert f.offset in PlusPiece(u, f);
    forall k | k in s.pending && k != key ensures s.pending[k].pieces != map[] {
      assert k in Without(s, key).pending;
    }
  }

  lemma PushStarts(limits: Limits, s: Store, f: Fragment, now: int)
    requires LimitsOk(limits) && StoreOk(limits, s) && Started(s)
    ensures Started(Push(limits, s, f, now).0)
  {
    hide Take, Open, StoreOk, Overlaps, SameRange;
    if Rejection(limits, f).None? {
      var t := Expire(limits, s, now);
      StartedParts(s, t);
      if KeyOf(f) in t.completed {
      } else if KeyOf(f) in t.pending {
        StartedParts(t, Without(t, KeyOf(f)));
        TakeStarts(limits, t, f, now);
      } else {
        OpenStarts(limits, t, f, now);
        TakeStarts(limits, Open(limits, t, f, now), f, now);
      }
    }
  }

  /** A unit just opened has nothing a fragment could repeat or overlap. */
  lemma OpenStarts(limits: Limits, s: Store, f: Fragment, now: int)
    requires LimitsOk(limits) && Started(s) && KeyOf(f) !in s.pending && 0 < f.unitLength <= limits.bytes
    ensures var open := Open(limits, s, f, now);
            && KeyOf(f) in open.pending && open.pending[KeyOf(f)] == Unit(f.unitLength, map[], now)
            && Started(Without(open, KeyOf(f)))
            && !SameRange(map[], f) && !Overlaps(map[], f)
  {
    OpenIsRoom(limits, s, f, now);
    RoomHolds(limits, s, f.unitLength);
    StartedParts(s, Room(limits, s, f.unitLength));
  }
}
