/** The scratch vectors whose elements pending tasks point into: borrowing one more element may move them all. */
module EntropySlots {

  /** A std::vector of buffers, the first used of them borrowed; intact until borrowed ones were moved. */
  datatype Slots = Slots(size: nat, capacity: nat, used: nat, intact: bool)

  predicate Sized(s: Slots) {
    s.used <= s.size <= s.capacity
  }

  const NO_SLOTS := Slots(0, 0, 0, true)

  /** emplace_back when all elements are borrowed; a full vector moves to a larger one, with spare more places
      than needed. */
  function Borrowed(s: Slots, spare: nat): (t: Slots)
    requires Sized(s)
    ensures Sized(t) && t.used == s.used + 1
  {
    if s.used < s.size then s.(used := s.used + 1)
    else if s.size < s.capacity then s.(size := s.size + 1, used := s.used + 1)
    else Slots(s.size + 1, s.size + 1 + spare, s.used + 1, s.intact && s.used == 0)
  }

  /** resize while nothing is borrowed */
  function Resized(s: Slots, size: nat, spare: nat): (t: Slots)
    requires Sized(s) && s.used == 0
    ensures Sized(t) && t.used == 0 && size <= t.capacity && t.intact == s.intact
  {
    s.(size := size, capacity := if size <= s.capacity then s.capacity else size + spare)
  }

  /** Nothing is borrowed any more; the elements stay. */
  function Returned(s: Slots): (t: Slots)
    requires Sized(s)
    ensures Sized(t) && t.used == 0 && t.intact
  {
    s.(used := 0, intact := true)
  }

  /** clear(): no elements, the same capacity. */
  function Cleared(s: Slots): (t: Slots)
    requires Sized(s)
    ensures Sized(t) && t.used == 0 && t.intact
  {
    s.(size := 0, used := 0, intact := true)
  }

  function After(s: Slots, spares: seq<nat>): (t: Slots)
    requires Sized(s)
    ensures Sized(t) && t.used == s.used + |spares|
  {
    if spares == [] then s else Borrowed(After(s, spares[..|spares| - 1]), spares[|spares| - 1])
  }

  /** Until the vector has grown it has its old capacity, and when it grows borrowed elements move. */
  lemma {:induction false} GrowthMoves(s: Slots, spares: seq<nat>)
    requires Sized(s) && s.intact && 0 < s.capacity
    ensures var t := After(s, spares);
            if s.used + |spares| <= s.capacity then t.intact && t.capacity == s.capacity else !t.intact
  {
    if spares != [] { GrowthMoves(s, spares[..|spares| - 1]); }
  }

  /** Borrowed elements stay in place, whatever the allocator does, exactly when they fit the capacity. */
  lemma IntactExactly(s: Slots, spares: seq<nat>)
    requires Sized(s) && s.intact && s.used == 0 && 0 < s.capacity
    ensures After(s, spares).intact <==> |spares| <= s.capacity
  {
    GrowthMoves(s, spares);
  }

  /** Reserve makes room for what it was asked for, and takes no room away: afterwards borrowed elements stay in
      place exactly when they fit the new room, or the room there already was if that was enough. */
  lemma ReservedStay(s: Slots, size: nat, spare: nat, spares: seq<nat>)
    requires Sized(s) && s.intact && s.used == 0 && 0 < size
    ensures After(Resized(s, size, spare), spares).intact <==>
            |spares| <= if s.capacity < size then size + spare else s.capacity
    ensures |spares| <= size ==> After(Resized(s, size, spare), spares).intact
  {
    IntactExactly(Resized(s, size, spare), spares);
  }

  /** Without Reserve, and with the least growth, the second borrowed element already moves the first. */
  lemma UnreservedMoves(spare: nat)
    ensures After(NO_SLOTS, [0]).intact && !After(NO_SLOTS, [0, spare]).intact
  {
    assert [0, spare][..1] == [0] && [0][..0] == [];
    assert After(NO_SLOTS, []) == NO_SLOTS;
    assert After(NO_SLOTS, [0]) == Slots(1, 1, 1, true);
  }
}
