/** Delivery among other traffic: fragments of any other units, true or not, may come in between, as long as
    the unit itself is neither evicted nor idle for too long. */
module ReassemblyInterleaving {
  import opened Bytes
  import opened Tally
  import opened RtpFragment
  import opened Assembly
  import opened ReassemblySpec
  import opened ReassemblyRuns
  import opened ReassemblyDelivery
  import opened ReassemblyLiveness

  /** A fragment of the unit by number, or a fragment of some other unit. */
  datatype Arrival = Own(number: nat, now: int) | Foreign(fragment: Fragment, now: int)

  /** The store knows exactly these slices of the unit. */
  ghost predicate Present(limits: Limits, s: Store, key: UnitKey, unit: seq<byte>, seen: set<nat>) {
    && StoreOk(limits, s) && key !in s.completed && (forall i :: i in seen ==> i < Count(|unit|))
    && if seen == {} then key !in s.pending
       else key in s.pending && s.pending[key].length == |unit| && Holds(s.pending[key].pieces, unit, seen)
  }

  /** The store into which Push puts a fragment. */
  ghost function Opened(limits: Limits, s: Store, f: Fragment, now: int): Store {
    var t := Expire(limits, s, now);
    if KeyOf(f) in t.pending then t else Open(limits, t, f, now)
  }

  /** Slice i has room when it comes: in the range table, and before the START in both byte budgets.  Opening
      the unit has already forgotten and evicted what stood in its way. */
  ghost predicate HasRoom(limits: Limits, s: Store, h: Header, unit: seq<byte>, seen: set<nat>, i: nat, now: int)
    requires i < Count(|unit|) && |unit| <= UNIT_MAX_BYTES
  {
    var open := Opened(limits, s, Cut(h, unit, i), now);
    && (Ranges(open) < MAX_RANGES || Complete(unit, seen + {i}))
    && (0 in seen || i == 0 || PreStartFits(limits, open, Cut(h, unit, i)))
  }

  function EventOf(h: Header, unit: seq<byte>, a: Arrival): Event
    requires |unit| <= UNIT_MAX_BYTES && (a.Own? ==> a.number < Count(|unit|))
  {
    match a
    case Own(i, now) => Event(Cut(h, unit, i), now)
    case Foreign(f, now) => Event(f, now)
  }

  predicate AllCuts(unit: seq<byte>, arrivals: seq<Arrival>) {
    forall k :: 0 <= k < |arrivals| ==> (arrivals[k].Own? ==> arrivals[k].number < Count(|unit|))
  }

  function Events(h: Header, unit: seq<byte>, arrivals: seq<Arrival>): (events: seq<Event>)
    requires |unit| <= UNIT_MAX_BYTES && AllCuts(unit, arrivals)
    ensures |events| == |arrivals|
  {
    seq(|arrivals|, k requires 0 <= k < |arrivals| => EventOf(h, unit, arrivals[k]))
  }

  /** At each arrival the unit is still there, and a new slice has room. */
  ghost predicate Undisturbed(limits: Limits, s: Store, h: Header, unit: seq<byte>, seen: set<nat>, arrivals: seq<Arrival>)
    requires |unit| <= UNIT_MAX_BYTES && AllCuts(unit, arrivals)
    decreases |arrivals|
  {
    arrivals != [] ==>
      var e := EventOf(h, unit, arrivals[0]);
      var next := Push(limits, s, e.fragment, e.now).0;
      match arrivals[0]
      case Own(i, now) =>
        && (seen != {} ==> KeyOfHeader(h) in Expire(limits, s, now).pending)
        && (i !in seen ==> HasRoom(limits, s, h, unit, seen, i, now))
        && Undisturbed(limits, next, h, unit, seen + {i}, arrivals[1..])
      case Foreign(f, now) =>
        && KeyOf(f) != KeyOfHeader(h) && (seen != {} ==> KeyOfHeader(h) in next.pending)
        && Undisturbed(limits, next, h, unit, seen, arrivals[1..])
  }

  /** The numbers of the unit's own slices. */
  function OwnSeen(arrivals: seq<Arrival>): set<nat> {
    set k | 0 <= k < |arrivals| && arrivals[k].Own? :: arrivals[k].number
  }

  // ----- another unit's fragment -----

  /** Nothing but the fragment's own entry is added or changed. */
  lemma PushOthers(limits: Limits, s: Store, f: Fragment, now: int, key: UnitKey)
    requires LimitsOk(limits) && StoreOk(limits, s) && KeyOf(f) != key
    ensures var t := Push(limits, s, f, now).0;
            && (key in t.pending ==> key in s.pending && t.pending[key] == s.pending[key])
            && (key in t.completed ==> key in s.completed)
  {
    hide Forget, Evict, StoreOk, Trim;
    if Rejection(limits, f).None? {
      var t := Expire(limits, s, now);
      ExpireKeeps(limits, s, now);
      if KeyOf(f) !in t.completed {
        var open := Opened(limits, s, f, now);
        assert KeyOf(f) in open.pending;
        OpenedOthers(limits, t, f, now, key);
        TakeOthers(limits, open, f, now, key);
      }
    }
  }

  lemma OpenedOthers(limits: Limits, t: Store, f: Fragment, now: int, key: UnitKey)
    requires LimitsOk(limits) && KeyOf(f) != key && Rejection(limits, f).None?
    ensures var open := if KeyOf(f) in t.pending then t else Open(limits, t, f, now);
            && (key in open.pending ==> key in t.pending && open.pending[key] == t.pending[key])
            && (key in open.completed ==> key in t.completed)
  {
    hide Forget, Evict;
    OpenIsRoom(limits, t, f, now);
    RoomHolds(limits, t, f.unitLength);
  }

  lemma TakeOthers(limits: Limits, s: Store, f: Fragment, now: int, key: UnitKey)
    requires KeyOf(f) in s.pending && KeyOf(f) != key
    ensures var t := Take(limits, s, f, now).0;
            && (key in t.pending ==> key in s.pending && t.pending[key] == s.pending[key])
            && (key in t.completed ==> key in s.completed)
  {
    hide Trim, Joined;
    var pieces := s.pending[KeyOf(f)].pieces[f.offset := f.payload];
    if Total(pieces) == s.pending[KeyOf(f)].length {
      var data := Joined(pieces, s.pending[KeyOf(f)].length);
      TrimPart(limits, s.(pending := s.pending - {KeyOf(f)}, completed := s.completed[KeyOf(f) := data]));
    }
  }

  lemma {:induction false} TrimPart(limits: Limits, s: Store)
    ensures Trim(limits, s).pending == s.pending && PartOf(Trim(limits, s).completed, s.completed)
    decreases |s.completed|
  {
    if s.completed != map[] {
      Smaller(s.completed, First(s.completed));
      TrimPart(limits, s.(completed := s.completed - {First(s.completed)}));
    }
  }

  lemma ForeignKeeps(limits: Limits, s: Store, f: Fragment, now: int, key: UnitKey, unit: seq<byte>, seen: set<nat>)
    requires LimitsOk(limits) && Present(limits, s, key, unit, seen) && KeyOf(f) != key
    requires seen != {} ==> key in Push(limits, s, f, now).0.pending
    ensures Present(limits, Push(limits, s, f, now).0, key, unit, seen)
  {
    hide Push, StoreOk, Holds, LimitsOk;
    PushKeeps(limits, s, f, now);
    PushOthers(limits, s, f, now, key);
  }

  // ----- the unit's own fragment -----

  /** The unit as it stands when its fragment is looked at. */
  lemma OwnOpened(limits: Limits, s: Store, h: Header, unit: seq<byte>, seen: set<nat>, i: nat, now: int)
    requires LimitsOk(limits) && Sendable(limits, h, unit) && i < Count(|unit|)
    requires Present(limits, s, KeyOfHeader(h), unit, seen)
    requires seen != {} ==> KeyOfHeader(h) in Expire(limits, s, now).pending
    ensures KeyOf(Cut(h, unit, i)) == KeyOfHeader(h) && KeyOfHeader(h) !in Expire(limits, s, now).completed
    ensures var open := Opened(limits, s, Cut(h, unit, i), now);
            && StoreOk(limits, open) && KeyOfHeader(h) !in open.completed && KeyOfHeader(h) in open.pending
            && open.pending[KeyOfHeader(h)].length == |unit| && Holds(open.pending[KeyOfHeader(h)].pieces, unit, seen)
  {
    hide StoreOk, Holds, Forget, Evict, Cut;
    var f, t := Cut(h, unit, i), Expire(limits, s, now);
    CutFacts(h, unit, i);
    ExpireKeeps(limits, s, now);
    if seen == {} {
      OpenKeeps(limits, t, f, now);
      OpenIsRoom(limits, t, f, now);
      RoomHolds(limits, t, f.unitLength);
      NoSlices(unit);
    }
  }

  lemma OwnRepeats(limits: Limits, s: Store, h: Header, unit: seq<byte>, seen: set<nat>, i: nat, now: int)
    requires LimitsOk(limits) && Sendable(limits, h, unit) && i in seen
    requires Present(limits, s, KeyOfHeader(h), unit, seen) && KeyOfHeader(h) in Expire(limits, s, now).pending
    ensures Push(limits, s, Cut(h, unit, i), now).1 == NotYet
    ensures Present(limits, Push(limits, s, Cut(h, unit, i), now).0, KeyOfHeader(h), unit, seen)
  {
    hide StoreOk, Push, Cut, Expire;
    var f := Cut(h, unit, i);
    CutTravels(limits, h, unit, i);
    OwnOpened(limits, s, h, unit, seen, i, now);
    PushOpened(limits, s, f, now);
    SliceRepeats(Opened(limits, s, f, now).pending[KeyOf(f)].pieces, unit, seen, h, i);
    CutFacts(h, unit, i);
  }

  /** A new slice is taken into the unit. */
  lemma OwnTaken(limits: Limits, s: Store, h: Header, unit: seq<byte>, seen: set<nat>, i: nat, now: int)
    requires LimitsOk(limits) && Sendable(limits, h, unit) && i < Count(|unit|) && i !in seen
    requires Present(limits, s, KeyOfHeader(h), unit, seen)
    requires seen != {} ==> KeyOfHeader(h) in Expire(limits, s, now).pending
    requires HasRoom(limits, s, h, unit, seen, i, now)
    ensures KeyOf(Cut(h, unit, i)) == KeyOfHeader(h) && KeyOfHeader(h) in Opened(limits, s, Cut(h, unit, i), now).pending
    ensures var f, open := Cut(h, unit, i), Opened(limits, s, Cut(h, unit, i), now);
            var u := open.pending[KeyOfHeader(h)];
            && Push(limits, s, f, now)
               == (if Complete(unit, seen + {i}) then Take(limits, open, f, now)
                   else (WithUnit(open, KeyOfHeader(h), Unit(|unit|, PlusPiece(u, f), now)), NotYet))
            && (Complete(unit, seen + {i}) ==> Take(limits, open, f, now).1 == Delivered(unit))
            && Holds(PlusPiece(u, f), unit, seen + {i}) && KeyOfHeader(h) !in open.completed
  {
    hide StoreOk, Push, Take, Cut, Expire, Opened, Holds, PreStartFits, Ranges, Complete, Overlaps, SameRange;
    var f, open := Cut(h, unit, i), Opened(limits, s, Cut(h, unit, i), now);
    CutTravels(limits, h, unit, i);
    CutFacts(h, unit, i);
    OwnOpened(limits, s, h, unit, seen, i, now);
    OwnPush(limits, s, f, now);
    var u := open.pending[KeyOfHeader(h)];
    UnitFacts(limits, open, KeyOfHeader(h));
    HoldsTotals(u.pieces, unit, seen);
    PlusSlice(u, unit, seen, h, i);
    OffsetZero(h, unit, i);
    SliceTotal(u, f, unit, seen, i);
    TakeFits(limits, open, f, now);
    if Complete(unit, seen + {i}) { FullIsUnit(PlusPiece(u, f), unit); }
  }

  lemma OwnPush(limits: Limits, s: Store, f: Fragment, now: int)
    requires Rejection(limits, f).None? && KeyOf(f) !in Expire(limits, s, now).completed
    ensures var open := Opened(limits, s, f, now);
            && KeyOf(f) in open.pending
            && var u := open.pending[KeyOf(f)];
               u.length == f.unitLength && !SameRange(u.pieces, f) && !Overlaps(u.pieces, f) ==>
                 Push(limits, s, f, now) == Take(limits, open, f, now)
  {
    hide Take, Open;
    PushOpened(limits, s, f, now);
  }

  lemma UnitFacts(limits: Limits, s: Store, key: UnitKey)
    requires StoreOk(limits, s) && key in s.pending
    ensures Sound(s.pending[key].pieces, s.pending[key].length)
  {
  }

  lemma OffsetZero(h: Header, unit: seq<byte>, i: nat)
    requires i < Count(|unit|) && |unit| <= UNIT_MAX_BYTES
    ensures Cut(h, unit, i).offset == 0 <==> i == 0
  {
  }

  lemma SliceTotal(u: Unit, f: Fragment, unit: seq<byte>, seen: set<nat>, i: nat)
    requires Total(PlusPiece(u, f)) == Total(u.pieces) + |f.payload| && u.length == |unit|
    requires Complete(unit, seen + {i}) <==> Total(PlusPiece(u, f)) == |unit|
    ensures Complete(unit, seen + {i}) ==> u.length <= Total(u.pieces) + |f.payload|
  {
  }

  lemma OwnKeeps(limits: Limits, s: Store, h: Header, unit: seq<byte>, seen: set<nat>, i: nat, now: int)
    requires LimitsOk(limits) && Sendable(limits, h, unit) && i < Count(|unit|) && i !in seen
    requires Present(limits, s, KeyOfHeader(h), unit, seen)
    requires seen != {} ==> KeyOfHeader(h) in Expire(limits, s, now).pending
    requires HasRoom(limits, s, h, unit, seen, i, now) && !Complete(unit, seen + {i})
    ensures Push(limits, s, Cut(h, unit, i), now).1 == NotYet
    ensures Present(limits, Push(limits, s, Cut(h, unit, i), now).0, KeyOfHeader(h), unit, seen + {i})
  {
    hide StoreOk, Push, Take, Cut, Expire, Opened, Holds, HasRoom, Complete;
    OwnTaken(limits, s, h, unit, seen, i, now);
    PushKeeps(limits, s, Cut(h, unit, i), now);
    assert i in seen + {i};
  }

  // ----- the run -----

  lemma FirstArrival(limits: Limits, s: Store, h: Header, unit: seq<byte>, arrivals: seq<Arrival>)
    requires |unit| <= UNIT_MAX_BYTES && AllCuts(unit, arrivals) && arrivals != []
    ensures AllCuts(unit, arrivals[1..])
    ensures var e := EventOf(h, unit, arrivals[0]);
            var (t, outcome) := Push(limits, s, e.fragment, e.now);
            Outcomes(limits, s, Events(h, unit, arrivals)) == [outcome] + Outcomes(limits, t, Events(h, unit, arrivals[1..]))
  {
    hide Push;
    assert forall k :: 0 <= k < |arrivals[1..]| ==> arrivals[1..][k] == arrivals[k + 1];
    assert Events(h, unit, arrivals)[1..] == Events(h, unit, arrivals[1..]);
  }

  lemma OwnFirst(arrivals: seq<Arrival>)
    requires arrivals != []
    ensures OwnSeen(arrivals) == (if arrivals[0].Own? then {arrivals[0].number} else {}) + OwnSeen(arrivals[1..])
  {
    assert forall k :: 0 <= k < |arrivals[1..]| ==> arrivals[1..][k] == arrivals[k + 1];
    forall n | n in OwnSeen(arrivals)
      ensures n in (if arrivals[0].Own? then {arrivals[0].number} else {}) + OwnSeen(arrivals[1..])
    {
      var k :| 0 <= k < |arrivals| && arrivals[k].Own? && arrivals[k].number == n;
      if k > 0 { assert arrivals[1..][k - 1].Own? && arrivals[1..][k - 1].number == n; }
    }
  }

  /** The last arrival is the one that completes the unit. */
  predicate CompletesLast(unit: seq<byte>, seen: set<nat>, arrivals: seq<Arrival>) {
    && arrivals != []
    && Complete(unit, seen + OwnSeen(arrivals)) && !Complete(unit, seen + OwnSeen(arrivals[..|arrivals| - 1]))
  }

  lemma CompletesRest(unit: seq<byte>, seen: set<nat>, arrivals: seq<Arrival>)
    requires CompletesLast(unit, seen, arrivals)
    ensures var now := if arrivals[0].Own? then seen + {arrivals[0].number} else seen;
            if |arrivals| == 1 then arrivals[0].Own? && arrivals[0].number !in seen && Complete(unit, now)
            else !Complete(unit, now) && CompletesLast(unit, now, arrivals[1..])
  {
    OwnFirst(arrivals);
    var now := if arrivals[0].Own? then seen + {arrivals[0].number} else seen;
    assert seen + OwnSeen(arrivals) == now + OwnSeen(arrivals[1..]);
    if |arrivals| == 1 {
      assert OwnSeen(arrivals[1..]) == {} && OwnSeen(arrivals[..0]) == {};
      assert now + {} == now && seen + {} == seen;
      assert arrivals[0].Own? && arrivals[0].number in seen ==> now == seen;
    } else {
      var front := arrivals[..|arrivals| - 1];
      OwnFirst(front);
      assert front[1..] == arrivals[1..][..|arrivals[1..]| - 1];
      assert seen + OwnSeen(front) == now + OwnSeen(front[1..]);
      var i: nat :| i < Count(|unit|) && i !in seen + OwnSeen(front);
      assert i !in now;
    }
  }

  /** Among any other traffic: every slice of the unit gives NotYet until the last missing one, which delivers
      the unit, provided that at each arrival the unit is still there and a new slice has room. */
  lemma {:induction false} InterleavedDelivers(limits: Limits, s: Store, h: Header, unit: seq<byte>, seen: set<nat>,
                                               arrivals: seq<Arrival>)
    requires LimitsOk(limits) && Sendable(limits, h, unit) && AllCuts(unit, arrivals)
    requires Present(limits, s, KeyOfHeader(h), unit, seen)
    requires Undisturbed(limits, s, h, unit, seen, arrivals) && CompletesLast(unit, seen, arrivals)
    ensures var outcomes := Outcomes(limits, s, Events(h, unit, arrivals));
            && outcomes[|arrivals| - 1] == Delivered(unit)
            && forall k :: 0 <= k < |arrivals| - 1 && arrivals[k].Own? ==> outcomes[k] == NotYet
    decreases |arrivals|
  {
    hide Push, Present, HasRoom, Complete, Cut, Expire;
    var a := arrivals[0];
    CompletesRest(unit, seen, arrivals);
    FirstArrival(limits, s, h, unit, arrivals);
    var e := EventOf(h, unit, a);
    var t := Push(limits, s, e.fragment, e.now).0;
    if |arrivals| == 1 {
      OwnTaken(limits, s, h, unit, seen, a.number, a.now);
    } else {
      match a {
        case Own(i, now) =>
          if i in seen {
            assert seen + {i} == seen;
            SeenNotEmpty(seen, i);
            OwnRepeats(limits, s, h, unit, seen, i, now);
          } else {
            OwnKeeps(limits, s, h, unit, seen, i, now);
          }
          InterleavedDelivers(limits, t, h, unit, seen + {i}, arrivals[1..]);
        case Foreign(f, now) =>
          ForeignKeeps(limits, s, f, now, KeyOfHeader(h), unit, seen);
          InterleavedDelivers(limits, t, h, unit, seen, arrivals[1..]);
      }
    }
  }

  lemma SeenNotEmpty(seen: set<nat>, i: nat)
    requires i in seen
    ensures seen != {}
  {
  }
}
