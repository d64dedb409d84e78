/** When idle units go, said of clock times alone: how the store drops them is not named. */
module ReassemblyTimeouts {
  import opened RtpFragment
  import opened Assembly
  import opened ReassemblySpec
  import opened ReassemblyRuns
  import opened ReassemblyDelivery
  import opened ReassemblyLiveness

  /** No stored unit had been idle for the timeout at the last clean-up. */
  ghost predicate NoneIdle(limits: Limits, s: Store) {
    forall k :: k in s.pending ==> s.lastCleanup - s.pending[k].lastUpdated < limits.timeout
  }

  /** A unit of another key is as it was, and was not idle at a clean-up made now; the fragment's own unit
      was updated before or is updated now. */
  ghost predicate Times(limits: Limits, s: Store, t: Store, key: UnitKey, now: int) {
    && t.lastCleanup == (if now - s.lastCleanup >= limits.timeout then now else s.lastCleanup)
    && forall k :: k in t.pending ==>
         || (k == key && t.pending[k].lastUpdated == now)
         || (&& k in s.pending && t.pending[k].lastUpdated == s.pending[k].lastUpdated
             && (now - s.lastCleanup >= limits.timeout ==> now - s.pending[k].lastUpdated < limits.timeout))
  }

  lemma CleanedTimes(limits: Limits, s: Store, key: UnitKey, now: int)
    ensures Times(limits, s, Expire(limits, s, now), key, now)
  {
  }

  lemma OpenTimes(limits: Limits, s: Store, t: Store, f: Fragment, now: int)
    requires LimitsOk(limits) && Times(limits, s, t, KeyOf(f), now) && 0 < f.unitLength <= limits.bytes
    ensures Times(limits, s, Open(limits, t, f, now), KeyOf(f), now)
  {
    hide Forget, Evict;
    OpenIsRoom(limits, t, f, now);
    RoomHolds(limits, t, f.unitLength);
  }

  lemma TakeTimes(limits: Limits, s: Store, t: Store, f: Fragment, now: int)
    requires Times(limits, s, t, KeyOf(f), now) && KeyOf(f) in t.pending
    ensures Times(limits, s, Take(limits, t, f, now).0, KeyOf(f), now)
  {
    hide Trim, PreStartFits, Joined;
    var key, u := KeyOf(f), t.pending[KeyOf(f)];
    var done := Without(t, key).(completed := t.completed[key := Joined(PlusPiece(u, f), u.length)]);
    TrimHolds(limits, done);
  }

  lemma PushTimes(limits: Limits, s: Store, f: Fragment, now: int)
    requires LimitsOk(limits) && Rejection(limits, f).None?
    ensures Times(limits, s, Push(limits, s, f, now).0, KeyOf(f), now)
  {
    hide Times, Take, Open, Expire;
    var t := Expire(limits, s, now);
    CleanedTimes(limits, s, KeyOf(f), now);
    if KeyOf(f) !in t.completed {
      if KeyOf(f) !in t.pending { OpenTimes(limits, s, t, f, now); }
      OpenHasKey(limits, t, f, now);
      TakeTimes(limits, s, if KeyOf(f) in t.pending then t else Open(limits, t, f, now), f, now);
    }
  }

  lemma OpenHasKey(limits: Limits, s: Store, f: Fragment, now: int)
    ensures KeyOf(f) in Open(limits, s, f, now).pending
  {
  }

  // ----- runs -----

  /** The clock does not run backwards. */
  predicate Forwards(start: int, events: seq<Event>) {
    && (forall i :: 0 <= i < |events| ==> start <= events[i].now)
    && (forall i, j :: 0 <= i < j < |events| ==> events[i].now <= events[j].now)
  }

  /** An accepted fragment leaves the last clean-up less than the timeout behind, and no unit that had been
      idle for the timeout at that clean-up. */
  lemma PushKeepsNoneIdle(limits: Limits, s: Store, f: Fragment, now: int)
    requires LimitsOk(limits) && NoneIdle(limits, s) && s.lastCleanup <= now
    ensures var t := Push(limits, s, f, now).0;
            && NoneIdle(limits, t) && s.lastCleanup <= t.lastCleanup <= now
            && (Rejection(limits, f).None? ==> now - t.lastCleanup < limits.timeout)
  {
    if Rejection(limits, f).None? {
      PushTimes(limits, s, f, now);
      hide Push;
      assert Times(limits, s, Push(limits, s, f, now).0, KeyOf(f), now);
    }
  }

  /** Each stored unit was last updated when one of its own fragments came. */
  ghost predicate Dated(s: Store, past: seq<Event>) {
    forall k :: k in s.pending ==>
      exists i :: 0 <= i < |past| && KeyOf(past[i].fragment) == k && past[i].now == s.pending[k].lastUpdated
  }

  lemma PushDates(limits: Limits, s: Store, past: seq<Event>, e: Event)
    requires LimitsOk(limits) && Dated(s, past)
    ensures Dated(Push(limits, s, e.fragment, e.now).0, past + [e])
  {
    var t, more := Push(limits, s, e.fragment, e.now).0, past + [e];
    if Rejection(limits, e.fragment).None? { PushTimes(limits, s, e.fragment, e.now); }
    hide Push;
    forall k | k in t.pending
      ensures exists i :: 0 <= i < |more| && KeyOf(more[i].fragment) == k && more[i].now == t.pending[k].lastUpdated
    {
      if k == KeyOf(e.fragment) && t.pending[k].lastUpdated == e.now {
        assert more[|past|] == e;
      } else {
        var i :| 0 <= i < |past| && KeyOf(past[i].fragment) == k && past[i].now == s.pending[k].lastUpdated;
        assert more[i] == past[i];
      }
    }
  }

  lemma {:induction false} RunTimes(limits: Limits, s: Store, past: seq<Event>, events: seq<Event>)
    requires LimitsOk(limits) && NoneIdle(limits, s) && Dated(s, past) && Forwards(s.lastCleanup, events)
    ensures var t := After(limits, s, events);
            && NoneIdle(limits, t) && Dated(t, past + events) && s.lastCleanup <= t.lastCleanup
            && (events != [] ==> t.lastCleanup <= events[|events| - 1].now)
    decreases |events|
  {
    hide NoneIdle, Dated, Push;
    if events == [] {
      assert past + events == past;
    } else {
      var e := events[0];
      var t := Push(limits, s, e.fragment, e.now).0;
      PushKeepsNoneIdle(limits, s, e.fragment, e.now);
      PushDates(limits, s, past, e);
      RunTimes(limits, t, past + [e], events[1..]);
      assert past + [e] + events[1..] == past + events;
    }
  }

  /** After any run with a clock that does not run backwards, an accepted fragment leaves the last clean-up
      less than the timeout behind, and no stored unit had been idle for the timeout then. */
  lemma CleanedInTime(limits: Limits, start: int, events: seq<Event>, f: Fragment, now: int)
    requires LimitsOk(limits) && Forwards(start, events + [Event(f, now)]) && Rejection(limits, f).None?
    ensures var t := Push(limits, After(limits, Store(map[], map[], start), events), f, now).0;
            && now - t.lastCleanup < limits.timeout
            && forall k :: k in t.pending ==> t.lastCleanup - t.pending[k].lastUpdated < limits.timeout
  {
    hide Push;
    RunReaches(limits, start, events, f, now);
    PushKeepsNoneIdle(limits, After(limits, Store(map[], map[], start), events), f, now);
  }

  lemma RunReaches(limits: Limits, start: int, events: seq<Event>, f: Fragment, now: int)
    requires LimitsOk(limits) && Forwards(start, events + [Event(f, now)])
    ensures var s := After(limits, Store(map[], map[], start), events);
            NoneIdle(limits, s) && Dated(s, events) && s.lastCleanup <= now
  {
    var all := events + [Event(f, now)];
    assert all[|events|] == Event(f, now);
    assert forall i :: 0 <= i < |events| ==> all[i] == events[i];
    RunTimes(limits, Store(map[], map[], start), [], events);
    assert [] + events == events;
  }

  /** A fragment that finds nothing of its unit delivers at most itself, and is all that is then stored. */
  ghost predicate StartsAnew(limits: Limits, s: Store, f: Fragment, now: int) {
    var (t, outcome) := Push(limits, s, f, now);
    && (outcome.Delivered? ==> outcome.unit == f.payload && |f.payload| == f.unitLength)
    && (KeyOf(f) in t.pending ==> t.pending[KeyOf(f)] == Unit(f.unitLength, map[f.offset := f.payload], now))
  }

  lemma OnePiece(f: Fragment, now: int)
    requires f.payload != [] && End(f) <= f.unitLength
    ensures var u := Unit(f.unitLength, map[], now);
            && PlusPiece(u, f) == map[f.offset := f.payload] && Total(PlusPiece(u, f)) == |f.payload|
            && (|f.payload| == f.unitLength ==> Joined(PlusPiece(u, f), f.unitLength) == f.payload)
  {
    var u := Unit(f.unitLength, map[], now);
    EmptyUnit(f.unitLength, now);
    PieceCounted(u, f);
    if |f.payload| == f.unitLength {
      assert f.offset == 0;
      assert CutFrom(PlusPiece(u, f), f.payload);
      PieceSound(u, f);
      FullIsUnit(PlusPiece(u, f), f.payload);
    }
  }

  lemma OpenedAnew(limits: Limits, s: Store, f: Fragment, now: int)
    requires LimitsOk(limits) && Rejection(limits, f).None? && KeyOf(f) in s.pending
    requires s.pending[KeyOf(f)] == Unit(f.unitLength, map[], now)
    ensures var (t, outcome) := Take(limits, s, f, now);
            && (outcome.Delivered? ==> outcome.unit == f.payload && |f.payload| == f.unitLength)
            && (KeyOf(f) in t.pending ==> t.pending[KeyOf(f)] == Unit(f.unitLength, map[f.offset := f.payload], now))
  {
    hide Trim, PreStartFits, Joined, Total;
    OnePiece(f, now);
    var key, u := KeyOf(f), s.pending[KeyOf(f)];
    TrimHolds(limits, Without(s, key).(completed := s.completed[key := Joined(PlusPiece(u, f), u.length)]));
  }

  lemma NotFoundStartsAnew(limits: Limits, s: Store, f: Fragment, now: int)
    requires LimitsOk(limits) && Rejection(limits, f).None? && StoreOk(limits, s) && Started(s)
    requires KeyOf(f) in s.pending ==>
               s.lastCleanup + limits.timeout <= now && s.pending[KeyOf(f)].lastUpdated + limits.timeout <= now
    ensures StartsAnew(limits, s, f, now)
  {
    hide Take, Open, StoreOk, Started, Overlaps, SameRange;
    var t := Expire(limits, s, now);
    ExpireKeeps(limits, s, now);
    assert KeyOf(f) !in t.pending;
    if KeyOf(f) !in t.completed {
      StartedParts(s, t);
      OpenStarts(limits, t, f, now);
      OpenedAnew(limits, Open(limits, t, f, now), f, now);
    }
  }

  lemma {:induction false} RunStarts(limits: Limits, s: Store, events: seq<Event>)
    requires LimitsOk(limits) && StoreOk(limits, s) && Started(s)
    ensures StoreOk(limits, After(limits, s, events)) && Started(After(limits, s, events))
    decreases |events|
  {
    hide StoreOk, Started, Push;
    if events != [] {
      var e := events[0];
      PushKeeps(limits, s, e.fragment, e.now);
      PushStarts(limits, s, e.fragment, e.now);
      RunStarts(limits, Push(limits, s, e.fragment, e.now).0, events[1..]);
    }
  }

  /** After any run with a clock that does not run backwards, a fragment that comes two timeouts or more after
      the last one of its unit finds none of the earlier pieces. */
  lemma IdleUnitsAreForgotten(limits: Limits, start: int, events: seq<Event>, f: Fragment, now: int)
    requires LimitsOk(limits) && Forwards(start, events + [Event(f, now)]) && Rejection(limits, f).None?
    requires forall i :: 0 <= i < |events| && KeyOf(events[i].fragment) == KeyOf(f) ==> events[i].now + 2 * limits.timeout <= now
    ensures StartsAnew(limits, After(limits, Store(map[], map[], start), events), f, now)
  {
    hide StartsAnew, StoreOk, Started, After;
    var empty := Store(map[], map[], start);
    RunReaches(limits, start, events, f, now);
    EmptyStore(limits, start);
    RunStarts(limits, empty, events);
    var s := After(limits, empty, events);
    if KeyOf(f) in s.pending {
      var i :| 0 <= i < |events| && KeyOf(events[i].fragment) == KeyOf(f) && events[i].now == s.pending[KeyOf(f)].lastUpdated;
    }
    NotFoundStartsAnew(limits, s, f, now);
  }

  lemma EmptyStore(limits: Limits, start: int)
    requires LimitsOk(limits)
    ensures StoreOk(limits, Store(map[], map[], start)) && Started(Store(map[], map[], start))
  {
  }

  /** A fragment that comes before its unit has been idle for the timeout finds all of the earlier pieces: if it
      clashes with none and the tables have room, it completes the unit or is stored with them. */
  lemma FreshUnitsContinue(limits: Limits, s: Store, f: Fragment, now: int)
    requires LimitsOk(limits) && StoreOk(limits, s) && Rejection(limits, f).None? && KeyOf(f) in s.pending
    requires var u := s.pending[KeyOf(f)];
             && now - u.lastUpdated < limits.timeout && u.length == f.unitLength && !Overlaps(u.pieces, f)
             && Ranges(s) < MAX_RANGES && (0 in u.pieces || f.offset == 0 || PreStartFits(limits, s, f))
    ensures var u := s.pending[KeyOf(f)];
            var (t, outcome) := Push(limits, s, f, now);
            if Total(u.pieces) + |f.payload| == u.length
            then outcome == Delivered(Joined(PlusPiece(u, f), u.length))
            else outcome == NotYet && KeyOf(f) in t.pending && t.pending[KeyOf(f)] == Unit(u.length, PlusPiece(u, f), now)
  {
    hide Take, Joined, Total, Ranges, PreStart, PendingBytes, CompletedBytes;
    var t, u := Expire(limits, s, now), s.pending[KeyOf(f)];
    ExpireKeeps(limits, s, now);
    FewerUnits(limits, s, t);
    assert t.pending[KeyOf(f)] == u;
    PieceAdded(u, f);
    assert !SameRange(u.pieces, f);
    TakeAll(limits, t, f, now);
    PushOpened(limits, s, f, now);
  }

  lemma TakeAll(limits: Limits, s: Store, f: Fragment, now: int)
    requires KeyOf(f) in s.pending && Ranges(s) < MAX_RANGES
    requires var u := s.pending[KeyOf(f)];
             && (0 in u.pieces || f.offset == 0 || PreStartFits(limits, s, f))
             && Total(PlusPiece(u, f)) == Total(u.pieces) + |f.payload|
    ensures var u := s.pending[KeyOf(f)];
            var (t, outcome) := Take(limits, s, f, now);
            if Total(u.pieces) + |f.payload| == u.length
            then outcome == Delivered(Joined(PlusPiece(u, f), u.length))
            else outcome == NotYet && KeyOf(f) in t.pending && t.pending[KeyOf(f)] == Unit(u.length, PlusPiece(u, f), now)
  {
    hide Trim, Joined, Total, Ranges, PreStartFits;
  }
}
