/** What is delivered: never anything but the unit the fragments were cut from, and that unit once all of
    its fragments have come, in any order and with repeats. */
module ReassemblyDelivery {
  import opened Bytes
  import opened RtpFragment
  import opened Assembly
  import opened ReassemblySpec
  import opened ReassemblyRuns

  // ----- runs -----

  datatype Event = Event(fragment: Fragment, now: int)

  ghost function After(limits: Limits, s: Store, events: seq<Event>): Store
    decreases |events|
  {
    if events == [] then s
    else After(limits, Push(limits, s, events[0].fragment, events[0].now).0, events[1..])
  }

  ghost function Outcomes(limits: Limits, s: Store, events: seq<Event>): (outcomes: seq<Outcome>)
    ensures |outcomes| == |events|
    decreases |events|
  {
    if events == [] then []
    else
      var (next, outcome) := Push(limits, s, events[0].fragment, events[0].now);
      [outcome] + Outcomes(limits, next, events[1..])
  }

  /** Bounds hold after any run. */
  lemma {:induction false} RunKeeps(limits: Limits, s: Store, events: seq<Event>)
    requires LimitsOk(limits) && StoreOk(limits, s)
    ensures StoreOk(limits, After(limits, s, events))
    decreases |events|
  {
    if events != [] {
      PushKeeps(limits, s, events[0].fragment, events[0].now);
      RunKeeps(limits, Push(limits, s, events[0].fragment, events[0].now).0, events[1..]);
    }
  }

  // ----- safety: only the true unit -----

  /** All fragments of a key are cut from one unit. */
  ghost predicate TrueFragment(source: UnitKey -> seq<byte>, f: Fragment) {
    var unit := source(KeyOf(f));
    f.unitLength == |unit| && (End(f) <= |unit| ==> f.payload == unit[f.offset..End(f)])
  }

  ghost predicate TrueStore(source: UnitKey -> seq<byte>, s: Store) {
    && (forall k :: k in s.pending ==> s.pending[k].length == |source(k)| && CutFrom(s.pending[k].pieces, source(k)))
    && (forall k :: k in s.completed ==> s.completed[k] == source(k))
  }

  lemma TrueParts(source: UnitKey -> seq<byte>, s: Store, t: Store)
    requires TrueStore(source, s) && PartOf(t.pending, s.pending) && PartOf(t.completed, s.completed)
    ensures TrueStore(source, t)
  {
  }

  predicate Conflict(e: PushError) {
    e == ConflictingDuplicateUnit || e == ConflictingFragment || e == ConflictingDuplicateFragment
  }

  /** What an outcome may be for true fragments. */
  ghost predicate TrueOutcome(source: UnitKey -> seq<byte>, f: Fragment, outcome: Outcome) {
    match outcome
    case Delivered(unit) => unit == source(KeyOf(f))
    case NotYet => true
    case Failed(e) => !Conflict(e)
  }

  lemma DeliverTrue(source: UnitKey -> seq<byte>, limits: Limits, s: Store, key: UnitKey)
    requires TrueStore(source, s)
    ensures TrueStore(source, Trim(limits, Without(s, key).(completed := s.completed[key := source(key)])))
  {
    var t := Without(s, key).(completed := s.completed[key := source(key)]);
    TrimHolds(limits, t);
    TrueParts(source, t, Trim(limits, t));
  }

  lemma PieceTrue(source: UnitKey -> seq<byte>, u: Unit, f: Fragment)
    requires TrueFragment(source, f) && CutFrom(u.pieces, source(KeyOf(f))) && End(f) <= f.unitLength
    ensures CutFrom(PlusPiece(u, f), source(KeyOf(f)))
  {
  }

  lemma TakeTrue(source: UnitKey -> seq<byte>, limits: Limits, s: Store, f: Fragment, now: int)
    requires TrueStore(source, s) && TrueFragment(source, f) && KeyOf(f) in s.pending && f.payload != []
    requires UnitOk(limits, s.pending[KeyOf(f)]) && End(f) <= f.unitLength && !Overlaps(s.pending[KeyOf(f)].pieces, f)
    ensures TrueStore(source, Take(limits, s, f, now).0) && TrueOutcome(source, f, Take(limits, s, f, now).1)
  {
    var key, u := KeyOf(f), s.pending[KeyOf(f)];
    PieceAdded(u, f);
    PieceTrue(source, u, f);
    TrueParts(source, s, Without(s, key));
    if Total(PlusPiece(u, f)) == u.length {
      FullIsUnit(PlusPiece(u, f), source(key));
      DeliverTrue(source, limits, s, key);
    }
  }

  lemma OpenTrue(source: UnitKey -> seq<byte>, limits: Limits, s: Store, f: Fragment, now: int)
    requires LimitsOk(limits) && StoreOk(limits, s) && TrueStore(source, s) && TrueFragment(source, f)
    requires KeyOf(f) !in s.pending && KeyOf(f) !in s.completed && 0 < f.unitLength <= limits.bytes
    ensures TrueStore(source, Open(limits, s, f, now)) && StoreOk(limits, Open(limits, s, f, now))
    ensures KeyOf(f) in Open(limits, s, f, now).pending
  {
    hide Open, StoreOk, TrueStore, Room;
    OpenKeeps(limits, s, f, now);
    OpenIsRoom(limits, s, f, now);
    RoomHolds(limits, s, f.unitLength);
    TrueParts(source, s, Room(limits, s, f.unitLength));
    TrueWith(source, Room(limits, s, f.unitLength), KeyOf(f), Unit(f.unitLength, map[], now));
  }

  lemma TrueWith(source: UnitKey -> seq<byte>, s: Store, key: UnitKey, u: Unit)
    requires TrueStore(source, s) && u.length == |source(key)| && CutFrom(u.pieces, source(key))
    ensures TrueStore(source, WithUnit(s, key, u))
  {
  }

  lemma OpenedTrue(source: UnitKey -> seq<byte>, limits: Limits, open: Store, f: Fragment, now: int)
    requires UnitsOk(limits, open) && TrueStore(source, open) && TrueFragment(source, f) && KeyOf(f) in open.pending
    requires f.payload != [] && End(f) <= f.unitLength
    ensures var u := open.pending[KeyOf(f)];
            && u.length == f.unitLength && (SameRange(u.pieces, f) ==> u.pieces[f.offset] == f.payload)
            && (!Overlaps(u.pieces, f) ==>
                  TrueStore(source, Take(limits, open, f, now).0) && TrueOutcome(source, f, Take(limits, open, f, now).1))
  {
    if !Overlaps(open.pending[KeyOf(f)].pieces, f) { TakeTrue(source, limits, open, f, now); }
  }

  lemma PushTrue(source: UnitKey -> seq<byte>, limits: Limits, s: Store, f: Fragment, now: int)
    requires LimitsOk(limits) && StoreOk(limits, s) && TrueStore(source, s) && TrueFragment(source, f)
    ensures TrueStore(source, Push(limits, s, f, now).0) && TrueOutcome(source, f, Push(limits, s, f, now).1)
  {
    if Rejection(limits, f).None? {
      ExpireKeeps(limits, s, now);
      var t := Expire(limits, s, now);
      TrueParts(source, s, t);
      if KeyOf(f) in t.completed {
      } else if KeyOf(f) in t.pending {
        OpenedTrue(source, limits, t, f, now);
      } else {
        OpenTrue(source, limits, t, f, now);
        OpenedTrue(source, limits, Open(limits, t, f, now), f, now);
      }
    }
  }

  /** Over any run of true fragments, whatever the interleaving, timing, loss and eviction: no conflict is
      ever reported, and every unit delivered is the unit its fragments were cut from. */
  lemma {:induction false} RunDeliversTruth(source: UnitKey -> seq<byte>, limits: Limits, s: Store, events: seq<Event>)
    requires LimitsOk(limits) && StoreOk(limits, s) && TrueStore(source, s)
    requires forall i :: 0 <= i < |events| ==> TrueFragment(source, events[i].fragment)
    ensures forall i :: 0 <= i < |events| ==> TrueOutcome(source, events[i].fragment, Outcomes(limits, s, events)[i])
    decreases |events|
  {
    hide StoreOk, TrueStore, TrueFragment, TrueOutcome, LimitsOk, Push;
    if events != [] {
      var f := events[0].fragment;
      PushTrue(source, limits, s, f, events[0].now);
      PushKeeps(limits, s, f, events[0].now);
      RunDeliversTruth(source, limits, Push(limits, s, f, events[0].now).0, events[1..]);
      forall i | 0 < i < |events|
        ensures TrueOutcome(source, events[i].fragment, Outcomes(limits, s, events)[i])
      {
        assert events[i] == events[1..][i - 1];
      }
    }
  }

  /** While a key is remembered no fragment of it delivers again, or changes what is remembered. */
  lemma RememberedDeliversNothing(limits: Limits, s: Store, f: Fragment, now: int)
    requires KeyOf(f) in s.completed
    ensures !Push(limits, s, f, now).1.Delivered? && Push(limits, s, f, now).0.completed == s.completed
  {
  }

  // ----- the sender's cut -----

  const CHUNK: nat := 1200 - 24

  datatype Header = Header(unitType: byte, configId: uint32, unitId: uint32, timestamp: uint32, ssrc: uint32)

  function Count(length: nat): nat {
    (length + CHUNK - 1) / CHUNK
  }

  function SliceEnd(length: nat, i: nat): nat {
    if (i + 1) * CHUNK < length then (i + 1) * CHUNK else length
  }

  function Slice(unit: seq<byte>, i: nat): (slice: seq<byte>)
    requires i < Count(|unit|)
    ensures slice != [] && i * CHUNK + |slice| == SliceEnd(|unit|, i)
  {
    unit[i * CHUNK..SliceEnd(|unit|, i)]
  }

  predicate Sendable(limits: Limits, h: Header, unit: seq<byte>) {
    && h.unitType != 0 && LengthOk(h.unitType, |unit|) && IdentityOk(h.unitType, h.configId, h.unitId)
    && |unit| <= limits.bytes
  }

  /** Fragment i as the sender cuts it. */
  function Cut(h: Header, unit: seq<byte>, i: nat): Fragment
    requires i < Count(|unit|) && |unit| <= UNIT_MAX_BYTES
  {
    var flags := (if i == 0 then START else 0) + (if SliceEnd(|unit|, i) == |unit| then END else 0);
    Fragment(h.unitType, flags, h.configId, h.unitId, i * CHUNK, |unit|, Slice(unit, i), h.timestamp, h.ssrc)
  }

  /** Every cut is accepted by the encoder, and comes back from the wire as it was but for the fields the
      RTP header carries. */
  lemma CutTravels(limits: Limits, h: Header, unit: seq<byte>, i: nat)
    requires Sendable(limits, h, unit) && i < Count(|unit|)
    ensures var f := Cut(h, unit, i);
            && Encodable(f) && Decodable(Encoded(f))
            && FieldsOf(Encoded(f)).(timestamp := h.timestamp, ssrc := h.ssrc) == f
            && Rejection(limits, f).None?
  {
    CutPlaced(h, unit, i);
    DecodeUndoesEncode(Cut(h, unit, i));
  }

  lemma CutPlaced(h: Header, unit: seq<byte>, i: nat)
    requires i < Count(|unit|) && |unit| <= UNIT_MAX_BYTES
    ensures var f := Cut(h, unit, i); Placed(f.flags, f.offset, |f.payload|, f.unitLength) && f.flags % 64 == 0
  {
  }
}
