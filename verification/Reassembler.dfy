/** RtpMlvcReassembler: the class with its running counters, proved to compute ReassemblySpec.Push. */
module Reassembler {
  import opened Options
  import opened Bytes
  import opened Tally
  import opened RtpFragment
  import opened Assembly
  import opened ReassemblySpec
  import opened ReassemblyRuns
  import opened ReassemblyTimeouts

  /** A unit in the making.  data is empty until the START fragment comes; until then the payloads wait in
      preStart. */
  datatype Pending = Pending(
    unitType: byte, length: nat, data: seq<byte>, ranges: map<nat, nat>, preStart: map<nat, seq<byte>>,
    count: nat, preStartBytes: nat, lastUpdated: int)

  ghost predicate Represents(p: Pending, u: Unit, key: UnitKey) {
    && p.unitType == key.unitType && p.length == u.length && p.lastUpdated == u.lastUpdated
    && RangesOf(p.ranges, u.pieces) && p.count == Total(u.pieces)
    && Buffered(p, u.pieces)
  }

  ghost predicate RangesOf(ranges: map<nat, nat>, pieces: Pieces) {
    ranges.Keys == pieces.Keys && forall o :: o in pieces ==> ranges[o] == o + |pieces[o]|
  }

  /** A unit just opened by its START has its buffer before its first piece. */
  ghost predicate Buffered(p: Pending, pieces: Pieces) {
    if 0 in pieces || (pieces == map[] && p.data != [])
    then p.data == Joined(pieces, p.length) && p.preStart == map[] && p.preStartBytes == 0
    else p.data == [] && p.preStart == pieces && p.preStartBytes == Total(pieces)
  }

  // ----- the checks at the head -----

  method CheckFragment(limits: Limits, f: Fragment) returns (error: Option<PushError>)
    ensures error == Rejection(limits, f)
  {
    if f.unitType == 0 || f.unitLength == 0 || |f.payload| == 0 || f.unitLength > limits.bytes || f.flags % 32 != 0
       || f.offset + |f.payload| > f.unitLength || Has(f.flags, START) != (f.offset == 0)
       || Has(f.flags, END) != (f.offset + |f.payload| == f.unitLength)
    {
      return Some(InvalidUnit);
    }
    var fits := ValidateUnitLengthForType(f.unitType, f.unitLength);
    if !fits { return Some(UnitLength); }
    var named := ValidateFragmentIdentity(f.unitType, f.configId, f.unitId);
    return if named then None else Some(UnitIdentity);
  }

  /** A fragment of a unit already delivered: byte by byte. */
  method CompareCompleted(unit: seq<byte>, f: Fragment) returns (outcome: Outcome)
    ensures outcome == AgainstCompleted(unit, f)
  {
    if f.offset + |f.payload| > |unit| { return Failed(ConflictingDuplicateUnit); }
    for i := 0 to |f.payload|
      invariant forall j :: 0 <= j < i ==> f.payload[j] == unit[f.offset + j]
    {
      if f.payload[i] != unit[f.offset + i] {
        assert unit[f.offset..End(f)][i] != f.payload[i];
        return Failed(ConflictingDuplicateUnit);
      }
    }
    assert f.payload == unit[f.offset..End(f)];
    return NotYet;
  }

  // ----- the interval lookup -----

  datatype Clash = Free | Repeats | Differs | Overlapping

  /** What the neighbours of a fragment's range say. */
  ghost predicate ClashOf(clash: Clash, pieces: Pieces, f: Fragment) {
    match clash
    case Repeats => SameRange(pieces, f) && pieces[f.offset] == f.payload
    case Differs => SameRange(pieces, f) && pieces[f.offset] != f.payload
    case Overlapping => !SameRange(pieces, f) && Overlaps(pieces, f)
    case Free => !SameRange(pieces, f) && !Overlaps(pieces, f)
  }

  /** std::map::lower_bound */
  method LowerBound(ranges: map<nat, nat>, offset: nat) returns (next: Option<nat>)
    ensures next.Some? ==> next.value in ranges && offset <= next.value
    ensures next.Some? ==> forall o :: o in ranges && offset <= o ==> next.value <= o
    ensures next.None? ==> forall o :: o in ranges ==> o < offset
  {
    next := None;
    var rest := ranges.Keys;
    while rest != {}
      invariant rest <= ranges.Keys
      invariant next.Some? ==> next.value in ranges && offset <= next.value
      invariant forall o :: o in ranges && o !in rest && offset <= o ==> next.Some? && next.value <= o
      decreases |rest|
    {
      var o :| o in rest;
      rest := rest - {o};
      if offset <= o && (next.None? || o < next.value) { next := Some(o); }
    }
  }

  /** std::prev of it */
  method Previous(ranges: map<nat, nat>, offset: nat) returns (previous: Option<nat>)
    ensures previous.Some? ==> previous.value in ranges && previous.value < offset
    ensures previous.Some? ==> forall o :: o in ranges && o < offset ==> o <= previous.value
    ensures previous.None? ==> forall o :: o in ranges ==> offset <= o
  {
    previous := None;
    var rest := ranges.Keys;
    while rest != {}
      invariant rest <= ranges.Keys
      invariant previous.Some? ==> previous.value in ranges && previous.value < offset
      invariant forall o :: o in ranges && o !in rest && o < offset ==> previous.Some? && o <= previous.value
      decreases |rest|
    {
      var o :| o in rest;
      rest := rest - {o};
      if o < offset && (previous.None? || previous.value < o) { previous := Some(o); }
    }
  }

  /** matches_existing_payload */
  method MatchesExisting(p: Pending, f: Fragment, ghost u: Unit) returns (same: bool)
    requires RangesOf(p.ranges, u.pieces) && Buffered(p, u.pieces) && p.length == u.length
    requires Sound(u.pieces, u.length) && SameRange(u.pieces, f)
    ensures same <==> u.pieces[f.offset] == f.payload
  {
    if p.data == [] {
      same := f.offset in p.preStart && p.preStart[f.offset] == f.payload;
    } else {
      PieceInJoined(u.pieces, u.length, f.offset);
      same := f.payload == p.data[f.offset..End(f)];
    }
  }

  /** The checks against the next and the previous range decide the clash with all ranges. */
  method FindClash(p: Pending, f: Fragment, ghost u: Unit) returns (clash: Clash)
    requires RangesOf(p.ranges, u.pieces) && Buffered(p, u.pieces) && p.length == u.length
    requires Sound(u.pieces, u.length) && f.payload != []
    ensures ClashOf(clash, u.pieces, f)
  {
    var end := End(f);
    var next := LowerBound(p.ranges, f.offset);
    var previous := Previous(p.ranges, f.offset);
    NeighboursDecide(u.pieces, u.length, f.offset, end, next, previous);
    if next.Some? && next.value < end {
      assert Meets(u.pieces, next.value, f.offset, end);
      if f.offset == next.value && end == p.ranges[next.value] {
        var same := MatchesExisting(p, f, u);
        return if same then Repeats else Differs;
      }
      return Overlapping;
    }
    if previous.Some? && p.ranges[previous.value] > f.offset {
      assert Meets(u.pieces, previous.value, f.offset, end);
      return Overlapping;
    }
    return Free;
  }

  // ----- the buffer -----

  /** std::copy into the buffer */
  method CopyInto(data: seq<byte>, offset: nat, payload: seq<byte>) returns (r: seq<byte>)
    requires offset + |payload| <= |data|
    ensures r == data[..offset] + payload + data[offset + |payload|..]
  {
    r := data;
    for i := 0 to |payload|
      invariant r == data[..offset] + payload[..i] + data[offset + i..]
    {
      r := r[offset + i := payload[i]];
    }
  }

  /** The late START: the buffer is made and what waited is copied into it. */
  method MergePreStart(preStart: map<nat, seq<byte>>, length: nat) returns (data: seq<byte>)
    requires Sound(preStart, length)
    ensures data == Joined(preStart, length)
  {
    hide Joined, ByteAt, Sound;
    data := seq(length, _ => 0);
    var rest := preStart.Keys;
    ghost var done: Pieces := map[];
    assert data == Joined(done, length) by { NothingJoined(length); }
    while rest != {}
      invariant rest <= preStart.Keys && PartDone(preStart, rest, done)
      invariant data == Joined(done, length)
      decreases |rest|
    {
      var o :| o in rest;
      assert rest - {o} + {o} == rest;
      rest := rest - {o};
      MergeOne(preStart, rest, done, length, o);
      data := CopyInto(data, o, preStart[o]);
      done := done[o := preStart[o]];
    }
    assert done == preStart;
  }

  ghost predicate PartDone(preStart: Pieces, rest: set<nat>, done: Pieces) {
    done.Keys == preStart.Keys - rest && forall o :: o in done ==> done[o] == preStart[o]
  }

  lemma MergeOne(preStart: Pieces, rest: set<nat>, done: Pieces, length: nat, o: nat)
    requires Sound(preStart, length) && o in preStart && o !in rest && PartDone(preStart, rest + {o}, done)
    ensures PartDone(preStart, rest, done[o := preStart[o]]) && o + |preStart[o]| <= length
    ensures var data := Joined(done, length);
            Joined(done[o := preStart[o]], length) == data[..o] + preStart[o] + data[o + |preStart[o]|..]
  {
    JoinedAdd(done, length, o, preStart[o]);
  }

  lemma NothingJoined(length: nat)
    ensures Joined(map[], length) == seq(length, _ => 0)
  {
    forall i | 0 <= i < length ensures ByteAt(map[], i) == 0 {
      assert !Covered(map[], i);
    }
  }

  // ----- one unit -----

  /** The branch of Push that stores a payload. */
  method StorePayload(p: Pending, f: Fragment, ghost u: Unit, key: UnitKey, now: int) returns (r: Pending)
    requires Represents(p, u, key) && Sound(PlusPiece(u, f), u.length) && f.offset !in u.pieces && f.payload != []
    requires Sound(u.pieces, u.length) && End(f) <= u.length && Total(PlusPiece(u, f)) == Total(u.pieces) + |f.payload|
    requires Has(f.flags, START) <==> f.offset == 0
    requires u.pieces == map[] && p.data != [] ==> Has(f.flags, START)
    ensures Represents(r, Unit(u.length, PlusPiece(u, f), now), key)
    ensures r.preStartBytes == if 0 in u.pieces || f.offset == 0 then 0 else p.preStartBytes + |f.payload|
  {
    hide Sound, Total, Joined;
    var data, preStart, preStartBytes := p.data, p.preStart, p.preStartBytes;
    if data == [] && Has(f.flags, START) {
      data := MergePreStart(preStart, p.length);
      preStart, preStartBytes := map[], 0;
    }
    if data == [] {
      preStart := preStart[f.offset := f.payload];
      preStartBytes := preStartBytes + |f.payload|;
    } else {
      JoinedAdd(u.pieces, u.length, f.offset, f.payload);
      data := CopyInto(data, f.offset, f.payload);
    }
    r := Pending(p.unitType, p.length, data, p.ranges[f.offset := End(f)], preStart, p.count + |f.payload|, preStartBytes, now);
  }

  // ----- least keys -----

  /** std::map::begin */
  method FirstKey(completed: map<UnitKey, seq<byte>>) returns (k: UnitKey)
    requires completed != map[]
    ensures k == First(completed) && k in completed
  {
    FirstIsLeast(completed);
    k :| k in completed && IsLeast(SameAge(completed), k);
    LeastUnique(SameAge(completed), k, First(completed));
  }

  /** std::min_element by last update */
  method OldestKey(pending: map<UnitKey, Pending>, ghost units: map<UnitKey, Unit>) returns (k: UnitKey)
    requires Stored(pending, units) && units != map[]
    ensures k == Oldest(units) && k in pending
  {
    OldestIsLeast(pending, units);
    k :| k in pending && IsLeast(PendingAges(pending), k);
    LeastUnique(Ages(units), k, Oldest(units));
  }

  // ----- the counters -----

  datatype Counters = Counters(pendingBytes: int, completedBytes: int, ranges: int, preStart: int)

  ghost predicate Counts(c: Counters, s: Store) {
    && c.pendingBytes == PendingBytes(s) && c.completedBytes == CompletedBytes(s)
    && c.ranges == Ranges(s) && c.preStart == PreStart(s)
  }

  // ----- the class -----

  class RtpMlvcReassembler {
    // max_unit_bytes_ and max_pending_bytes_ are one limit, max_pending_units_ and max_completed_units_ another.
    const limits: Limits
    var pendingBytes: int
    var completedBytes: int
    var fragmentRangeCount: int
    var preStartFragmentBytes: int
    var lastCleanup: int
    var pending: map<UnitKey, Pending>
    var completed: map<UnitKey, seq<byte>>
    ghost var units: map<UnitKey, Unit>

    ghost function Contents(): Store
      reads this
    {
      Store(units, completed, lastCleanup)
    }

    /** Every counter is the sum it stands for, every bound holds, and every unit has a fragment. */
    ghost predicate Valid()
      reads this
    {
      Core() && Started(Contents())
    }

    /** The same while a unit may just have been opened. */
    ghost predicate Core()
      reads this
    {
      LimitsOk(limits) && StoreOk(limits, Contents()) && Counts(Counted(), Contents()) && Stored(pending, units)
    }

    function Counted(): Counters
      reads this
    {
      Counters(pendingBytes, completedBytes, fragmentRangeCount, preStartFragmentBytes)
    }

    /** Throws when a limit is zero or the timeout is not positive. */
    constructor (limits: Limits, now: int)
      requires LimitsOk(limits)
      ensures Valid() && this.limits == limits && Contents() == Store(map[], map[], now)
    {
      this.limits := limits;
      pendingBytes, completedBytes, fragmentRangeCount, preStartFragmentBytes := 0, 0, 0, 0;
      lastCleanup := now;
      pending, completed, units := map[], map[], map[];
    }

    /** Reset keeps the time of the last clean-up. */
    method Reset()
      requires LimitsOk(limits)
      modifies this
      ensures Valid() && Contents() == Store(map[], map[], old(lastCleanup))
    {
      pending, units := map[], map[];
      pendingBytes, fragmentRangeCount, preStartFragmentBytes := 0, 0, 0;
      completed := map[];
      completedBytes := 0;
    }

    method ErasePending(key: UnitKey)
      requires Core() && key in pending
      modifies this
      ensures Core() && Contents() == Without(old(Contents()), key)
    {
      hide StoreOk, Represents, Counts, Stored, Sum, Total;
      ghost var s := Contents();
      var p := pending[key];
      StoredErase(pending, units, key);
      CountsErase(Counted(), s, p, key);
      DropKeeps(limits, s, key);
      EraseEntry(key, p);
    }

    method ForgetEntry(key: UnitKey)
      requires key in completed
      modifies this
      ensures completed == old(completed) - {key} && completedBytes == old(completedBytes) - |old(completed)[key]|
      ensures pending == old(pending) && units == old(units) && lastCleanup == old(lastCleanup)
      ensures pendingBytes == old(pendingBytes) && fragmentRangeCount == old(fragmentRangeCount)
      ensures preStartFragmentBytes == old(preStartFragmentBytes)
    {
      completedBytes := completedBytes - |completed[key]|;
      completed := completed - {key};
    }

    method EraseEntry(key: UnitKey, p: Pending)
      modifies this
      ensures pendingBytes == old(pendingBytes) - p.length && fragmentRangeCount == old(fragmentRangeCount) - |p.ranges|
      ensures preStartFragmentBytes == old(preStartFragmentBytes) - p.preStartBytes
      ensures pending == old(pending) - {key} && units == old(units) - {key}
      ensures completed == old(completed) && completedBytes == old(completedBytes) && lastCleanup == old(lastCleanup)
    {
      pendingBytes := pendingBytes - p.length;
      fragmentRangeCount := fragmentRangeCount - |p.ranges|;
      preStartFragmentBytes := preStartFragmentBytes - p.preStartBytes;
      pending := pending - {key};
      units := units - {key};
    }

    /** Units idle for the timeout are dropped, at most once per timeout. */
    method Cleanup(now: int)
      requires Core()
      modifies this
      ensures Core() && Contents() == Expire(limits, old(Contents()), now)
      ensures limits.timeout > 0 ==> now - lastCleanup < limits.timeout
      ensures forall k :: k in units <==>
                k in old(units) && (now - old(lastCleanup) < limits.timeout || now - old(units)[k].lastUpdated < limits.timeout)
    {
      hide StoreOk, Represents, Counts;
      if now - lastCleanup >= limits.timeout {
        ghost var before := units;
        var rest := pending.Keys;
        while rest != {}
          invariant Core() && completed == old(completed) && lastCleanup == old(lastCleanup)
          invariant rest <= units.Keys
          invariant forall k :: k in units <==> k in before && (k in rest || now - before[k].lastUpdated < limits.timeout)
          invariant forall k :: k in units ==> units[k] == before[k]
          decreases |rest|
        {
          var k :| k in rest;
          rest := rest - {k};
          RepresentedCounts(pending[k], units[k], k);
          if now - pending[k].lastUpdated >= limits.timeout { ErasePending(k); }
        }
        assert units == map k | k in before && now - before[k].lastUpdated < limits.timeout :: before[k];
        SetLastCleanup(now);
      }
    }

    method SetLastCleanup(now: int)
      requires Core()
      modifies this
      ensures Core() && Contents() == old(Contents()).(lastCleanup := now)
    {
      hide StoreOk, Stored, Counts;
      CleanupKeeps(limits, Counted(), Contents(), now);
      lastCleanup := now;
    }

    /** Completed units make way, least key first. */
    method ForgetCompleted(allowance: int)
      requires Core()
      modifies this
      ensures Core() && Contents() == old(Contents()).(completed := Forget(old(completed), allowance))
    {
      hide StoreOk, Stored, Counts, Sum;
      CountersAre();
      while completedBytes > allowance && completed != map[]
        invariant Core() && completedBytes == CompletedBytes(Contents()) && units == old(units) && lastCleanup == old(lastCleanup)
        invariant Forget(completed, allowance) == Forget(old(completed), allowance)
        decreases |completed|
      {
        EraseFirstCompleted();
        CountersAre();
      }
    }

    method EraseFirstCompleted()
      requires Core() && completed != map[]
      modifies this
      ensures Core() && Contents() == old(Contents()).(completed := old(completed) - {First(old(completed))})
      ensures |completed| < |old(completed)|
    {
      hide StoreOk, Stored, Counts, First, LimitsOk;
      var k := FirstKey(completed);
      ghost var c, s := Counted(), Contents();
      ForgetOneKeeps(limits, c, s, k);
      Smaller(completed, k);
      ForgetEntry(k);
      assert Contents() == s.(completed := s.completed - {k});
      assert Counted() == c.(completedBytes := c.completedBytes - |s.completed[k]|);
    }

    /** Pending units make way, longest idle first. */
    method EvictPending(length: nat)
      requires Core()
      modifies this
      ensures Core()
      ensures Contents() == old(Contents()).(pending := Evict(limits, old(units), length, CompletedBytes(old(Contents()))))
    {
      hide StoreOk, Stored, Counts, Sum;
      ghost var bytes := CompletedBytes(Contents());
      CountersAre();
      while pending != map[]
            && (|pending| >= limits.units || length > limits.bytes - pendingBytes - completedBytes)
        invariant Core() && completed == old(completed) && lastCleanup == old(lastCleanup)
        invariant pendingBytes == PendingBytes(Contents()) && completedBytes == CompletedBytes(Contents())
        invariant Evict(limits, units, length, bytes) == Evict(limits, old(units), length, bytes)
        decreases |units|
      {
        SameKeys(pending, units);
        EraseOldest();
        CountersAre();
      }
      SameKeys(pending, units);
    }

    method EraseOldest()
      requires Core() && units != map[]
      modifies this
      ensures Core() && Contents() == Without(old(Contents()), Oldest(old(units)))
      ensures |units| < |old(units)|
    {
      hide StoreOk, Stored, Counts;
      StoredKeys(pending, units);
      var k := OldestKey(pending, units);
      Smaller(units, k);
      ErasePending(k);
    }

    method TrimOne()
      requires Trimmable(limits, Contents()) && Counts(Counted(), Contents()) && completed != map[]
      modifies this
      ensures pending == old(pending) && Trimmable(limits, Contents()) && Counts(Counted(), Contents()) && |completed| < |old(completed)|
      ensures Contents() == old(Contents()).(completed := old(completed) - {First(old(completed))})
    {
      hide Trimmable, Counts, First;
      var k := FirstKey(completed);
      Smaller(completed, k);
      ForgetOneSums(limits, Counted(), Contents(), k);
      ForgetEntry(k);
    }

    method TrimCompleted()
      requires LimitsOk(limits) && Trimmable(limits, Contents()) && Counts(Counted(), Contents()) && Stored(pending, units)
      modifies this
      ensures Core() && Contents() == Trim(limits, old(Contents()))
    {
      hide Stored, Trimmable, Trim, Counts, StoreOk, Sum, First;
      CountersAre();
      while (completedBytes + pendingBytes > limits.bytes || |completed| > limits.units) && completed != map[]
        invariant Trimmable(limits, Contents()) && Counts(Counted(), Contents()) && Stored(pending, units)
        invariant pendingBytes == PendingBytes(Contents()) && completedBytes == CompletedBytes(Contents())
        invariant Trim(limits, Contents()) == Trim(limits, old(Contents()))
        decreases |completed|
      {
        TrimStep(limits, Contents());
        TrimOne();
        CountersAre();
      }
      TrimEnd(limits, Contents());
    }

    method OpenUnit(f: Fragment, now: int)
      requires Core() && KeyOf(f) !in units && KeyOf(f) !in completed && 0 < f.unitLength <= limits.bytes
      modifies this
      ensures Core() && Contents() == Open(limits, old(Contents()), f, now)
      ensures KeyOf(f) in pending && KeyOf(f) in units && units[KeyOf(f)].pieces == map[] && units[KeyOf(f)].length == f.unitLength
      ensures pending[KeyOf(f)].data != [] ==> Has(f.flags, START)
    {
      hide StoreOk, Counts, Stored, Forget, Evict, Open;
      ghost var s := Contents();
      OpenKeeps(limits, s, f, now);
      OpenIsRoom(limits, s, f, now);
      RoomHolds(limits, s, f.unitLength);
      ForgetCompleted(limits.bytes - f.unitLength);
      EvictPending(f.unitLength);
      assert Contents() == Room(limits, s, f.unitLength);
      InsertEmpty(f, now);
    }

    /** The new entry; its buffer is made at once when its first fragment is the START. */
    method InsertEmpty(f: Fragment, now: int)
      requires LimitsOk(limits) && Counts(Counted(), Contents()) && Stored(pending, units) && KeyOf(f) !in units
      requires StoreOk(limits, WithUnit(Contents(), KeyOf(f), Unit(f.unitLength, map[], now)))
      modifies this
      ensures Core() && Contents() == WithUnit(old(Contents()), KeyOf(f), Unit(f.unitLength, map[], now))
      ensures KeyOf(f) in pending && (pending[KeyOf(f)].data != [] ==> Has(f.flags, START))
    {
      hide StoreOk, Stored, Counts, Represents;
      ghost var s, u := Contents(), Unit(f.unitLength, map[], now);
      var key := KeyOf(f);
      CountsInsert(Counted(), s, u, key);
      var p := Pending(f.unitType, f.unitLength, if Has(f.flags, START) then seq(f.unitLength, _ => 0) else [],
                       map[], map[], 0, 0, now);
      EmptyRepresented(p, u, key);
      StoredWith(pending, units, key, p, u);
      pending := pending[key := p];
      pendingBytes := pendingBytes + f.unitLength;
      units := units[key := u];
      assert Contents() == WithUnit(s, key, u);
    }

    /** The entry after a stored payload. */
    method Replace(key: UnitKey, q: Pending, ghost u: Unit)
      requires LimitsOk(limits) && Counts(Counted(), Contents()) && Stored(pending, units) && key in units
      requires Represents(q, u, key) && u.length == units[key].length && |u.pieces| == |units[key].pieces| + 1
      requires StoreOk(limits, WithUnit(Contents(), key, u))
      modifies this
      ensures Core() && Contents() == WithUnit(old(Contents()), key, u)
    {
      hide StoreOk, Stored, Counts, Represents;
      ghost var s := Contents();
      StoredEntry(pending, units, key);
      CountsReplace(Counted(), s, pending[key], q, u, key);
      StoredWith(pending, units, key, q, u);
      preStartFragmentBytes := preStartFragmentBytes - pending[key].preStartBytes + q.preStartBytes;
      fragmentRangeCount := fragmentRangeCount + 1;
      pending := pending[key := q];
      units := units[key := u];
      assert Contents() == WithUnit(s, key, u);
    }

    /** The finished unit moves to the completed ones, which are then trimmed. */
    method Deliver(key: UnitKey, data: seq<byte>)
      requires Core() && key in units && key !in completed && |data| == units[key].length
      modifies this
      ensures Core()
      ensures Contents() == Trim(limits, Without(old(Contents()), key).(completed := old(completed)[key := data]))
    {
      hide StoreOk, Trimmable, Stored, Counts, Trim;
      ghost var s := Contents();
      StoredEntry(pending, units, key);
      ErasePending(key);
      DeliverSums(limits, s, Counted(), key, data);
      completedBytes := completedBytes + |data|;
      completed := completed[key := data];
      TrimCompleted();
    }

    /** The part of Push past the overlap checks. */
    method TakeFragment(f: Fragment, now: int) returns (outcome: Outcome)
      requires Core() && KeyOf(f) in units && KeyOf(f) !in completed && f.payload != []
      requires End(f) <= units[KeyOf(f)].length && !Overlaps(units[KeyOf(f)].pieces, f)
      requires Has(f.flags, START) <==> f.offset == 0
      requires units[KeyOf(f)].pieces == map[] && pending[KeyOf(f)].data != [] ==> Has(f.flags, START)
      modifies this
      ensures Core() && (Contents(), outcome) == Take(limits, old(Contents()), f, now)
    {
      hide StoreOk, Stored, Counts;
      var key := KeyOf(f);
      StoredEntry(pending, units, key);
      var p := pending[key];
      ghost var s, u := Contents(), units[key];
      UnitFacts(limits, s, key);
      CountersAre();
      PieceAdded(u, f);
      if fragmentRangeCount >= MAX_RANGES && p.count + |f.payload| < p.length {
        ErasePending(key);
        return Failed(RangeLimit);
      }
      if p.data == [] && !Has(f.flags, START) {
        if |f.payload| > MAX_PRE_START - preStartFragmentBytes
           || |f.payload| > limits.bytes - pendingBytes - completedBytes
        {
          ErasePending(key);
          return NotYet;
        }
      }
      var q := StorePayload(p, f, u, key, now);
      TakeKeeps(limits, s, f, now);
      if q.count == q.length {
        FullHasBuffer(q, Unit(u.length, PlusPiece(u, f), now), key);
        Deliver(key, q.data);
        return Delivered(q.data);
      }
      Replace(key, q, Unit(u.length, PlusPiece(u, f), now));
      return NotYet;
    }

    lemma CountersAre()
      requires Counts(Counted(), Contents())
      ensures fragmentRangeCount == Ranges(Contents()) && preStartFragmentBytes == PreStart(Contents())
      ensures pendingBytes == PendingBytes(Contents()) && completedBytes == CompletedBytes(Contents())
    {
    }

    /** RtpMlvcReassembler::Push, at time now. */
    method Push(f: Fragment, now: int) returns (outcome: Outcome)
      requires Valid()
      modifies this
      ensures Valid() && (Contents(), outcome) == ReassemblySpec.Push(limits, old(Contents()), f, now)
      ensures Rejection(limits, f).None? ==> now - lastCleanup < limits.timeout
    {
      outcome := PushFragment(f, now);
      if Rejection(limits, f).None? { PushTimes(limits, old(Contents()), f, now); }
      PushStarts(limits, old(Contents()), f, now);
    }

    method PushFragment(f: Fragment, now: int) returns (outcome: Outcome)
      requires Valid()
      modifies this
      ensures Core() && (Contents(), outcome) == ReassemblySpec.Push(limits, old(Contents()), f, now)
    {
      hide StoreOk, Stored, Counts, Take, Open;
      var rejection := CheckFragment(limits, f);
      if rejection.Some? { return Failed(rejection.value); }
      Cleanup(now);
      assert Started(Contents());
      var key := KeyOf(f);
      if key in completed {
        outcome := CompareCompleted(completed[key], f);
        return;
      }
      StoredKeys(pending, units);
      if key !in pending { OpenUnit(f, now); }
      StoredEntry(pending, units, key);
      var p := pending[key];
      ghost var u := units[key];
      UnitFacts(limits, Contents(), key);
      if p.length != f.unitLength { return Failed(ConflictingFragment); }
      var clash := FindClash(p, f, u);
      match clash
      case Repeats => return NotYet;
      case Differs => return Failed(ConflictingDuplicateFragment);
      case Overlapping => return Failed(OverlappingFragments);
      case Free => outcome := TakeFragment(f, now);
    }
  }

  /** The constructor throws when a limit is zero or the timeout is not positive. */
  method MakeReassembler(limits: Limits, now: int) returns (reassembler: Option<RtpMlvcReassembler>)
    ensures reassembler.Some? <==> LimitsOk(limits)
    ensures reassembler.Some? ==>
              && fresh(reassembler.value) && reassembler.value.Valid() && reassembler.value.limits == limits
              && reassembler.value.Contents() == Store(map[], map[], now)
  {
    if limits.bytes == 0 || limits.units == 0 || limits.timeout <= 0 { return None; }
    var made := new RtpMlvcReassembler(limits, now);
    return Some(made);
  }

  /** A store as Deliver leaves it: all bounds but the one on completed units. */
  ghost predicate Trimmable(limits: Limits, s: Store) {
    && UnitsOk(limits, s) && PendingBytes(s) + CompletedBytes(s) <= limits.bytes
    && |s.pending| <= limits.units && Ranges(s) <= MAX_RANGES && PreStart(s) <= MAX_PRE_START
  }

  lemma ForgetOneSums(limits: Limits, c: Counters, s: Store, k: UnitKey)
    requires Trimmable(limits, s) && Counts(c, s) && k in s.completed
    ensures Trimmable(limits, s.(completed := s.completed - {k}))
    ensures Counts(c.(completedBytes := c.completedBytes - |s.completed[k]|), s.(completed := s.completed - {k}))
  {
    CountsForget(c, s, k);
  }

  lemma TrimStep(limits: Limits, s: Store)
    requires CompletedBytes(s) + PendingBytes(s) > limits.bytes || |s.completed| > limits.units
    requires s.completed != map[]
    ensures Trim(limits, s) == Trim(limits, s.(completed := s.completed - {First(s.completed)}))
  {
  }

  lemma TrimEnd(limits: Limits, s: Store)
    requires Trimmable(limits, s)
    requires s.completed == map[] || (CompletedBytes(s) + PendingBytes(s) <= limits.bytes && |s.completed| <= limits.units)
    ensures Trim(limits, s) == s && StoreOk(limits, s)
  {
  }

  lemma DeliverSums(limits: Limits, s: Store, c: Counters, key: UnitKey, data: seq<byte>)
    requires StoreOk(limits, s) && key in s.pending && key !in s.completed && |data| == s.pending[key].length
    requires Counts(c, Without(s, key)) && StoreOk(limits, Without(s, key))
    ensures var t := Without(s, key).(completed := s.completed[key := data]);
            Trimmable(limits, t) && Counts(c.(completedBytes := c.completedBytes + |data|), t)
  {
    SumAdd(s.completed, Size, key, data);
    RemovedSums(s, key);
  }

  lemma UnitFacts(limits: Limits, s: Store, key: UnitKey)
    requires StoreOk(limits, s) && key in s.pending
    ensures var u := s.pending[key];
            Sound(u.pieces, u.length) && Total(u.pieces) < u.length <= limits.bytes && key !in s.completed
  {
  }

  lemma StoredEntry(pending: map<UnitKey, Pending>, units: map<UnitKey, Unit>, key: UnitKey)
    requires Stored(pending, units) && key in units
    ensures key in pending && Represents(pending[key], units[key], key)
  {
  }

  lemma StoredKeys(pending: map<UnitKey, Pending>, units: map<UnitKey, Unit>)
    requires Stored(pending, units)
    ensures pending.Keys == units.Keys
  {
  }

  lemma StoredWith(pending: map<UnitKey, Pending>, units: map<UnitKey, Unit>, key: UnitKey, p: Pending, u: Unit)
    requires Stored(pending, units) && Represents(p, u, key)
    ensures Stored(pending[key := p], units[key := u])
  {
  }

  lemma EmptyRepresented(p: Pending, u: Unit, key: UnitKey)
    requires u.pieces == map[] && p.ranges == map[] && p.preStart == map[] && p.count == p.preStartBytes == 0
    requires p.unitType == key.unitType && p.length == u.length && p.lastUpdated == u.lastUpdated
    requires p.data == [] || p.data == seq(p.length, _ => 0)
    ensures Represents(p, u, key)
  {
    NothingJoined(p.length);
  }

  /** A full unit has its START, so its buffer is the joined pieces. */
  lemma FullHasBuffer(q: Pending, u: Unit, key: UnitKey)
    requires Represents(q, u, key) && Sound(u.pieces, u.length) && Total(u.pieces) == u.length && 0 < u.length
    ensures q.data == Joined(u.pieces, u.length)
  {
    FullIsCovered(u.pieces, u.length);
  }

  ghost predicate Stored(pending: map<UnitKey, Pending>, units: map<UnitKey, Unit>) {
    pending.Keys == units.Keys && forall k :: k in units ==> Represents(pending[k], units[k], k)
  }

  lemma StoredErase(pending: map<UnitKey, Pending>, units: map<UnitKey, Unit>, key: UnitKey)
    requires Stored(pending, units) && key in pending
    ensures Stored(pending - {key}, units - {key}) && key in units && Represents(pending[key], units[key], key)
  {
  }

  function PendingAges(pending: map<UnitKey, Pending>): map<UnitKey, int> {
    map k | k in pending :: pending[k].lastUpdated
  }

  lemma SameKeys(pending: map<UnitKey, Pending>, units: map<UnitKey, Unit>)
    requires Stored(pending, units)
    ensures |pending| == |units| && (pending == map[] <==> units == map[])
  {
    assert |pending.Keys| == |pending| && |units.Keys| == |units|;
    assert pending == map[] <==> pending.Keys == {};
    assert units == map[] <==> units.Keys == {};
  }

  lemma OldestIsLeast(pending: map<UnitKey, Pending>, units: map<UnitKey, Unit>)
    requires Stored(pending, units) && units != map[]
    ensures PendingAges(pending) == Ages(units) && IsLeast(Ages(units), Oldest(units)) && Oldest(units) in pending
  {
    forall k | k in units ensures pending[k].lastUpdated == units[k].lastUpdated {
      assert Represents(pending[k], units[k], k);
    }
  }

  lemma FirstIsLeast(completed: map<UnitKey, seq<byte>>)
    requires completed != map[]
    ensures IsLeast(SameAge(completed), First(completed)) && First(completed) in completed
  {
  }

  lemma RepresentedCounts(p: Pending, u: Unit, key: UnitKey)
    requires Represents(p, u, key)
    ensures p.length == u.length && |p.ranges| == |u.pieces| && p.lastUpdated == u.lastUpdated
    ensures p.preStartBytes == PreStartBytes(u)
  {
    assert |p.ranges.Keys| == |p.ranges| && |u.pieces.Keys| == |u.pieces|;
  }

  lemma CleanupKeeps(limits: Limits, c: Counters, s: Store, now: int)
    requires StoreOk(limits, s) && Counts(c, s)
    ensures StoreOk(limits, s.(lastCleanup := now)) && Counts(c, s.(lastCleanup := now))
  {
  }

  lemma CountsForget(c: Counters, s: Store, k: UnitKey)
    requires Counts(c, s) && k in s.completed
    ensures Counts(c.(completedBytes := c.completedBytes - |s.completed[k]|), s.(completed := s.completed - {k}))
  {
    SumRemove(s.completed, Size, k);
  }

  lemma ForgetOneKeeps(limits: Limits, c: Counters, s: Store, k: UnitKey)
    requires StoreOk(limits, s) && Counts(c, s) && k in s.completed
    ensures StoreOk(limits, s.(completed := s.completed - {k}))
    ensures Counts(c.(completedBytes := c.completedBytes - |s.completed[k]|), s.(completed := s.completed - {k}))
  {
    FewerUnits(limits, s, s.(completed := s.completed - {k}));
    CountsForget(c, s, k);
  }

  lemma CountsErase(c: Counters, s: Store, p: Pending, key: UnitKey)
    requires key in s.pending && Represents(p, s.pending[key], key) && Counts(c, s)
    ensures Counts(Counters(c.pendingBytes - p.length, c.completedBytes, c.ranges - |p.ranges|, c.preStart - p.preStartBytes),
                   Without(s, key))
  {
    RemovedSums(s, key);
    RepresentedCounts(p, s.pending[key], key);
  }

  lemma CountsInsert(c: Counters, s: Store, u: Unit, key: UnitKey)
    requires key !in s.pending && u.pieces == map[] && Counts(c, s)
    ensures Counts(c.(pendingBytes := c.pendingBytes + u.length), WithUnit(s, key, u))
  {
    AddedSums(s, key, u);
    EmptyUnit(u.length, u.lastUpdated);
  }

  lemma CountsReplace(c: Counters, s: Store, p: Pending, q: Pending, u: Unit, key: UnitKey)
    requires key in s.pending && Represents(p, s.pending[key], key) && Represents(q, u, key) && Counts(c, s)
    requires u.length == s.pending[key].length && |u.pieces| == |s.pending[key].pieces| + 1
    ensures Counts(c.(ranges := c.ranges + 1, preStart := c.preStart - p.preStartBytes + q.preStartBytes), WithUnit(s, key, u))
  {
    UpdatedSums(s, key, u);
    RepresentedCounts(p, s.pending[key], key);
    RepresentedCounts(q, u, key);
  }
}
