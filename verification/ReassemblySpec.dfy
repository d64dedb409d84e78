/** What RtpMlvcReassembler::Push does, on values and without counters: the sums it bounds are taken over
    the stored units each time. */
module ReassemblySpec {
  import opened Options
  import opened Bytes
  import opened Tally
  import opened RtpFragment
  import opened Assembly

  datatype UnitKey = UnitKey(ssrc: uint32, timestamp: uint32, unitType: byte, configId: uint32, unitId: uint32)

  /** The order of std::tuple: lexicographic. */
  predicate KeyLeq(a: UnitKey, b: UnitKey) {
    a.ssrc < b.ssrc || (a.ssrc == b.ssrc &&
    (a.timestamp < b.timestamp || (a.timestamp == b.timestamp &&
    (a.unitType < b.unitType || (a.unitType == b.unitType &&
    (a.configId < b.configId || (a.configId == b.configId && a.unitId <= b.unitId)))))))
  }

  /** A unit in the making; its START has come exactly when offset 0 is there. */
  datatype Unit = Unit(length: nat, pieces: Pieces, lastUpdated: int)

  datatype Store = Store(pending: map<UnitKey, Unit>, completed: map<UnitKey, seq<byte>>, lastCleanup: int)

  /** The constructor's arguments; the byte limit bounds both one unit and all stored bytes. */
  datatype Limits = Limits(bytes: nat, units: nat, timeout: int)

  const MAX_RANGES: nat := 131072
  const MAX_PRE_START: nat := 1048576

  datatype PushError =
    | InvalidUnit | UnitLength | UnitIdentity | ConflictingDuplicateUnit | ConflictingFragment
    | ConflictingDuplicateFragment | OverlappingFragments | RangeLimit

  /** Push returns true and the unit, returns false, or throws. */
  datatype Outcome = Delivered(unit: seq<byte>) | NotYet | Failed(error: PushError)

  // ----- sums -----

  function Length(u: Unit): nat { u.length }

  function RangeCount(u: Unit): nat { |u.pieces| }

  ghost function PreStartBytes(u: Unit): nat {
    if 0 in u.pieces then 0 else Total(u.pieces)
  }

  ghost function PendingBytes(s: Store): nat { Sum(s.pending, Length) }

  ghost function CompletedBytes(s: Store): nat { Sum(s.completed, Size) }

  ghost function Ranges(s: Store): nat { Sum(s.pending, RangeCount) }

  ghost function PreStart(s: Store): nat { Sum(s.pending, PreStartBytes) }

  // ----- least keys -----

  /** The entry of least age, and of least key among those. */
  predicate IsLeast(ages: map<UnitKey, int>, k: UnitKey) {
    k in ages && forall j :: j in ages ==> ages[k] < ages[j] || (ages[k] == ages[j] && KeyLeq(k, j))
  }

  lemma {:induction false} LeastExists(ages: map<UnitKey, int>)
    requires ages != map[]
    ensures exists k :: IsLeast(ages, k)
    decreases |ages|
  {
    var x :| x in ages;
    var rest := ages - {x};
    if rest == map[] {
      assert forall j :: j in ages ==> j == x || j in rest;
      assert IsLeast(ages, x);
    } else {
      Smaller(ages, x);
      LeastExists(rest);
      var k :| IsLeast(rest, k);
      assert forall j :: j in ages ==> j == x || (j in rest && rest[j] == ages[j]);
      if ages[k] < ages[x] || (ages[k] == ages[x] && KeyLeq(k, x)) {
        assert IsLeast(ages, k);
      } else {
        assert IsLeast(ages, x);
      }
    }
  }

  lemma LeastUnique(ages: map<UnitKey, int>, a: UnitKey, b: UnitKey)
    requires IsLeast(ages, a) && IsLeast(ages, b)
    ensures a == b
  {
  }

  ghost function Least(ages: map<UnitKey, int>): UnitKey
    requires ages != map[]
    ensures IsLeast(ages, Least(ages))
  {
    LeastExists(ages);
    var k :| IsLeast(ages, k);
    k
  }

  /** Every entry of the same age: std::map::begin. */
  function SameAge(completed: map<UnitKey, seq<byte>>): map<UnitKey, int> {
    map k | k in completed :: 0
  }

  /** Age by last update: std::min_element. */
  function Ages(pending: map<UnitKey, Unit>): map<UnitKey, int> {
    map k | k in pending :: pending[k].lastUpdated
  }

  ghost function First(completed: map<UnitKey, seq<byte>>): UnitKey
    requires completed != map[]
    ensures First(completed) in completed
  {
    assert forall k :: k in completed ==> k in SameAge(completed);
    assert SameAge(completed) != map[];
    Least(SameAge(completed))
  }

  ghost function Oldest(pending: map<UnitKey, Unit>): UnitKey
    requires pending != map[]
    ensures Oldest(pending) in pending
  {
    assert forall k :: k in pending ==> k in Ages(pending);
    assert Ages(pending) != map[];
    Least(Ages(pending))
  }

  // ----- the steps of Push -----

  function KeyOf(f: Fragment): UnitKey {
    UnitKey(f.ssrc, f.timestamp, f.unitType, f.configId, f.unitId)
  }

  /** The checks at the head of Push; the extension flag is not looked at. */
  function Rejection(limits: Limits, f: Fragment): Option<PushError> {
    if f.unitType == 0 || f.unitLength == 0 || f.unitLength > limits.bytes || f.flags % 32 != 0
       || !Placed(f.flags, f.offset, |f.payload|, f.unitLength)
    then Some(InvalidUnit)
    else if !LengthOk(f.unitType, f.unitLength) then Some(UnitLength)
    else if !IdentityOk(f.unitType, f.configId, f.unitId) then Some(UnitIdentity)
    else None
  }

  function Expire(limits: Limits, s: Store, now: int): Store {
    if now - s.lastCleanup >= limits.timeout
    then Store(map k | k in s.pending && now - s.pending[k].lastUpdated < limits.timeout :: s.pending[k], s.completed, now)
    else s
  }

  /** Forgets completed units, least key first, until at most allowance bytes of them are left. */
  ghost function Forget(completed: map<UnitKey, seq<byte>>, allowance: int): map<UnitKey, seq<byte>>
    decreases |completed|
  {
    if Sum(completed, Size) <= allowance || completed == map[] then completed
    else
      Smaller(completed, First(completed));
      Forget(completed - {First(completed)}, allowance)
  }

  /** Evicts the longest idle units until one more of this length fits. */
  ghost function Evict(limits: Limits, pending: map<UnitKey, Unit>, length: nat, completedBytes: nat): map<UnitKey, Unit>
    decreases |pending|
  {
    if pending == map[] || (|pending| < limits.units && length <= limits.bytes - Sum(pending, Length) - completedBytes)
    then pending
    else
      Smaller(pending, Oldest(pending));
      Evict(limits, pending - {Oldest(pending)}, length, completedBytes)
  }

  /** Opens an empty unit under a new key. */
  ghost function Open(limits: Limits, s: Store, f: Fragment, now: int): Store {
    var completed := Forget(s.completed, limits.bytes - f.unitLength);
    var pending := Evict(limits, s.pending, f.unitLength, Sum(completed, Size));
    s.(completed := completed, pending := pending[KeyOf(f) := Unit(f.unitLength, map[], now)])
  }

  predicate SameRange(pieces: Pieces, f: Fragment) {
    f.offset in pieces && |pieces[f.offset]| == |f.payload|
  }

  predicate Overlaps(pieces: Pieces, f: Fragment) {
    exists o :: o in pieces && Meets(pieces, o, f.offset, End(f))
  }

  /** Forgets completed units, least key first, down to the limits on their number and bytes. */
  ghost function Trim(limits: Limits, s: Store): Store
    decreases |s.completed|
  {
    if s.completed == map[]
       || (CompletedBytes(s) + PendingBytes(s) <= limits.bytes && |s.completed| <= limits.units)
    then s
    else
      Smaller(s.completed, First(s.completed));
      Trim(limits, s.(completed := s.completed - {First(s.completed)}))
  }

  /** Takes the fragment into an open unit it neither repeats nor overlaps. */
  ghost function Take(limits: Limits, s: Store, f: Fragment, now: int): (Store, Outcome)
    requires KeyOf(f) in s.pending
  {
    var key := KeyOf(f);
    var unit := s.pending[key];
    if Ranges(s) >= MAX_RANGES && Total(unit.pieces) + |f.payload| < unit.length
    then (s.(pending := s.pending - {key}), Failed(RangeLimit))
    else if 0 !in unit.pieces && f.offset != 0 && !PreStartFits(limits, s, f)
    then (s.(pending := s.pending - {key}), NotYet)
    else
      var pieces := unit.pieces[f.offset := f.payload];
      if Total(pieces) == unit.length then
        var data := Joined(pieces, unit.length);
        (Trim(limits, s.(pending := s.pending - {key}, completed := s.completed[key := data])), Delivered(data))
      else (s.(pending := s.pending[key := Unit(unit.length, pieces, now)]), NotYet)
  }

  /** Room for bytes that wait for their START: below the fixed budget and in what the limit leaves. */
  ghost predicate PreStartFits(limits: Limits, s: Store, f: Fragment) {
    && |f.payload| <= MAX_PRE_START - PreStart(s)
    && |f.payload| <= limits.bytes - PendingBytes(s) - CompletedBytes(s)
  }

  ghost function Push(limits: Limits, before: Store, f: Fragment, now: int): (Store, Outcome) {
    var rejection := Rejection(limits, f);
    if rejection.Some? then (before, Failed(rejection.value))
    else PushValid(limits, Expire(limits, before, now), f, now)
  }

  ghost function PushValid(limits: Limits, s: Store, f: Fragment, now: int): (Store, Outcome) {
    var key := KeyOf(f);
    if key in s.completed then (s, AgainstCompleted(s.completed[key], f))
    else
      var open := if key in s.pending then s else Open(limits, s, f, now);
      var unit := open.pending[key];
      if unit.length != f.unitLength then (open, Failed(ConflictingFragment))
      else if SameRange(unit.pieces, f) then
        (open, if unit.pieces[f.offset] == f.payload then NotYet else Failed(ConflictingDuplicateFragment))
      else if Overlaps(unit.pieces, f) then (open, Failed(OverlappingFragments))
      else Take(limits, open, f, now)
  }

  /** A fragment of a unit already delivered is checked against it. */
  function AgainstCompleted(unit: seq<byte>, f: Fragment): Outcome {
    if End(f) <= |unit| && f.payload == unit[f.offset..End(f)] then NotYet else Failed(ConflictingDuplicateUnit)
  }
}
