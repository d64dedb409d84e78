/** The sender's session: which configuration the queued media units belong to. */
module Session {
  import opened Options
  import opened Bytes
  import opened Wire
  import opened RtpFragment
  import opened MediaUnit

  /** SCU parsing and the CRC are parameters. */
  datatype Env = Env(scuOk: seq<byte> -> bool, crc: Crc)

  datatype Queued = Queued(kind: byte, configId: uint32, bytes: seq<byte>)

  /** session is zero and config empty before the first configuration; pending is the configuration whose
      random-access EFU is still to come; queue is everything ever queued. */
  datatype State = State(session: uint32, config: seq<byte>, pending: uint32, queue: seq<Queued>)

  const START_STATE := State(0, [], 0, [])

  // ----- what SendUnitLocked checks -----

  predicate EosOk(b: seq<byte>)
    requires HeaderOk(b)
  {
    && Get16(b, 2) == 20 && Get32(b, 4) == 20 && Get32(b, 12) != 0 && Get32(b, 16) == 0
    && (Get32(b, 8) == NO_REFERENCE || Get32(b, 8) <= 0x7FFF_FFFF)
  }

  /** ValidateMediaUnit, and ParseScu for configurations. */
  predicate BodyOk(env: Env, kind: byte, b: seq<byte>)
    requires HeaderOk(b)
  {
    if kind == SCU then env.scuOk(b) else if kind == EFU then ParsedEfu(env.crc, b).Accepted? else EosOk(b)
  }

  /** Everything that depends on the unit alone; the last line is what cutting it into fragments checks. */
  predicate UnitOk(env: Env, kind: byte, configId: uint32, unitId: uint32, b: seq<byte>) {
    && kind in {SCU, EFU, EOS} && HeaderOk(b)
    && b[1] == kind && Get32(b, 12) == configId && Get32(b, 8) == unitId
    && BodyOk(env, kind, b)
    && LengthOk(kind, |b|) && IdentityOk(kind, configId, unitId)
  }

  /** A random-access, reference-resetting intra EFU. */
  predicate FreshStart(env: Env, q: Queued) {
    q.kind == EFU && ParsedEfu(env.crc, q.bytes).Accepted? &&
    var e := ParsedEfu(env.crc, q.bytes).efu;
    e.configId == q.configId && e.frameType == 0 && Has(e.flags, RANDOM_ACCESS) && Has(e.flags, RESET_REFERENCE)
  }

  /** The gate while a random-access EFU is awaited. */
  predicate GateOpen(env: Env, s: State, q: Queued) {
    s.pending != 0 ==>
      if q.kind == SCU then q.configId == s.pending && q.bytes == s.config
      else FreshStart(env, q) && q.configId == s.pending
  }

  predicate SessionOk(s: State, q: Queued) {
    q.kind != SCU ==> s.session != 0 && q.configId == s.session
  }

  /** The state after a unit is queued. */
  function Enqueued(s: State, q: Queued): State {
    s.(queue := s.queue + [q], pending := if q.kind == EFU then 0 else s.pending)
  }

  /** SendUnitLocked: room says whether the queue takes the unit. */
  function Sent(env: Env, s: State, kind: byte, configId: uint32, unitId: uint32, b: seq<byte>, room: bool): (bool, State) {
    var q := Queued(kind, configId, b);
    if UnitOk(env, kind, configId, unitId, b) && SessionOk(s, q) && GateOpen(env, s, q) && room
    then (true, Enqueued(s, q)) else (false, s)
  }

  /** SetSessionConfig's own checks. */
  predicate MayConfigure(env: Env, s: State, configId: uint32, b: seq<byte>) {
    && HeaderOk(b) && env.scuOk(b) && Get32(b, 12) == configId
    && (configId == s.session && s.config != [] ==> s.config == b)
    && var order := CompareSerial(configId, s.session);
       && (s.session != 0 ==> order != Older && order != Ambiguous)
       && (s.pending != 0 ==> order != Newer)
  }

  function NewPending(s: State, configId: uint32): uint32 {
    if s.pending != 0 then s.pending
    else if s.session != 0 && CompareSerial(configId, s.session) == Newer then configId else 0
  }

  /** SetSessionConfig; a refused SCU leaves everything as it was. */
  function Configured(env: Env, s: State, configId: uint32, b: seq<byte>, room: bool): (bool, State) {
    if !MayConfigure(env, s, configId, b) then (false, s)
    else
      var (sent, after) := Sent(env, s.(session := configId, config := b, pending := 0), SCU, configId, configId, b, room);
      if sent then (true, after.(pending := NewPending(s, configId))) else (false, s)
  }

  method ValidateMediaUnit(env: Env, b: seq<byte>) returns (ok: bool)
    ensures HeaderOk(b) && b[1] in {SCU, EFU, EOS} ==> (ok <==> BodyOk(env, b[1], b))
  {
    hide ParsedEfu, HeaderOk;
    var header, unitType, headerLength, unitLength, unitId, configId, flags := ParseMediaUnitHeader(b);
    if !header { return false; }
    if unitType == SCU { return env.scuOk(b); }
    if unitType == EFU {
      var parsed := ParseEfu(env.crc, b);
      return parsed.Accepted?;
    }
    if unitType == EOS {
      return headerLength == 20 && unitLength == 20 && configId != 0 && flags == 0
             && (unitId == 0xFFFF_FFFF || unitId <= 0x7FFF_FFFF);
    }
    return true;
  }

  // ----- the class -----

  class RtpMlvcSender {
    const env: Env
    var sessionConfigId: uint32
    var sessionConfig: seq<byte>
    var pendingRandomAccess: uint32
    var queuedBytes: nat
    ghost var queue: seq<Queued>

    ghost function Value(): State
      reads this
    {
      State(sessionConfigId, sessionConfig, pendingRandomAccess, queue)
    }

    constructor (env: Env)
      ensures this.env == env && Value() == START_STATE && queuedBytes == 0
    {
      this.env := env;
      sessionConfigId, sessionConfig, pendingRandomAccess, queuedBytes, queue := 0, [], 0, 0, [];
    }

    /** The whole unit and its packet overhead are reserved at once and given back if queueing fails;
        reserved and taken say whether ReserveQueueBytes and EnqueueReserved go through. */
    method SendUnitLocked(kind: byte, configId: uint32, unitId: uint32, b: seq<byte>, reserved: bool, taken: bool)
      returns (ok: bool)
      modifies this
      ensures (ok, Value()) == Sent(env, old(Value()), kind, configId, unitId, b, reserved && taken)
      ensures queuedBytes == old(queuedBytes) + if ok then ReservedBytes(|b|) else 0
    {
      hide ParsedEfu, HeaderOk, LengthOk, IdentityOk, EosOk;
      ghost var q := Queued(kind, configId, b);
      if kind !in {SCU, EFU, EOS} { return false; }
      var header, unitType, _, _, headerUnit, headerConfig, _ := ParseMediaUnitHeader(b);
      if !header { return false; }
      HeaderLong(b);
      if unitType != kind || headerConfig != configId || headerUnit != unitId { return false; }
      if kind == SCU {
        if !env.scuOk(b) { return false; }
      } else if sessionConfigId == 0 || configId != sessionConfigId {
        return false;
      }
      var body := ValidateMediaUnit(env, b);
      if !body { return false; }
      if pendingRandomAccess != 0 {
        if kind == SCU {
          if configId != pendingRandomAccess || b != sessionConfig { return false; }
        } else if kind != EFU {
          return false;
        } else {
          var parsed := ParseEfu(env.crc, b);
          var e := parsed.efu;
          EfuConfig(env.crc, b);
          if e.configId != pendingRandomAccess || e.frameType != 0 || !Has(e.flags, RANDOM_ACCESS)
             || !Has(e.flags, RESET_REFERENCE)
          {
            return false;
          }
        }
      }
      var count := (|b| + (1200 - 24) - 1) / (1200 - 24);
      var reservedBytes := |b| + (if count == 0 then 1 else count) * (36 + 28);
      Reservation(|b|);
      if !reserved { return false; }
      queuedBytes := queuedBytes + reservedBytes;
      var fits := ValidateUnitLengthForType(kind, |b|);
      var named := ValidateFragmentIdentity(kind, configId, unitId);
      if !fits || !named || !taken {
        queuedBytes := queuedBytes - reservedBytes;
        return false;
      }
      queue := queue + [q];
      if pendingRandomAccess != 0 && kind == EFU { pendingRandomAccess := 0; }
      return true;
    }

    method SetSessionConfig(configId: uint32, b: seq<byte>, reserved: bool, taken: bool) returns (ok: bool)
      modifies this
      ensures (ok, Value()) == Configured(env, old(Value()), configId, b, reserved && taken)
      ensures !ok ==> queuedBytes == old(queuedBytes)
    {
      hide HeaderOk, UnitOk, GateOpen;
      var header, _, _, _, _, headerConfig, _ := ParseMediaUnitHeader(b);
      if !header || !env.scuOk(b) || headerConfig != configId { return false; }
      if configId == sessionConfigId && sessionConfig != [] && sessionConfig != b { return false; }
      var order := CompareSerial(configId, sessionConfigId);
      if sessionConfigId != 0 && (order == Older || order == Ambiguous) { return false; }
      var oldId, oldConfig, oldPending := sessionConfigId, sessionConfig, pendingRandomAccess;
      if oldPending != 0 && order == Newer { return false; }
      sessionConfigId := configId;
      sessionConfig := b;
      var newPending := if oldPending != 0 then oldPending else if oldId != 0 && order == Newer then configId else 0;
      pendingRandomAccess := 0;
      ok := SendUnitLocked(SCU, configId, configId, b, reserved, taken);
      if ok {
        pendingRandomAccess := newPending;
      } else {
        sessionConfigId, sessionConfig, pendingRandomAccess := oldId, oldConfig, oldPending;
      }
    }

    method ResendSessionConfig(reserved: bool, taken: bool) returns (ok: bool)
      modifies this
      ensures var s := old(Value());
              (ok, Value()) == if s.config == [] then (false, s)
                               else Sent(env, s, SCU, s.session, s.session, s.config, reserved && taken)
      ensures Value() == Called(env, old(Value()), Call.ResendSessionConfig(reserved && taken))
    {
      hide UnitOk, GateOpen;
      if sessionConfig == [] { return false; }
      ok := SendUnitLocked(SCU, sessionConfigId, sessionConfigId, sessionConfig, reserved, taken);
    }
  }

  /** 36 bytes of RTP and descriptor headers and 28 of IPv4 and UDP per fragment. */
  function ReservedBytes(size: nat): nat {
    size + (if size == 0 then 1 else (size + 1175) / 1176) * 64
  }

  lemma Reservation(size: nat)
    ensures var count := (size + 1175) / 1176; ReservedBytes(size) == size + (if count == 0 then 1 else count) * 64
  {
  }

  lemma HeaderLong(b: seq<byte>)
    requires HeaderOk(b)
    ensures |b| >= 20
  {
  }

  lemma EfuConfig(crc: Crc, b: seq<byte>)
    requires ParsedEfu(crc, b).Accepted?
    ensures |b| >= 20 && ParsedEfu(crc, b).efu.configId == Get32(b, 12)
  {
  }

  // ----- safety of the queue -----

  /** The configuration of the last SCU among the first n units. */
  function Latest(queue: seq<Queued>, n: nat): Option<uint32>
    requires n <= |queue|
  {
    if n == 0 then None else if queue[n - 1].kind == SCU then Some(queue[n - 1].configId) else Latest(queue, n - 1)
  }

  /** A switch to a newer configuration has been queued and nothing but SCUs since. */
  function Armed(queue: seq<Queued>, n: nat): bool
    requires n <= |queue|
  {
    if n == 0 then false
    else if queue[n - 1].kind != SCU then false
    else Armed(queue, n - 1) || Switches(queue, n - 1, queue[n - 1])
  }

  /** q, coming after the first n units, has a newer configuration than the latest SCU. */
  predicate Switches(queue: seq<Queued>, n: nat, q: Queued)
    requires n <= |queue|
  {
    Latest(queue, n).Some? && CompareSerial(q.configId, Latest(queue, n).value) == Newer
  }

  /** Unit i is in place: a media unit belongs to the latest SCU and starts afresh after a switch; an SCU
      never moves backwards. */
  ghost predicate InPlace(env: Env, queue: seq<Queued>, i: nat)
    requires i < |queue|
  {
    if queue[i].kind == SCU then
      Latest(queue, i).Some? ==> CompareSerial(queue[i].configId, Latest(queue, i).value) in {Same, Newer}
    else
      Latest(queue, i) == Some(queue[i].configId) && (Armed(queue, i) ==> FreshStart(env, queue[i]))
  }

  ghost predicate SafeQueue(env: Env, queue: seq<Queued>) {
    forall i :: 0 <= i < |queue| ==> InPlace(env, queue, i)
  }

  /** The sender's fields say what the queue says. */
  ghost predicate Consistent(s: State) {
    && (s.session == 0 ==> s.queue == [] && s.config == [] && s.pending == 0)
    && (s.session != 0 ==> Latest(s.queue, |s.queue|) == Some(s.session))
    && (s.pending != 0 ==> s.pending == s.session)
    && (s.pending != 0 <==> Armed(s.queue, |s.queue|))
  }

  lemma {:induction false} PrefixSame(a: seq<Queued>, b: seq<Queued>, n: nat)
    requires n <= |a| && a <= b
    ensures Latest(a, n) == Latest(b, n) && Armed(a, n) == Armed(b, n)
  {
    if n > 0 { PrefixSame(a, b, n - 1); }
  }

  lemma SafeAppend(env: Env, queue: seq<Queued>, q: Queued)
    requires SafeQueue(env, queue) && InPlace(env, queue + [q], |queue|)
    ensures SafeQueue(env, queue + [q])
  {
    hide FreshStart;
    forall i | 0 <= i < |queue| ensures InPlace(env, queue + [q], i) {
      PrefixSame(queue, queue + [q], i);
      assert InPlace(env, queue, i);
    }
  }

  /** The caller's side of SendUnit: SCUs go out under the session's own configuration. */
  predicate Guarded(s: State, kind: byte, configId: uint32) {
    kind == SCU ==> configId == s.session
  }

  /** Queueing one more unit. */
  lemma EnqueuedKeeps(env: Env, s: State, q: Queued)
    requires SafeQueue(env, s.queue) && Consistent(s) && s.session != 0
    requires SessionOk(s, q) && GateOpen(env, s, q) && (q.kind == SCU ==> q.configId == s.session) && q.kind in {SCU, EFU, EOS}
    ensures SafeQueue(env, Enqueued(s, q).queue) && Consistent(Enqueued(s, q))
  {
    hide FreshStart, Latest, Armed;
    var n, more := |s.queue|, s.queue + [q];
    PrefixSame(s.queue, more, n);
    OneMore(s.queue, q);
    SameSerial(s.session);
    FreshIsEfu(env, q);
    SafeAppend(env, s.queue, q);
  }

  lemma FreshIsEfu(env: Env, q: Queued)
    ensures FreshStart(env, q) ==> q.kind == EFU
  {
  }

  lemma OneMore(queue: seq<Queued>, q: Queued)
    ensures var more, n := queue + [q], |queue|;
            && Latest(more, n + 1) == (if q.kind == SCU then Some(q.configId) else Latest(queue, n))
            && Armed(more, n + 1) == (q.kind == SCU && (Armed(queue, n) || Switches(queue, n, q)))
  {
    PrefixSame(queue, queue + [q], |queue|);
  }

  lemma SameSerial(id: uint32)
    ensures CompareSerial(id, id) == Same
  {
  }

  lemma SentKeeps(env: Env, s: State, kind: byte, configId: uint32, unitId: uint32, b: seq<byte>, room: bool)
    requires SafeQueue(env, s.queue) && Consistent(s) && Guarded(s, kind, configId)
    ensures var t := Sent(env, s, kind, configId, unitId, b, room).1; SafeQueue(env, t.queue) && Consistent(t)
  {
    hide SafeQueue, HeaderOk, BodyOk, GateOpen, LengthOk, Enqueued, Consistent;
    var q := Queued(kind, configId, b);
    if Sent(env, s, kind, configId, unitId, b, room).0 { EnqueuedKeeps(env, s, q); }
  }

  lemma ConfigId(env: Env, configId: uint32, b: seq<byte>)
    requires UnitOk(env, SCU, configId, configId, b)
    ensures configId != 0
  {
    hide HeaderOk, BodyOk;
  }

  /** The first configuration, a refresh, or a switch. */
  lemma ConfiguredKeeps(env: Env, s: State, configId: uint32, b: seq<byte>, room: bool)
    requires SafeQueue(env, s.queue) && Consistent(s)
    ensures var t := Configured(env, s, configId, b, room).1; SafeQueue(env, t.queue) && Consistent(t)
  {
    hide UnitOk, FreshStart, Latest, Armed, HeaderOk;
    if Configured(env, s, configId, b, room).0 {
      var q := Queued(SCU, configId, b);
      ConfigId(env, configId, b);
      OneMore(s.queue, q);
      PrefixSame(s.queue, s.queue + [q], |s.queue|);
      SameSerial(configId);
      if s.session == 0 { NothingBefore(); }
      SafeAppend(env, s.queue, q);
    }
  }

  lemma NothingBefore()
    ensures Latest([], 0) == None && !Armed([], 0)
  {
  }

  // ----- runs -----

  datatype Call =
    | SendUnit(kind: byte, configId: uint32, unitId: uint32, bytes: seq<byte>, room: bool)
    | SetSessionConfig(configId: uint32, bytes: seq<byte>, room: bool)
    | ResendSessionConfig(room: bool)

  function Called(env: Env, s: State, c: Call): State {
    match c
    case SendUnit(kind, configId, unitId, b, room) => Sent(env, s, kind, configId, unitId, b, room).1
    case SetSessionConfig(configId, b, room) => Configured(env, s, configId, b, room).1
    case ResendSessionConfig(room) =>
      if s.config == [] then s else Sent(env, s, SCU, s.session, s.session, s.config, room).1
  }

  function After(env: Env, s: State, calls: seq<Call>): State
    decreases |calls|
  {
    if calls == [] then s else After(env, Called(env, s, calls[0]), calls[1..])
  }

  /** Every SCU sent by hand carries the session's own configuration ID at that moment. */
  predicate AllGuarded(env: Env, s: State, calls: seq<Call>)
    decreases |calls|
  {
    calls != [] ==>
      && (calls[0].SendUnit? ==> Guarded(s, calls[0].kind, calls[0].configId))
      && AllGuarded(env, Called(env, s, calls[0]), calls[1..])
  }

  lemma {:induction false} GuardedRunIsSafe(env: Env, s: State, calls: seq<Call>)
    requires SafeQueue(env, s.queue) && Consistent(s) && AllGuarded(env, s, calls)
    ensures SafeQueue(env, After(env, s, calls).queue) && Consistent(After(env, s, calls))
    decreases |calls|
  {
    hide SafeQueue, Consistent, Sent, Configured;
    if calls != [] {
      match calls[0] {
        case SendUnit(kind, configId, unitId, b, room) => SentKeeps(env, s, kind, configId, unitId, b, room);
        case SetSessionConfig(configId, b, room) => ConfiguredKeeps(env, s, configId, b, room);
        case ResendSessionConfig(room) => SentKeeps(env, s, SCU, s.session, s.session, s.config, room);
      }
      GuardedRunIsSafe(env, Called(env, s, calls[0]), calls[1..]);
    }
  }

  /** From the start, through any calls, failures included: every media unit belongs to the latest SCU,
      configurations never move backwards, and each switch starts afresh. */
  lemma SessionIsSafe(env: Env, calls: seq<Call>)
    requires AllGuarded(env, START_STATE, calls)
    ensures SafeQueue(env, After(env, START_STATE, calls).queue) && Consistent(After(env, START_STATE, calls))
  {
    NothingBefore();
    assert SafeQueue(env, []) && Consistent(START_STATE);
    GuardedRunIsSafe(env, START_STATE, calls);
  }

  // ----- without the guard -----

  /** An end-of-stream unit of a configuration. */
  function EosUnit(configId: uint32): seq<byte> {
    CommonBytes(EOS, 20, 20, NO_REFERENCE, configId, 0)
  }

  lemma EosFields(configId: uint32)
    ensures var b := EosUnit(configId);
            && b[0] == 1 && b[1] == EOS && Get16(b, 2) == 20 && Get32(b, 4) == 20
            && Get32(b, 8) == NO_REFERENCE && Get32(b, 12) == configId && Get32(b, 16) == 0
  {
    hide BigEndian, Get16, Get32;
    var b := EosUnit(configId);
    var p := [1, EOS];
    var n, length, unit, config, bits := U16(20), U32(20), U32(NO_REFERENCE), U32(configId), U32(0);
    assert b == p + n + (length + unit + config + bits);
    assert b == p + n + length + (unit + config + bits);
    assert b == p + n + length + unit + (config + bits);
    assert b == p + n + length + unit + config + bits;
    assert b == p + n + length + unit + config + bits + [];
    Get16Put(p, 20, length + unit + config + bits);
    Get32Put(p + n, 20, unit + config + bits);
    Get32Put(p + n + length, NO_REFERENCE, config + bits);
    Get32Put(p + n + length + unit, configId, bits);
    Get32Put(p + n + length + unit + config, 0, []);
  }

  lemma EosIsOk(env: Env, configId: uint32)
    requires configId != 0
    ensures UnitOk(env, EOS, configId, NO_REFERENCE, EosUnit(configId))
  {
    hide CommonBytes, Get16, Get32;
    EosFields(configId);
  }

  /** Once there is a session, a queued SCU leaves the sender open to harm exactly when the guard fails: with
      it every later run of guarded calls is safe, without it the very next media unit is out of place. */
  lemma GuardIsExact(env: Env, s: State, configId: uint32, b: seq<byte>)
    requires SafeQueue(env, s.queue) && Consistent(s) && s.session != 0
    requires Sent(env, s, SCU, configId, configId, b, true).0
    ensures Guarded(s, SCU, configId) <==>
            var t := Called(env, s, SendUnit(SCU, configId, configId, b, true));
            SafeQueue(env, Called(env, t, SendUnit(EOS, s.session, NO_REFERENCE, EosUnit(s.session), true)).queue)
  {
    hide UnitOk, EosUnit, Latest, Armed, FreshStart;
    var q, eos := Queued(SCU, configId, b), Queued(EOS, s.session, EosUnit(s.session));
    var t := Called(env, s, SendUnit(SCU, configId, configId, b, true));
    EosIsOk(env, s.session);
    assert t == s.(queue := s.queue + [q]);
    if Guarded(s, SCU, configId) {
      SentKeeps(env, s, SCU, configId, configId, b, true);
      SentKeeps(env, t, EOS, s.session, NO_REFERENCE, EosUnit(s.session), true);
    } else {
      OneMore(s.queue, q);
      var queue := t.queue + [eos];
      PrefixSame(t.queue, queue, |t.queue|);
      assert Latest(queue, |t.queue|) == Some(configId);
      assert !InPlace(env, queue, |t.queue|);
    }
  }

  /** The queue after a hand-sent SCU, the configuration that follows, and one end of stream. */
  function AfterEarlyScu(env: Env, configId: uint32, b: seq<byte>, next: uint32, config: seq<byte>): State {
    After(env, START_STATE, [SendUnit(SCU, configId, configId, b, true), SetSessionConfig(next, config, true),
                             SendUnit(EOS, next, NO_REFERENCE, EosUnit(next), true)])
  }

  lemma EarlyScuRuns(env: Env, configId: uint32, b: seq<byte>, next: uint32, config: seq<byte>)
    requires Sent(env, START_STATE, SCU, configId, configId, b, true).0
    requires UnitOk(env, SCU, next, next, config)
    ensures AfterEarlyScu(env, configId, b, next, config)
         == State(next, config, 0, [Queued(SCU, configId, b), Queued(SCU, next, config), Queued(EOS, next, EosUnit(next))])
  {
    hide EosUnit, FreshStart, HeaderOk, LengthOk;
    var s1 := Called(env, START_STATE, SendUnit(SCU, configId, configId, b, true));
    assert s1 == State(0, [], 0, [Queued(SCU, configId, b)]);
    assert MayConfigure(env, s1, next, config);
    ConfigId(env, next, config);
    var s2 := Called(env, s1, SetSessionConfig(next, config, true));
    assert s2 == State(next, config, 0, [Queued(SCU, configId, b), Queued(SCU, next, config)]);
    EosIsOk(env, next);
    RunsThree(env, START_STATE, SendUnit(SCU, configId, configId, b, true), SetSessionConfig(next, config, true),
              SendUnit(EOS, next, NO_REFERENCE, EosUnit(next), true));
  }

  lemma RunsThree(env: Env, s: State, a: Call, b: Call, c: Call)
    ensures After(env, s, [a, b, c]) == Called(env, Called(env, Called(env, s, a), b), c)
  {
    hide Called;
    assert [a, b, c][1..] == [b, c] && [b, c][1..] == [c] && [c][1..] == [];
    var s1 := Called(env, s, a);
    var s2 := Called(env, s1, b);
    assert After(env, s2, [c]) == Called(env, s2, c);
    assert After(env, s1, [b, c]) == After(env, s2, [c]);
  }

  /** Before any session the guard always fails, and the code accepts every SCU.  Whatever configuration is
      set next, it is compared with nothing: the queue is in order exactly when it repeats the ID of the
      hand-sent SCU.  An older ID moves backwards, a newer one does not ask for a fresh start. */
  lemma EarlyScuIsExact(env: Env, configId: uint32, b: seq<byte>, next: uint32, config: seq<byte>)
    requires Sent(env, START_STATE, SCU, configId, configId, b, true).0
    requires UnitOk(env, SCU, next, next, config)
    ensures !Guarded(START_STATE, SCU, configId)
    ensures SafeQueue(env, AfterEarlyScu(env, configId, b, next, config).queue) <==> next == configId
    ensures next == configId ==> Consistent(AfterEarlyScu(env, configId, b, next, config))
  {
    hide UnitOk, EosUnit;
    ConfigId(env, configId, b);
    EarlyScuRuns(env, configId, b, next, config);
    var first, second, eos := Queued(SCU, configId, b), Queued(SCU, next, config), Queued(EOS, next, EosUnit(next));
    EarlyOrder([first, second, eos], configId, next);
    SameSerial(next);
    if CompareSerial(next, configId) == Newer {
      EosNotFresh(env, eos);
      assert !InPlace(env, [first, second, eos], 2);
    } else if CompareSerial(next, configId) != Same {
      assert !InPlace(env, [first, second, eos], 1);
    } else {
      SameIsEqual(next, configId);
    }
  }

  lemma EarlyOrder(queue: seq<Queued>, configId: uint32, next: uint32)
    requires |queue| == 3 && queue[0].kind == queue[1].kind == SCU && queue[2].kind == EOS
    requires queue[0].configId == configId && queue[1].configId == next
    ensures Latest(queue, 0) == None && Latest(queue, 1) == Some(configId) && Latest(queue, 2) == Latest(queue, 3) == Some(next)
    ensures Armed(queue, 2) <==> CompareSerial(next, configId) == Newer
    ensures !Armed(queue, 3)
  {
    assert !Armed(queue, 0) && !Armed(queue, 1);
  }

  lemma EosNotFresh(env: Env, q: Queued)
    requires q.kind == EOS
    ensures !FreshStart(env, q)
  {
  }

  lemma SameIsEqual(a: uint32, b: uint32)
    ensures CompareSerial(a, b) == Same ==> a == b
  {
  }

  // ----- the same bytes -----

  /** The bytes of the last SCU among the first n units. */
  function LatestBytes(queue: seq<Queued>, n: nat): seq<byte>
    requires n <= |queue|
  {
    if n == 0 then [] else if queue[n - 1].kind == SCU then queue[n - 1].bytes else LatestBytes(queue, n - 1)
  }

  /** An SCU with the ID of the latest one is the latest one again, byte for byte. */
  predicate Repeats(queue: seq<Queued>, i: nat)
    requires i < |queue|
  {
    queue[i].kind == SCU && Latest(queue, i) == Some(queue[i].configId) ==> queue[i].bytes == LatestBytes(queue, i)
  }

  ghost predicate Faithful(queue: seq<Queued>) {
    forall i :: 0 <= i < |queue| ==> Repeats(queue, i)
  }

  /** The sender remembers the bytes of the latest SCU. */
  ghost predicate Recorded(s: State) {
    s.session != 0 ==> s.config != [] && LatestBytes(s.queue, |s.queue|) == s.config
  }

  /** An SCU sent by hand is the session's own. */
  predicate Verbatim(s: State, kind: byte, configId: uint32, b: seq<byte>) {
    kind == SCU ==> configId == s.session && b == s.config
  }

  lemma {:induction false} BytesSame(a: seq<Queued>, b: seq<Queued>, n: nat)
    requires n <= |a| && a <= b
    ensures LatestBytes(a, n) == LatestBytes(b, n)
  {
    if n > 0 { BytesSame(a, b, n - 1); }
  }

  lemma RepeatsSame(queue: seq<Queued>, q: Queued, i: nat)
    requires i < |queue|
    ensures Repeats(queue + [q], i) <==> Repeats(queue, i)
  {
    hide Latest, LatestBytes;
    PrefixSame(queue, queue + [q], i);
    BytesSame(queue, queue + [q], i);
  }

  lemma RepeatsLast(queue: seq<Queued>, q: Queued)
    ensures Repeats(queue + [q], |queue|) <==>
            (q.kind == SCU && Latest(queue, |queue|) == Some(q.configId) ==> q.bytes == LatestBytes(queue, |queue|))
  {
    hide Latest, LatestBytes;
    PrefixSame(queue, queue + [q], |queue|);
    BytesSame(queue, queue + [q], |queue|);
  }

  /** One more unit keeps the SCUs faithful exactly when it repeats the latest SCU of its ID. */
  lemma FaithfulAppend(queue: seq<Queued>, q: Queued)
    requires Faithful(queue)
    ensures LatestBytes(queue + [q], |queue| + 1) == if q.kind == SCU then q.bytes else LatestBytes(queue, |queue|)
    ensures Faithful(queue + [q]) <==>
            (q.kind == SCU && Latest(queue, |queue|) == Some(q.configId) ==> q.bytes == LatestBytes(queue, |queue|))
  {
    hide Latest, LatestBytes, Repeats;
    forall i | 0 <= i < |queue| ensures Repeats(queue + [q], i) { RepeatsSame(queue, q, i); }
    RepeatsLast(queue, q);
    LastBytes(queue + [q]);
    BytesSame(queue, queue + [q], |queue|);
  }

  lemma LastBytes(queue: seq<Queued>)
    requires queue != []
    ensures LatestBytes(queue, |queue|)
         == if queue[|queue| - 1].kind == SCU then queue[|queue| - 1].bytes else LatestBytes(queue, |queue| - 1)
  {
  }

  lemma SentFaithful(env: Env, s: State, kind: byte, configId: uint32, unitId: uint32, b: seq<byte>, room: bool)
    requires Faithful(s.queue) && Recorded(s) && Consistent(s) && Verbatim(s, kind, configId, b)
    ensures var t := Sent(env, s, kind, configId, unitId, b, room).1; Faithful(t.queue) && Recorded(t)
  {
    hide Faithful, UnitOk, GateOpen, Latest, LatestBytes;
    FaithfulAppend(s.queue, Queued(kind, configId, b));
    if kind == SCU && Sent(env, s, kind, configId, unitId, b, room).0 { SentId(env, s, kind, configId, unitId, b); }
  }

  lemma SentId(env: Env, s: State, kind: byte, configId: uint32, unitId: uint32, b: seq<byte>)
    requires kind == SCU && UnitOk(env, kind, configId, unitId, b)
    ensures configId != 0 && unitId == configId && b != []
  {
    hide BodyOk;
  }

  lemma ConfiguredFaithful(env: Env, s: State, configId: uint32, b: seq<byte>, room: bool)
    requires Faithful(s.queue) && Recorded(s) && Consistent(s)
    ensures var t := Configured(env, s, configId, b, room).1; Faithful(t.queue) && Recorded(t)
  {
    hide Faithful, UnitOk, Latest, LatestBytes, Armed, HeaderOk;
    if Configured(env, s, configId, b, room).0 {
      FaithfulAppend(s.queue, Queued(SCU, configId, b));
      SentId(env, s, SCU, configId, configId, b);
      if s.session == 0 { NothingBefore(); }
    }
  }

  /** Every SCU sent by hand is the session's own at that moment. */
  predicate AllVerbatim(env: Env, s: State, calls: seq<Call>)
    decreases |calls|
  {
    calls != [] ==>
      && (calls[0].SendUnit? ==> Verbatim(s, calls[0].kind, calls[0].configId, calls[0].bytes))
      && AllVerbatim(env, Called(env, s, calls[0]), calls[1..])
  }

  lemma {:induction false} VerbatimRun(env: Env, s: State, calls: seq<Call>)
    requires SafeQueue(env, s.queue) && Consistent(s) && Faithful(s.queue) && Recorded(s) && AllVerbatim(env, s, calls)
    ensures Faithful(After(env, s, calls).queue) && Recorded(After(env, s, calls))
    decreases |calls|
  {
    hide SafeQueue, Consistent, Faithful, Recorded, Sent, Configured;
    if calls != [] {
      match calls[0] {
        case SendUnit(kind, configId, unitId, b, room) =>
          SentKeeps(env, s, kind, configId, unitId, b, room);
          SentFaithful(env, s, kind, configId, unitId, b, room);
        case SetSessionConfig(configId, b, room) =>
          ConfiguredKeeps(env, s, configId, b, room);
          ConfiguredFaithful(env, s, configId, b, room);
        case ResendSessionConfig(room) =>
          SentKeeps(env, s, SCU, s.session, s.session, s.config, room);
          SentFaithful(env, s, SCU, s.session, s.session, s.config, room);
      }
      VerbatimRun(env, Called(env, s, calls[0]), calls[1..]);
    }
  }

  /** From the start, through any calls with verbatim SCUs: until the next switch, every SCU queued is the
      same byte for byte. */
  lemma ScusAreFaithful(env: Env, calls: seq<Call>)
    requires AllVerbatim(env, START_STATE, calls)
    ensures Faithful(After(env, START_STATE, calls).queue)
  {
    hide Faithful;
    NothingBefore();
    assert SafeQueue(env, []) && Consistent(START_STATE);
    assert Faithful([]) && Recorded(START_STATE) by { NoScus(); }
    VerbatimRun(env, START_STATE, calls);
  }

  lemma NoScus()
    ensures Faithful([])
  {
  }

  /** SendUnit takes an SCU of the session's ID with other bytes, which SetSessionConfig refuses by name: the
      queue stays faithful exactly when the bytes are the session's. */
  lemma VerbatimIsExact(env: Env, s: State, b: seq<byte>)
    requires Consistent(s) && Faithful(s.queue) && Recorded(s) && s.session != 0
    requires Sent(env, s, SCU, s.session, s.session, b, true).0
    ensures Faithful(Sent(env, s, SCU, s.session, s.session, b, true).1.queue) <==> b == s.config
  {
    hide Faithful, UnitOk, GateOpen, LatestBytes;
    FaithfulAppend(s.queue, Queued(SCU, s.session, b));
  }
}
