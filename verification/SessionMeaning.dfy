/** What the sender's session promises, in plain arithmetic on the queue: no order of serial numbers and no
    bookkeeping of the sender is named. */
module SessionMeaning {
  import opened Options
  import opened Bytes
  import opened RtpFragment
  import opened MediaUnit
  import opened Session

  /** Unit i is an SCU and no other lies between it and place j. */
  predicate LastBefore(queue: seq<Queued>, i: nat, j: nat) {
    i < j <= |queue| && queue[i].kind == SCU && forall k :: i < k < j ==> queue[k].kind != SCU
  }

  lemma {:induction false} LatestIs(queue: seq<Queued>, i: nat, j: nat)
    requires LastBefore(queue, i, j)
    ensures Latest(queue, j) == Some(queue[i].configId)
    decreases j
  {
    if i + 1 < j { LatestIs(queue, i, j - 1); }
  }

  /** Configuration IDs move forward by less than half the circle from one SCU to the next. */
  lemma ScusMoveForward(env: Env, calls: seq<Call>, i: nat, j: nat)
    requires AllGuarded(env, START_STATE, calls)
    requires var queue := After(env, START_STATE, calls).queue; LastBefore(queue, i, j) && j < |queue| && queue[j].kind == SCU
    ensures var queue := After(env, START_STATE, calls).queue;
            (queue[j].configId - queue[i].configId) % 0x1_0000_0000 < 0x8000_0000
  {
    var queue := After(env, START_STATE, calls).queue;
    SessionIsSafe(env, calls);
    LatestIs(queue, i, j);
    assert InPlace(env, queue, j);
  }

  /** A media unit carries the configuration ID of the SCU before it, and there is one. */
  lemma UnitsFollowTheirScu(env: Env, calls: seq<Call>, j: nat) returns (i: nat)
    requires AllGuarded(env, START_STATE, calls)
    requires var queue := After(env, START_STATE, calls).queue; j < |queue| && queue[j].kind != SCU
    ensures var queue := After(env, START_STATE, calls).queue;
            LastBefore(queue, i, j) && queue[j].configId == queue[i].configId
  {
    var queue := After(env, START_STATE, calls).queue;
    SessionIsSafe(env, calls);
    assert InPlace(env, queue, j);
    i := LastScu(queue, j);
    LatestIs(queue, i, j);
  }

  lemma {:induction false} LastScu(queue: seq<Queued>, j: nat) returns (i: nat)
    requires j <= |queue| && Latest(queue, j).Some?
    ensures LastBefore(queue, i, j)
    decreases j
  {
    if queue[j - 1].kind == SCU { i := j - 1; } else { i := LastScu(queue, j - 1); }
  }

  lemma {:induction false} ArmedThrough(queue: seq<Queued>, i: nat, j: nat)
    requires i < j <= |queue| && Switches(queue, i, queue[i]) && forall k :: i <= k < j ==> queue[k].kind == SCU
    ensures Armed(queue, j)
    decreases j
  {
    if i + 1 < j { ArmedThrough(queue, i, j - 1); }
  }

  /** After an SCU with another ID than the one before it, the first media unit is an intra EFU with the
      random-access and reset flags. */
  lemma SwitchesStartAfresh(env: Env, calls: seq<Call>, p: nat, i: nat, j: nat)
    requires AllGuarded(env, START_STATE, calls)
    requires var queue := After(env, START_STATE, calls).queue;
             && LastBefore(queue, p, i) && i < j < |queue| && queue[j].kind != SCU
             && (forall k :: i <= k < j ==> queue[k].kind == SCU) && queue[i].configId != queue[p].configId
    ensures var unit := After(env, START_STATE, calls).queue[j];
            && unit.kind == EFU && ParsedEfu(env.crc, unit.bytes).Accepted?
            && var e := ParsedEfu(env.crc, unit.bytes).efu;
               e.configId == unit.configId && e.frameType == 0 && e.flags % 4 == 3
  {
    hide ParsedEfu, After, AllGuarded, Consistent, SafeQueue, LastBefore, Has;
    SessionIsSafe(env, calls);
    SafeSwitch(env, After(env, START_STATE, calls).queue, p, i, j);
    BothFlags(ParsedEfu(env.crc, After(env, START_STATE, calls).queue[j].bytes).efu.flags);
  }

  lemma BothFlags(flags: uint32)
    ensures Has(flags, RANDOM_ACCESS) && Has(flags, RESET_REFERENCE) ==> flags % 4 == 3
  {
  }

  lemma SafeSwitch(env: Env, queue: seq<Queued>, p: nat, i: nat, j: nat)
    requires SafeQueue(env, queue) && LastBefore(queue, p, i) && i < j < |queue| && queue[j].kind != SCU
    requires (forall k :: i <= k < j ==> queue[k].kind == SCU) && queue[i].configId != queue[p].configId
    ensures FreshStart(env, queue[j])
  {
    hide FreshStart, Latest, Armed;
    assert InPlace(env, queue, i) && InPlace(env, queue, j);
    LatestIs(queue, p, i);
    SameIsEqual(queue[i].configId, queue[p].configId);
    ArmedThrough(queue, i, j);
  }

  /** SetSessionConfig accepts an SCU exactly when it is well formed and fits the queue, and it is the first,
      or repeats the session's, or moves the ID forward by less than half the circle with no switch open. */
  lemma ConfiguredExactly(env: Env, s: State, configId: uint32, b: seq<byte>, room: bool)
    requires Consistent(s)
    ensures var forward := (configId - s.session) % 0x1_0000_0000;
            Configured(env, s, configId, b, room).0 <==>
              && UnitOk(env, SCU, configId, configId, b) && room
              && (|| s.session == 0
                  || (configId == s.session && (s.config == [] || b == s.config))
                  || (0 < forward < 0x8000_0000 && s.pending == 0))
  {
    hide HeaderOk, LengthOk, IdentityOk, Latest, Armed;
    if UnitOk(env, SCU, configId, configId, b) { ConfigId(env, configId, b); }
    if configId == s.session { SameSerial(configId); } else { NotSame(configId, s.session); }
  }

  lemma NotSame(a: uint32, b: uint32)
    requires a != b
    ensures (a - b) % 0x1_0000_0000 != 0
  {
  }

  /** And then a random-access EFU is awaited exactly when the ID moved. */
  lemma ConfiguredWaits(env: Env, s: State, configId: uint32, b: seq<byte>)
    requires Consistent(s) && Configured(env, s, configId, b, true).0
    ensures var t := Configured(env, s, configId, b, true).1;
            && t.session == configId && t.config == b && t.queue == s.queue + [Queued(SCU, configId, b)]
            && t.pending == if s.session != 0 && configId != s.session then configId else s.pending
  {
    hide UnitOk, HeaderOk, LengthOk, IdentityOk, Latest, Armed;
    if configId == s.session { SameSerial(configId); } else { NotSame(configId, s.session); }
  }

  /** Serial numbers lie on a circle: one is newer than another exactly when the other is older than it, and
      two are neither exactly when they are equal or opposite. */
  lemma SerialCircle(a: uint32, b: uint32)
    ensures CompareSerial(a, b) == Same <==> a == b
    ensures CompareSerial(a, b) == Newer <==> 0 < (a - b) % 0x1_0000_0000 < 0x8000_0000
    ensures CompareSerial(a, b) == Newer <==> CompareSerial(b, a) == Older
    ensures CompareSerial(a, b) == Ambiguous <==> a - b == 0x8000_0000 || b - a == 0x8000_0000
  {
  }

  // ----- references of an EFU -----

  /** The reference lies less than half the circle behind the frame. */
  predicate Earlier(reference: uint32, frameId: uint32) {
    0 < (frameId - reference) % 0x1_0000_0000 < 0x8000_0000
  }

  /** An intra frame is a random access with a reset and refers to nothing; an inter frame refers to one earlier
      frame, or to none after a reset; the third type refers to one earlier long-term frame. */
  predicate RefersBack(e: Efu) {
    var random, reset := e.flags % 2 == 1, e.flags / 2 % 2 == 1;
    match e.frameType
    case 0 => random && reset && e.shortRef == e.longRef == 0xFFFF_FFFF
    case 1 =>
      && !random && e.longRef == 0xFFFF_FFFF
      && if reset then e.shortRef == 0xFFFF_FFFF else e.shortRef != 0xFFFF_FFFF && Earlier(e.shortRef, e.frameId)
    case _ =>
      !random && e.shortRef == 0xFFFF_FFFF && e.longRef != 0xFFFF_FFFF && Earlier(e.longRef, e.frameId)
  }

  /** Only an inter frame without a reset can be warped, and only then does it say by how much; an intra frame
      may carry the flag. */
  predicate WarpsBack(e: Efu) {
    var reset, warp := e.flags / 2 % 2 == 1, e.flags / 64 % 2 == 1;
    && (warp ==> e.frameType == 0 || (e.frameType == 1 && !reset))
    && (!(warp && e.frameType == 1) ==> e.kx == e.ky == 0)
  }

  /** The two validators mean this. */
  lemma ValidatedMeans(e: Efu, warp: bool)
    requires e.frameType <= 2
    ensures ReferencesOk(e) <==> RefersBack(e)
    ensures WarpOk(e, warp) <==> (e.flags / 64 % 2 == 1) == warp && WarpsBack(e)
  {
  }

  /** So does every EFU that is parsed, and every one that is serialized. */
  lemma AcceptedMeans(crc: Crc, b: seq<byte>)
    requires ParsedEfu(crc, b).Accepted?
    ensures RefersBack(ParsedEfu(crc, b).efu) && WarpsBack(ParsedEfu(crc, b).efu)
  {
    hide ReferencesOk, WarpOk;
    var e := ParsedEfu(crc, b).efu;
    assert e.frameType == b[20];
    ValidatedMeans(e, Has(e.flags, TRANSLATION_WARP_FLAG));
  }
}
