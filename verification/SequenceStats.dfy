/** Receive statistics: extending 16-bit sequence numbers over wraps, and the loss figures of a report block
    (appendices A.1 and A.3 of RFC 3550). */
module SequenceStats {
  import opened Bytes

  const CYCLE: nat := 0x1_0000
  const HALF: nat := 0x8000

  /** Of the numbers that are sequence modulo 2^16, the one nearest to the largest so far. */
  function Nearest(largest: int, sequence: uint16): (t: int)
    ensures t % CYCLE == sequence && largest - HALF <= t < largest + HALF
  {
    var delta := (sequence - largest) % CYCLE;
    if delta < HALF then largest + delta else largest + delta - CYCLE
  }

  function Max(a: int, b: int): int {
    if a < b then b else a
  }

  function Clamp24(v: int): int {
    if v < -0x80_0000 then -0x80_0000 else if v > 0x7F_FFFF then 0x7F_FFFF else v
  }

  /** largest is the extended number of the maximum sequence; highest is what reports are made from. */
  datatype Stats = Empty | Stats(first: uint16, largest: nat, highest: nat, received: nat)

  /** What one packet does, in extended numbers.  A packet from before sequence zero of the first cycle is
      counted one cycle too high. */
  function Updated(s: Stats, sequence: uint16): Stats {
    if s.Empty? then Stats(sequence, sequence, sequence, 1)
    else
      var t := Nearest(s.largest, sequence);
      if t > s.largest then Stats(s.first, t, t, s.received + 1)
      else s.(highest := Max(s.highest, if t < 0 then t + CYCLE else t), received := s.received + 1)
  }

  class ReceiveStats {
    var haveSequence: bool
    var maxSequence: uint16
    var baseSequence: uint16
    var cycles: nat
    var highest: nat
    var receivedUnique: nat
    var priorExpected: nat
    var priorReceived: nat

    predicate Valid()
      reads this
    {
      && cycles % CYCLE == 0
      && (haveSequence ==> baseSequence <= cycles + maxSequence <= highest)
      && (!haveSequence ==> cycles == 0 && receivedUnique == 0)
      && priorReceived <= receivedUnique
    }

    function Value(): Stats
      reads this
    {
      if haveSequence then Stats(baseSequence, cycles + maxSequence, highest, receivedUnique) else Empty
    }

    constructor ()
      ensures Valid() && Value() == Empty && priorExpected == 0 && priorReceived == 0
    {
      haveSequence, maxSequence, baseSequence := false, 0, 0;
      cycles, highest, receivedUnique, priorExpected, priorReceived := 0, 0, 0, 0, 0;
    }

    /** The sequence part of UpdateRtcpReceiveStats. */
    method Update(sequence: uint16)
      requires Valid()
      modifies this
      ensures Valid() && Value() == Updated(old(Value()), sequence)
      ensures priorExpected == old(priorExpected) && priorReceived == old(priorReceived)
    {
      hide Nearest;
      var extended: nat := sequence;
      if !haveSequence {
        haveSequence := true;
        maxSequence, baseSequence, highest := sequence, sequence, sequence;
      } else {
        var delta := (sequence - maxSequence) % CYCLE;
        UpdateCases(cycles, maxSequence, sequence);
        if delta != 0 && delta < HALF {
          if sequence < maxSequence { cycles := cycles + CYCLE; }
          maxSequence := sequence;
          extended := cycles + sequence;
          highest := extended;
        } else if delta >= HALF && sequence > maxSequence && cycles >= CYCLE {
          extended := cycles - CYCLE + sequence;
        } else {
          extended := cycles + sequence;
        }
      }
      receivedUnique := receivedUnique + 1;
      if extended > highest { highest := extended; }
    }

    /** The loss figures of SnapshotReportBlock. */
    method SnapshotReportBlock() returns (fractionLost: nat, cumulativeLost: int, highestSequence: nat)
      requires Valid()
      modifies this`priorExpected, this`priorReceived
      ensures Valid() && priorExpected == Expected(Value()) && priorReceived == receivedUnique
      ensures cumulativeLost == Clamp24(Expected(Value()) - receivedUnique)
      ensures fractionLost == Fraction(Expected(Value()) - old(priorExpected), receivedUnique - old(priorReceived))
      ensures highestSequence == highest % 0x1_0000_0000
    {
      hide Share;
      var expected := if haveSequence then highest - baseSequence + 1 else 0;
      var intervalExpected, intervalReceived := expected - priorExpected, receivedUnique - priorReceived;
      var intervalLost := intervalExpected - intervalReceived;
      fractionLost := 0;
      if intervalExpected != 0 && intervalLost > 0 {
        fractionLost := Share(intervalLost, intervalExpected);
      }
      priorExpected := expected;
      priorReceived := receivedUnique;
      cumulativeLost := Clamp24(expected - receivedUnique);
      highestSequence := highest % 0x1_0000_0000;
    }
  }

  /** Packets from the first to the highest. */
  function Expected(s: Stats): nat {
    if s.Empty? || s.highest + 1 < s.first then 0 else s.highest - s.first + 1
  }

  /** The share lost since the last report, in 256ths; negative losses count as none. */
  function Fraction(expected: int, received: int): nat {
    if expected <= 0 || expected - received <= 0 then 0 else Share(expected - received, expected)
  }

  function Share(lost: nat, expected: nat): (share: nat)
    requires 0 < expected
    ensures share <= 255
  {
    if lost * 256 / expected > 255 then 255 else lost * 256 / expected
  }

  /** The branches of the update, in extended numbers. */
  lemma UpdateCases(cycles: nat, max: uint16, sequence: uint16)
    requires cycles % CYCLE == 0
    ensures var delta, t := (sequence - max) % CYCLE, Nearest(cycles + max, sequence);
            if 0 < delta < HALF then t == (if sequence < max then cycles + CYCLE else cycles) + sequence && t > cycles + max
            else t <= cycles + max && t == (if delta >= HALF && sequence > max then cycles - CYCLE else cycles) + sequence
  {
    assert (sequence - (cycles + max)) % CYCLE == (sequence - max) % CYCLE;
  }

  // ----- runs -----

  /** Every packet is less than half a cycle from the largest before it. */
  ghost predicate Near(ts: seq<int>) {
    forall i :: 0 < i < |ts| ==> Largest(ts[..i]) - HALF < ts[i] < Largest(ts[..i]) + HALF
  }

  function Largest(ts: seq<int>): int
    requires ts != []
  {
    if |ts| == 1 then ts[0] else Max(Largest(ts[..|ts| - 1]), ts[|ts| - 1])
  }

  /** The statistics after packets with these true numbers. */
  function After(ts: seq<int>): Stats {
    if ts == [] then Empty else Updated(After(ts[..|ts| - 1]), ts[|ts| - 1] % CYCLE)
  }

  /** A packet from before sequence zero came since the largest number last grew. */
  predicate Misled(ts: seq<int>)
    requires ts != []
  {
    |ts| > 1 && ts[|ts| - 1] <= Largest(ts[..|ts| - 1]) && (ts[|ts| - 1] < 0 || Misled(ts[..|ts| - 1]))
  }

  lemma NearestIs(largest: int, t: int)
    requires largest - HALF < t < largest + HALF
    ensures Nearest(largest, t % CYCLE) == t
  {
    assert (t % CYCLE - largest) % CYCLE == (t - largest) % CYCLE;
  }

  /** The largest number is always right; the highest one is exactly when the run was not misled, and
      otherwise too high. */
  lemma {:induction false} Unwraps(ts: seq<int>)
    requires ts != [] && 0 <= ts[0] < CYCLE && Near(ts)
    ensures After(ts).Stats? && After(ts).first == ts[0] && After(ts).received == |ts|
    ensures After(ts).largest == Largest(ts) >= ts[0]
    ensures After(ts).highest == Largest(ts) <==> !Misled(ts)
    ensures After(ts).highest >= Largest(ts)
  {
    hide Nearest;
    var n := |ts| - 1;
    if n == 0 {
      assert ts[..0] == [];
    } else {
      var before := ts[..n];
      forall i | 0 < i < n ensures Largest(before[..i]) - HALF < before[i] < Largest(before[..i]) + HALF {
        assert before[..i] == ts[..i];
      }
      Unwraps(before);
      NearestIs(Largest(before), ts[n]);
    }
  }

  lemma {:induction false} NotMisled(ts: seq<int>)
    requires ts != [] && forall i :: 0 <= i < |ts| ==> 0 <= ts[i]
    ensures !Misled(ts)
  {
    if |ts| > 1 {
      assert forall i :: 0 <= i < |ts| - 1 ==> ts[..|ts| - 1][i] == ts[i];
      NotMisled(ts[..|ts| - 1]);
    }
  }

  /** If no packet precedes the first, the reported highest number is the true one over any number of
      wraps, and the cumulative loss is what was truly expected less what was received, in 24 bits. */
  lemma ReportsAreTrue(ts: seq<int>)
    requires ts != [] && 0 <= ts[0] < CYCLE && Near(ts)
    requires forall i :: 0 <= i < |ts| ==> ts[0] <= ts[i]
    ensures After(ts).highest == Largest(ts)
    ensures var lost, reported := Largest(ts) - ts[0] + 1 - |ts|, Clamp24(Expected(After(ts)) - After(ts).received);
            && (-8388608 <= lost <= 8388607 ==> reported == lost)
            && (lost < -8388608 ==> reported == -8388608) && (8388607 < lost ==> reported == 8388607)
  {
    hide Near, Misled, Updated, Largest;
    Unwraps(ts);
    NotMisled(ts);
  }

  // ----- what the loss figures mean -----

  /** No number is received twice; copies are dropped before they are counted. */
  ghost predicate Distinct(ts: seq<int>) {
    forall i, j :: 0 <= i < j < |ts| ==> ts[i] != ts[j]
  }

  function Range(low: int, high: int): (numbers: set<int>)
    ensures forall k :: k in numbers <==> low < k <= high
    decreases high - low
  {
    if high <= low then {} else Range(low, high - 1) + {high}
  }

  /** What came after the first n packets: numbers above the largest of those, and late ones. */
  ghost function Fresh(ts: seq<int>, n: nat): set<int>
    requires 0 < n <= |ts|
  {
    set i | n <= i < |ts| && ts[i] > Largest(ts[..n]) :: ts[i]
  }

  ghost function Late(ts: seq<int>, n: nat): set<int>
    requires 0 < n <= |ts|
  {
    set i | n <= i < |ts| && ts[i] <= Largest(ts[..n]) :: ts[i]
  }

  /** Numbers above the largest of the first n packets, up to the largest now, that have not come. */
  ghost function Missing(ts: seq<int>, n: nat): set<int>
    requires 0 < n <= |ts|
  {
    Range(Largest(ts[..n]), Largest(ts)) - Fresh(ts, n)
  }

  lemma {:induction false} RangeSize(low: int, high: int)
    requires low <= high
    ensures |Range(low, high)| == high - low
    decreases high - low
  {
    if low < high { RangeSize(low, high - 1); }
  }

  ghost function Arrived(ts: seq<int>, n: nat): set<int> {
    set i | n <= i < |ts| :: ts[i]
  }

  lemma ArrivedNext(ts: seq<int>, n: nat)
    requires n < |ts| && Distinct(ts)
    ensures Arrived(ts, n) == Arrived(ts, n + 1) + {ts[n]} && ts[n] !in Arrived(ts, n + 1)
  {
  }

  lemma {:induction false} ArrivedSize(ts: seq<int>, n: nat)
    requires n <= |ts| && Distinct(ts)
    ensures |Arrived(ts, n)| == |ts| - n
    decreases |ts| - n
  {
    hide Distinct;
    if n == |ts| {
      assert Arrived(ts, n) == {};
    } else {
      ArrivedNext(ts, n);
      ArrivedSize(ts, n + 1);
    }
  }

  lemma {:induction false} AtMostLargest(ts: seq<int>, i: nat)
    requires i < |ts|
    ensures ts[i] <= Largest(ts)
    decreases |ts|
  {
    if i < |ts| - 1 { AtMostLargest(ts[..|ts| - 1], i); }
  }

  lemma {:induction false} LargestGrows(ts: seq<int>, n: nat)
    requires 0 < n <= |ts|
    ensures Largest(ts[..n]) <= Largest(ts)
    decreases |ts|
  {
    if n == |ts| {
      assert ts[..n] == ts;
    } else {
      LargestGrows(ts[..|ts| - 1], n);
      assert ts[..|ts| - 1][..n] == ts[..n];
    }
  }

  /** The growth of the largest number less the packets received is the missing numbers less the late ones. */
  lemma LossIsMissing(ts: seq<int>, n: nat)
    requires 0 < n <= |ts| && Distinct(ts)
    ensures Largest(ts) - Largest(ts[..n]) - (|ts| - n) == |Missing(ts, n)| - |Late(ts, n)|
    ensures |Missing(ts, n)| <= Largest(ts) - Largest(ts[..n])
  {
    hide Largest, Distinct;
    var low, high := Largest(ts[..n]), Largest(ts);
    LargestGrows(ts, n);
    RangeSize(low, high);
    ArrivedSize(ts, n);
    assert Fresh(ts, n) <= Range(low, high) by {
      forall i | n <= i < |ts| ensures ts[i] <= high { AtMostLargest(ts, i); }
    }
    assert Arrived(ts, n) == Fresh(ts, n) + Late(ts, n) && Fresh(ts, n) !! Late(ts, n);
  }

  lemma NearPrefix(ts: seq<int>, n: nat)
    requires Near(ts) && n <= |ts|
    ensures Near(ts[..n])
  {
    hide Largest;
    forall i | 0 < i < n ensures Largest(ts[..n][..i]) - HALF < ts[..n][i] < Largest(ts[..n][..i]) + HALF {
      assert ts[..n][..i] == ts[..i];
    }
  }

  /** The fraction in a report, when the last report was made after n packets: the numbers that went missing
      since, less those that came late, as a share of how far the numbers have grown, in 256ths rounded down. */
  lemma FractionIsTrue(ts: seq<int>, n: nat)
    requires 0 < n <= |ts| && 0 <= ts[0] < CYCLE && Near(ts) && Distinct(ts)
    requires forall i :: 0 <= i < |ts| ==> ts[0] <= ts[i]
    ensures var grown, lost := Largest(ts) - Largest(ts[..n]), |Missing(ts, n)| - |Late(ts, n)|;
            var now, before := After(ts), After(ts[..n]);
            var fraction := Fraction(Expected(now) - Expected(before), now.received - before.received);
            if lost <= 0 then fraction == 0
            else fraction <= 255 && fraction * grown <= lost * 256 && (fraction < 255 ==> lost * 256 < (fraction + 1) * grown)
  {
    hide Near, Misled, Updated, Largest, Missing, Late, Distinct, Share;
    var grown, lost := Largest(ts) - Largest(ts[..n]), |Missing(ts, n)| - |Late(ts, n)|;
    NearPrefix(ts, n);
    Unwraps(ts);
    Unwraps(ts[..n]);
    NotMisled(ts);
    NotMisled(ts[..n]);
    LossIsMissing(ts, n);
    if lost > 0 { ShareMeans(lost, grown); }
  }

  lemma ShareMeans(lost: nat, expected: nat)
    requires 0 < lost && 0 < expected
    ensures var share := Share(lost, expected);
            share * expected <= lost * 256 && (share < 255 ==> lost * 256 < (share + 1) * expected)
  {
    var q := lost * 256 / expected;
    assert q * expected <= lost * 256 < (q + 1) * expected by { QuotientBounds(lost * 256, expected); }
    if q > 255 { LessTimes(255, q, expected); }
  }

  lemma QuotientBounds(a: nat, b: nat)
    requires 0 < b
    ensures a / b * b <= a < (a / b + 1) * b
  {
  }

  lemma LessTimes(a: nat, b: nat, c: nat)
    requires a <= b
    ensures a * c <= b * c
  {
  }

  /** The cumulative figure: the numbers after the first one, up to the largest, that have not come. */
  lemma CumulativeIsMissing(ts: seq<int>)
    requires ts != [] && 0 <= ts[0] < CYCLE && Near(ts) && Distinct(ts)
    requires forall i :: 0 <= i < |ts| ==> ts[0] <= ts[i]
    ensures Expected(After(ts)) - After(ts).received == |Missing(ts, 1)|
  {
    hide Near, Misled, Updated, Missing;
    Unwraps(ts);
    NotMisled(ts);
    LossIsMissing(ts, 1);
    assert Late(ts, 1) == {};
  }

  /** One early packet from before the wrap: numbers 5, then -6. */
  lemma EarlyPacketMisleads()
    ensures Near([5, -6]) && Largest([5, -6]) == 5 && After([5, -6]).highest == 65530
  {
    var ts := [5, -6];
    assert ts[..1] == [5] && [5][..0] == [];
    assert Largest([5]) == 5 && Largest(ts) == 5;
    assert After([5]) == Stats(5, 5, 5, 1);
    assert Nearest(5, 65530) == -6;
  }
}
