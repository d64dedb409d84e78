/** Generic NACKs: grouping lost sequence numbers into PID and bitmask, and taking them apart again. */
module Nack {
  import opened Bytes
  import opened Bits

  datatype RtcpNack = RtcpNack(senderSsrc: uint32, mediaSsrc: uint32, pid: uint16, blp: uint16)

  function Distance(sequence: uint16, pid: uint16): uint16 {
    (sequence - pid) % 0x1_0000
  }

  function Plus(pid: uint16, n: nat): uint16 {
    (pid + n) % 0x1_0000
  }

  // ----- taking apart -----

  /** The sequence numbers that bits below n ask for. */
  function BitsAsked(nack: RtcpNack, n: nat): seq<uint16> {
    if n == 0 then [] else BitsAsked(nack, n - 1) + BitAsked(nack, n)
  }

  function BitAsked(nack: RtcpNack, n: nat): seq<uint16>
    requires 0 < n
  {
    if BitSet(nack.blp, n - 1) then [Plus(nack.pid, n)] else []
  }

  function Asked(nack: RtcpNack): seq<uint16> {
    [nack.pid] + BitsAsked(nack, 16)
  }

  function AllAsked(nacks: seq<RtcpNack>): seq<uint16> {
    if nacks == [] then [] else AllAsked(nacks[..|nacks| - 1]) + Asked(nacks[|nacks| - 1])
  }

  method ExpandNack(nack: RtcpNack) returns (asked: seq<uint16>)
    ensures asked == Asked(nack)
  {
    hide BitSet, Plus;
    asked := [nack.pid];
    for bit := 0 to 16
      invariant asked == [nack.pid] + BitsAsked(nack, bit)
    {
      if BitSet(nack.blp, bit) { asked := asked + [Plus(nack.pid, bit + 1)]; }
    }
  }

  /** The part of HandleRtcpPacket that expands the NACKs for this pair of sources. */
  method RequestedSequences(nacks: seq<RtcpNack>, receiverSsrc: uint32, ssrc: uint32) returns (requested: seq<uint16>)
    ensures requested == AllAsked(Meant(nacks, receiverSsrc, ssrc))
  {
    hide Asked, AllAsked;
    requested := [];
    NothingMeant();
    for i := 0 to |nacks|
      invariant requested == AllAsked(Meant(nacks[..i], receiverSsrc, ssrc))
    {
      assert nacks[..i + 1][..i] == nacks[..i];
      var nack := nacks[i];
      if nack.senderSsrc == receiverSsrc && nack.mediaSsrc == ssrc {
        var asked := ExpandNack(nack);
        requested := requested + asked;
        MeantGrows(nacks[..i], nack, receiverSsrc, ssrc);
      }
    }
    assert nacks[..|nacks|] == nacks;
  }

  function Meant(nacks: seq<RtcpNack>, receiverSsrc: uint32, ssrc: uint32): seq<RtcpNack> {
    if nacks == [] then []
    else
      var last, rest := nacks[|nacks| - 1], Meant(nacks[..|nacks| - 1], receiverSsrc, ssrc);
      if last.senderSsrc == receiverSsrc && last.mediaSsrc == ssrc then rest + [last] else rest
  }

  lemma NothingMeant()
    ensures AllAsked([]) == []
  {
  }

  lemma MeantGrows(nacks: seq<RtcpNack>, nack: RtcpNack, receiverSsrc: uint32, ssrc: uint32)
    ensures var kept := Meant(nacks, receiverSsrc, ssrc); AllAsked(kept + [nack]) == AllAsked(kept) + Asked(nack)
  {
    var kept := Meant(nacks, receiverSsrc, ssrc);
    assert (kept + [nack])[..|kept|] == kept;
  }

  // ----- grouping -----

  predicate Reaches(nack: RtcpNack, sequence: uint16) {
    1 <= Distance(sequence, nack.pid) <= 16
  }

  function WithBit(nack: RtcpNack, sequence: uint16): RtcpNack
    requires Reaches(nack, sequence)
  {
    var blp := SetBit(nack.blp, Distance(sequence, nack.pid) - 1);
    Pow2Sixteen();
    SetBitBound(nack.blp, Distance(sequence, nack.pid) - 1, 16);
    nack.(blp := blp)
  }

  lemma {:induction false} BitsAskedUntil(nack: RtcpNack, more: RtcpNack, d: nat, n: nat)
    requires 1 <= d && more.pid == nack.pid && more.blp == SetBit(nack.blp, d - 1) && !BitSet(nack.blp, d - 1)
    ensures multiset(BitsAsked(more, n))
         == multiset(BitsAsked(nack, n)) + if d <= n then multiset{Plus(nack.pid, d)} else multiset{}
  {
    hide SetBit, BitSet, Plus, BitAsked;
    if n > 0 {
      BitsAskedUntil(nack, more, d, n - 1);
      OneBitAsked(nack, more, d, n);
      ghost var was, now := BitsAsked(nack, n - 1), BitsAsked(more, n - 1);
      assert multiset(BitsAsked(more, n)) == multiset(now) + multiset(BitAsked(more, n));
      assert multiset(BitsAsked(nack, n)) == multiset(was) + multiset(BitAsked(nack, n));
    }
  }

  lemma OneBitAsked(nack: RtcpNack, more: RtcpNack, d: nat, n: nat)
    requires 1 <= d && more.pid == nack.pid && more.blp == SetBit(nack.blp, d - 1) && !BitSet(nack.blp, d - 1) && 0 < n
    ensures if d == n then BitAsked(nack, n) == [] && BitAsked(more, n) == [Plus(nack.pid, d)]
            else BitAsked(more, n) == BitAsked(nack, n)
  {
    hide SetBit, BitSet, Plus;
    SetBitSets(nack.blp, d - 1, n - 1);
  }

  lemma {:induction false} SetBitIsAsked(nack: RtcpNack, d: nat, n: nat)
    requires 1 <= d <= n && BitSet(nack.blp, d - 1)
    ensures Plus(nack.pid, d) in BitsAsked(nack, n)
  {
    if d < n { SetBitIsAsked(nack, d, n - 1); }
  }

  /** One more bit asks for exactly one more sequence number, if it was not asked for. */
  lemma WithBitAsks(nack: RtcpNack, sequence: uint16)
    requires Reaches(nack, sequence) && sequence !in Asked(nack)
    ensures multiset(Asked(WithBit(nack, sequence))) == multiset(Asked(nack)) + multiset{sequence}
  {
    var d := Distance(sequence, nack.pid);
    assert Plus(nack.pid, d) == sequence;
    if BitSet(nack.blp, d - 1) { SetBitIsAsked(nack, d, 16); }
    BitsAskedUntil(nack, WithBit(nack, sequence), d, 16);
  }

  lemma AskedLast(nacks: seq<RtcpNack>)
    requires nacks != []
    ensures multiset(AllAsked(nacks)) == multiset(AllAsked(nacks[..|nacks| - 1])) + multiset(Asked(nacks[|nacks| - 1]))
  {
    hide Asked;
  }

  lemma {:induction false} AllAskedUpdate(nacks: seq<RtcpNack>, k: nat, more: RtcpNack, sequence: uint16)
    requires k < |nacks| && multiset(Asked(more)) == multiset(Asked(nacks[k])) + multiset{sequence}
    ensures multiset(AllAsked(nacks[k := more])) == multiset(AllAsked(nacks)) + multiset{sequence}
    decreases |nacks|
  {
    hide Asked, AllAsked;
    var last, now := |nacks| - 1, nacks[k := more];
    AskedLast(nacks);
    AskedLast(now);
    if k == last {
      assert now[..last] == nacks[..last];
    } else {
      AllAskedUpdate(nacks[..last], k, more, sequence);
      assert now[..last] == nacks[..last][k := more];
    }
  }

  lemma {:induction false} AllAskedContains(nacks: seq<RtcpNack>, k: nat, sequence: uint16)
    requires k < |nacks| && sequence in Asked(nacks[k])
    ensures sequence in AllAsked(nacks)
    decreases |nacks|
  {
    if k < |nacks| - 1 { AllAskedContains(nacks[..|nacks| - 1], k, sequence); }
  }

  predicate Distinct(due: seq<uint16>) {
    forall i, j :: 0 <= i < j < |due| ==> due[i] != due[j]
  }

  lemma Fresh(nacks: seq<RtcpNack>, due: seq<uint16>, i: nat, k: nat)
    requires Distinct(due) && i < |due| && k < |nacks| && multiset(AllAsked(nacks)) == multiset(due[..i])
    ensures due[i] !in Asked(nacks[k])
  {
    assert due[i] !in due[..i];
    assert due[i] !in multiset(AllAsked(nacks));
    if due[i] in Asked(nacks[k]) { AllAskedContains(nacks, k, due[i]); }
  }

  lemma NewMessage(nacks: seq<RtcpNack>, nack: RtcpNack)
    requires nack.blp == 0
    ensures multiset(AllAsked(nacks + [nack])) == multiset(AllAsked(nacks)) + multiset{nack.pid}
  {
    assert (nacks + [nack])[..|nacks|] == nacks;
    NothingAsked(nack, 16);
  }

  lemma {:induction false} NothingAsked(nack: RtcpNack, n: nat)
    requires nack.blp == 0
    ensures BitsAsked(nack, n) == []
  {
    if n > 0 {
      NothingAsked(nack, n - 1);
      ZeroBits(n - 1);
    }
  }

  ghost predicate AllFrom(messages: seq<RtcpNack>, senderSsrc: uint32, mediaSsrc: uint32) {
    forall m :: m in messages ==> m.senderSsrc == senderSsrc && m.mediaSsrc == mediaSsrc
  }

  /** No message starts where an earlier one could still have asked: 1 to 16 after its first number. */
  predicate Spread(messages: seq<RtcpNack>) {
    forall j, k :: 0 <= j < k < |messages| ==> TooFar(messages[j].pid, messages[k].pid)
  }

  predicate TooFar(pid: uint16, sequence: uint16) {
    (sequence - pid) % 0x1_0000 == 0 || (sequence - pid) % 0x1_0000 > 16
  }

  lemma SpreadMore(messages: seq<RtcpNack>, nack: RtcpNack)
    requires Spread(messages) && forall k :: 0 <= k < |messages| ==> TooFar(messages[k].pid, nack.pid)
    ensures Spread(messages + [nack])
  {
    hide TooFar;
  }

  /** The inner loop: the first message that reaches the sequence number takes it. */
  method Group(messages: seq<RtcpNack>, sequence: uint16, ghost senderSsrc: uint32, ghost mediaSsrc: uint32)
    returns (grouped: bool, after: seq<RtcpNack>)
    requires forall k :: 0 <= k < |messages| ==> sequence !in Asked(messages[k])
    requires AllFrom(messages, senderSsrc, mediaSsrc)
    ensures !grouped ==> after == messages
    ensures grouped ==> multiset(AllAsked(after)) == multiset(AllAsked(messages)) + multiset{sequence}
    ensures |after| == |messages| && AllFrom(after, senderSsrc, mediaSsrc)
    ensures forall k :: 0 <= k < |messages| ==> after[k].pid == messages[k].pid
    ensures !grouped ==> forall k :: 0 <= k < |messages| ==> TooFar(messages[k].pid, sequence)
  {
    hide AllAsked, Asked, SetBit;
    for k := 0 to |messages|
      invariant forall j :: 0 <= j < k ==> TooFar(messages[j].pid, sequence)
    {
      if Reaches(messages[k], sequence) {
        WithBitAsks(messages[k], sequence);
        AllAskedUpdate(messages, k, WithBit(messages[k], sequence), sequence);
        return true, messages[k := WithBit(messages[k], sequence)];
      }
    }
    return false, messages;
  }

  lemma DueNext(due: seq<uint16>, i: nat)
    requires i < |due|
    ensures multiset(due[..i + 1]) == multiset(due[..i]) + multiset{due[i]}
  {
    assert due[..i + 1] == due[..i] + [due[i]];
  }

  /** The grouping of SnapshotPendingNacks: the messages ask for each due sequence number once and for no
      other, across the 16-bit wrap. */
  method GroupNacks(senderSsrc: uint32, mediaSsrc: uint32, due: seq<uint16>) returns (messages: seq<RtcpNack>)
    requires Distinct(due)
    ensures multiset(AllAsked(messages)) == multiset(due)
    ensures AllFrom(messages, senderSsrc, mediaSsrc)
    ensures |messages| <= |due| && (due != [] ==> messages != []) && Spread(messages)
  {
    hide Asked, SetBit, AllAsked, Distinct, Reaches, TooFar;
    messages := [];
    NothingMeant();
    for i := 0 to |due|
      invariant multiset(AllAsked(messages)) == multiset(due[..i])
      invariant AllFrom(messages, senderSsrc, mediaSsrc)
      invariant |messages| <= i && (i > 0 ==> messages != []) && Spread(messages)
    {
      forall k | 0 <= k < |messages| ensures due[i] !in Asked(messages[k]) { Fresh(messages, due, i, k); }
      var grouped, after := Group(messages, due[i], senderSsrc, mediaSsrc);
      DueNext(due, i);
      if grouped {
        messages := after;
      } else {
        NewMessage(messages, RtcpNack(senderSsrc, mediaSsrc, due[i], 0));
        SpreadMore(messages, RtcpNack(senderSsrc, mediaSsrc, due[i], 0));
        messages := messages + [RtcpNack(senderSsrc, mediaSsrc, due[i], 0)];
      }
    }
    assert due[..|due|] == due;
  }
}
