/** HandleRtcpPacket of the sender: which compounds it lets through, and what they ask for. */
module RtcpHandler {
  import opened Options
  import opened Bytes
  import opened Nack
  import opened Rtcp
  import opened RtcpDecode
  import opened RtcpRoundTrip

  // ----- the gate -----

  /** Who sent the compound: the report names it, else the first PLI, else the first FIR; zero is nobody. */
  function ReceiverOf(c: Contents): uint32 {
    var reported := if c.receiverReport.Some? then c.receiverReport.value.senderSsrc else 0;
    if reported != 0 then reported
    else if c.plis != [] && c.plis[0].senderSsrc != 0 then c.plis[0].senderSsrc
    else if c.firs != [] then c.firs[0].senderSsrc
    else 0
  }

  /** The first receiver ever named is the only one listened to; latched is zero until then. */
  function Latched(latched: uint32, c: Contents): uint32 {
    if latched == 0 then ReceiverOf(c) else latched
  }

  predicate Names(r: Report, ssrc: uint32) {
    exists i :: 0 <= i < |r.reports| && r.reports[i].sourceSsrc == ssrc
  }

  /** The compound comes from the latched receiver, and its report, if it has one, is about this source or
      comes with a request for a key picture. */
  predicate Admitted(latched: uint32, ssrc: uint32, c: Contents) {
    && ReceiverOf(c) != 0 && ReceiverOf(c) == Latched(latched, c)
    && (c.receiverReport.Some? ==> Names(c.receiverReport.value, ssrc) || c.plis != [] || c.firs != [])
  }

  /** The sequence numbers to send again. */
  function Requested(latched: uint32, ssrc: uint32, c: Contents): seq<uint16> {
    if Admitted(latched, ssrc, c) then AllAsked(Meant(c.nacks, ReceiverOf(c), ssrc)) else []
  }

  function PliCount(plis: seq<RtcpPli>, receiver: uint32, ssrc: uint32): nat {
    if plis == [] then 0
    else PliCount(plis[..|plis| - 1], receiver, ssrc) + if plis[|plis| - 1] == RtcpPli(receiver, ssrc) then 1 else 0
  }

  function FirCount(firs: seq<RtcpFir>, receiver: uint32, ssrc: uint32): nat {
    if firs == [] then 0
    else
      var last := firs[|firs| - 1];
      FirCount(firs[..|firs| - 1], receiver, ssrc) + if last.senderSsrc == receiver && last.mediaSsrc == ssrc then 1 else 0
  }

  /** How many key pictures are asked for. */
  function RandomAccess(latched: uint32, ssrc: uint32, c: Contents): nat {
    if Admitted(latched, ssrc, c) then PliCount(c.plis, ReceiverOf(c), ssrc) + FirCount(c.firs, ReceiverOf(c), ssrc) else 0
  }

  class Handler {
    const ssrc: uint32
    const others: Others
    var remoteControlSsrc: uint32
    var randomAccessRequests: nat

    constructor (ssrc: uint32, others: Others)
      ensures this.ssrc == ssrc && this.others == others && remoteControlSsrc == 0 && randomAccessRequests == 0
    {
      this.ssrc, this.others := ssrc, others;
      remoteControlSsrc, randomAccessRequests := 0, 0;
    }

    /** Fails, changing nothing, exactly when the compound does not decode; requested are the numbers handed
        to QueueRetransmissions. */
    method HandleRtcpPacket(packet: seq<byte>) returns (ok: bool, requested: seq<uint16>)
      modifies this
      ensures ok == Decoded(others, packet).Some?
      ensures !ok ==> requested == [] && remoteControlSsrc == old(remoteControlSsrc)
                      && randomAccessRequests == old(randomAccessRequests)
      ensures ok ==>
                var c := Decoded(others, packet).value;
                && requested == Requested(old(remoteControlSsrc), ssrc, c)
                && remoteControlSsrc == Latched(old(remoteControlSsrc), c)
                && randomAccessRequests == old(randomAccessRequests) + RandomAccess(old(remoteControlSsrc), ssrc, c)
    {
      hide Decoded, AllAsked, Meant, PliCount, FirCount;
      requested := [];
      var decoded := DecodeRtcpCompound(others, packet);
      ok := decoded.Some?;
      if !ok { return; }
      var c := decoded.value;
      var receiver := if c.receiverReport.Some? then c.receiverReport.value.senderSsrc else 0;
      if receiver == 0 && c.plis != [] { receiver := c.plis[0].senderSsrc; }
      if receiver == 0 && c.firs != [] { receiver := c.firs[0].senderSsrc; }
      if receiver == 0 { return; }
      if remoteControlSsrc == 0 { remoteControlSsrc := receiver; }
      if receiver != remoteControlSsrc { return; }
      if c.receiverReport.Some? {
        var named := NamesSource(c.receiverReport.value, ssrc);
        if !named && c.plis == [] && c.firs == [] { return; }
      }
      CountKeyPictures(c, receiver);
      requested := RequestedSequences(c.nacks, receiver, ssrc);
    }

    method CountKeyPictures(c: Contents, receiver: uint32)
      modifies this`randomAccessRequests
      ensures randomAccessRequests
           == old(randomAccessRequests) + PliCount(c.plis, receiver, ssrc) + FirCount(c.firs, receiver, ssrc)
    {
      for i := 0 to |c.plis|
        invariant randomAccessRequests == old(randomAccessRequests) + PliCount(c.plis[..i], receiver, ssrc)
      {
        assert c.plis[..i + 1][..i] == c.plis[..i];
        if c.plis[i].senderSsrc == receiver && c.plis[i].mediaSsrc == ssrc {
          randomAccessRequests := randomAccessRequests + 1;
        }
      }
      assert c.plis[..|c.plis|] == c.plis;
      for i := 0 to |c.firs|
        invariant randomAccessRequests
               == old(randomAccessRequests) + PliCount(c.plis, receiver, ssrc) + FirCount(c.firs[..i], receiver, ssrc)
      {
        assert c.firs[..i + 1][..i] == c.firs[..i];
        if c.firs[i].senderSsrc == receiver && c.firs[i].mediaSsrc == ssrc {
          randomAccessRequests := randomAccessRequests + 1;
        }
      }
      assert c.firs[..|c.firs|] == c.firs;
    }
  }

  method NamesSource(r: Report, ssrc: uint32) returns (named: bool)
    ensures named == Names(r, ssrc)
  {
    for i := 0 to |r.reports|
      invariant forall j :: 0 <= j < i ==> r.reports[j].sourceSsrc != ssrc
    {
      if r.reports[i].sourceSsrc == ssrc { return true; }
    }
    return false;
  }

  // ----- end to end -----

  lemma {:induction false} AllMeant(nacks: seq<RtcpNack>, receiverSsrc: uint32, ssrc: uint32)
    requires AllFrom(nacks, receiverSsrc, ssrc)
    ensures Meant(nacks, receiverSsrc, ssrc) == nacks
  {
    if nacks != [] {
      AllMeant(nacks[..|nacks| - 1], receiverSsrc, ssrc);
      assert nacks[|nacks| - 1] in nacks;
    }
  }

  function Asks(messages: seq<RtcpNack>): (feedback: seq<Feedback>)
    ensures |feedback| == |messages|
  {
    seq(|messages|, i requires 0 <= i < |messages| => Ask(messages[i]))
  }

  lemma {:induction false} AsksDecoded(c: Contents, messages: seq<RtcpNack>)
    ensures WithAll(c, Asks(messages)) == c.(nacks := c.nacks + messages)
    decreases |messages|
  {
    if messages == [] {
      assert c.nacks + messages == c.nacks;
    } else {
      var next := c.(nacks := c.nacks + [messages[0]]);
      assert Asks(messages)[0] == Ask(messages[0]) && Asks(messages)[1..] == Asks(messages[1..]);
      AsksDecoded(next, messages[1..]);
      assert next.nacks + messages[1..] == c.nacks + messages;
    }
  }

  lemma AsksReturn(others: Others, r: Report, cname: seq<byte>, messages: seq<RtcpNack>)
    requires ReportOk(r) && r.info.None? && CnameOk(cname) && forall n :: n in messages ==> n.senderSsrc == r.senderSsrc
    ensures Decoded(others, Compound(r, cname, Packets(Asks(messages)))) == Some(Contents(None, Some(r), cname, messages, [], []))
  {
    hide Decoded, Compound, Packets;
    assert forall i :: 0 <= i < |messages| ==> messages[i] in messages;
    CompoundReturns(others, r, cname, Asks(messages));
    AsksDecoded(Reported(r, cname), messages);
    assert [] + messages == messages;
  }

  /** From due sequence numbers to requested ones, whatever grouping GroupNacks returned: a sender that has
      latched nobody else and is named in the report is asked for each due number once and for nothing else;
      any other sender is asked for nothing. */
  lemma NackEndToEnd(others: Others, r: Report, cname: seq<byte>, mediaSsrc: uint32, due: seq<uint16>,
                     messages: seq<RtcpNack>, latched: uint32, ssrc: uint32)
    requires ReportOk(r) && r.info.None? && CnameOk(cname)
    requires multiset(AllAsked(messages)) == multiset(due) && AllFrom(messages, r.senderSsrc, mediaSsrc)
    ensures Decoded(others, Compound(r, cname, Packets(Asks(messages)))).Some?
    ensures var c := Decoded(others, Compound(r, cname, Packets(Asks(messages)))).value;
            && Latched(latched, c) == (if latched == 0 then r.senderSsrc else latched)
            && multiset(Requested(latched, ssrc, c))
               == if latched in {0, r.senderSsrc} && Names(r, ssrc) && ssrc == mediaSsrc
                  then multiset(due) else multiset{}
  {
    hide Decoded, Compound, AllAsked, Names, Packets, Asks;
    AsksReturn(others, r, cname, messages);
    NothingMeant();
    if ssrc == mediaSsrc { AllMeant(messages, r.senderSsrc, ssrc); } else { NoneMeant(messages, r.senderSsrc, mediaSsrc, ssrc); }
  }

  lemma {:induction false} NoneMeant(nacks: seq<RtcpNack>, receiverSsrc: uint32, mediaSsrc: uint32, ssrc: uint32)
    requires AllFrom(nacks, receiverSsrc, mediaSsrc) && ssrc != mediaSsrc
    ensures Meant(nacks, receiverSsrc, ssrc) == []
  {
    if nacks != [] {
      NoneMeant(nacks[..|nacks| - 1], receiverSsrc, mediaSsrc, ssrc);
      assert nacks[|nacks| - 1] in nacks;
    }
  }

  function PliPlaces(plis: seq<RtcpPli>, receiver: uint32, ssrc: uint32): set<nat> {
    set i: nat | i < |plis| && plis[i].senderSsrc == receiver && plis[i].mediaSsrc == ssrc
  }

  function FirPlaces(firs: seq<RtcpFir>, receiver: uint32, ssrc: uint32): set<nat> {
    set i: nat | i < |firs| && firs[i].senderSsrc == receiver && firs[i].mediaSsrc == ssrc
  }

  lemma {:induction false} PlisCounted(plis: seq<RtcpPli>, receiver: uint32, ssrc: uint32)
    ensures PliCount(plis, receiver, ssrc) == |PliPlaces(plis, receiver, ssrc)|
  {
    if plis == [] {
      assert PliPlaces([], receiver, ssrc) == {};
    } else {
      var last := |plis| - 1;
      PlisCounted(plis[..last], receiver, ssrc);
      var here: set<nat> := if plis[last].senderSsrc == receiver && plis[last].mediaSsrc == ssrc then {last} else {};
      assert PliPlaces(plis, receiver, ssrc) == PliPlaces(plis[..last], receiver, ssrc) + here;
    }
  }

  lemma {:induction false} FirsCounted(firs: seq<RtcpFir>, receiver: uint32, ssrc: uint32)
    ensures FirCount(firs, receiver, ssrc) == |FirPlaces(firs, receiver, ssrc)|
  {
    if firs == [] {
      assert FirPlaces([], receiver, ssrc) == {};
    } else {
      var last := |firs| - 1;
      FirsCounted(firs[..last], receiver, ssrc);
      var here: set<nat> := if firs[last].senderSsrc == receiver && firs[last].mediaSsrc == ssrc then {last} else {};
      assert FirPlaces(firs, receiver, ssrc) == FirPlaces(firs[..last], receiver, ssrc) + here;
    }
  }

  /** The key pictures asked for: each PLI and FIR of an admitted compound that comes from its receiver and is
      about this source. */
  lemma KeyPicturesCounted(latched: uint32, ssrc: uint32, c: Contents)
    ensures RandomAccess(latched, ssrc, c)
         == if Admitted(latched, ssrc, c)
            then |PliPlaces(c.plis, ReceiverOf(c), ssrc)| + |FirPlaces(c.firs, ReceiverOf(c), ssrc)| else 0
  {
    PlisCounted(c.plis, ReceiverOf(c), ssrc);
    FirsCounted(c.firs, ReceiverOf(c), ssrc);
  }

  // ----- runs -----

  /** The latched receiver after any packets, those that do not decode included. */
  function LatchedAfter(others: Others, packets: seq<seq<byte>>): uint32 {
    if packets == [] then 0
    else
      var before, decoded := LatchedAfter(others, packets[..|packets| - 1]), Decoded(others, packets[|packets| - 1]);
      if decoded.None? then before else Latched(before, decoded.value)
  }

  lemma {:induction false} LatchStays(others: Others, packets: seq<seq<byte>>, n: nat)
    requires n <= |packets| && LatchedAfter(others, packets[..n]) != 0
    ensures LatchedAfter(others, packets) == LatchedAfter(others, packets[..n])
    decreases |packets|
  {
    if n == |packets| {
      assert packets[..n] == packets;
    } else {
      assert packets[..|packets| - 1][..n] == packets[..n];
      LatchStays(others, packets[..|packets| - 1], n);
    }
  }

  /** In any run all retransmissions are asked for by one and the same receiver, the first one named. */
  lemma OneReceiverAsks(others: Others, packets: seq<seq<byte>>, n: nat, ssrc: uint32)
    requires n < |packets| && Decoded(others, packets[n]).Some?
    requires Requested(LatchedAfter(others, packets[..n]), ssrc, Decoded(others, packets[n]).value) != []
    ensures ReceiverOf(Decoded(others, packets[n]).value) == LatchedAfter(others, packets) != 0
  {
    hide Decoded, Requested, ReceiverOf;
    assert packets[..n + 1][..n] == packets[..n];
    AskedIsAdmitted(LatchedAfter(others, packets[..n]), ssrc, Decoded(others, packets[n]).value);
    LatchStays(others, packets, n + 1);
  }

  lemma AskedIsAdmitted(latched: uint32, ssrc: uint32, c: Contents)
    requires Requested(latched, ssrc, c) != []
    ensures ReceiverOf(c) == Latched(latched, c) != 0
  {
  }
}
