/** RTCP compound packets: receiver report, source description with CNAME, and feedback packets. */
module Rtcp {
  import opened Options
  import opened Bytes
  import opened Wire
  import opened Tlv
  import opened Nack

  datatype ReportBlock = ReportBlock(
    sourceSsrc: uint32, fractionLost: byte, cumulativeLost: int, highestSequence: uint32, jitter: uint32,
    lastSenderReport: uint32, delay: uint32)

  /** What a sender report says of the sender's own clock and counters. */
  datatype SenderInfo = SenderInfo(
    ntpSeconds: uint32, ntpFraction: uint32, rtpTimestamp: uint32, packetCount: uint32, octetCount: uint32)

  /** A sender report with its information, or a receiver report without. */
  datatype Report = Report(senderSsrc: uint32, info: Option<SenderInfo>, reports: seq<ReportBlock>)

  const SENDER_REPORT: byte := 200
  const RECEIVER_REPORT: byte := 201
  const SDES: byte := 202
  const RTP_FEEDBACK: byte := 205
  const PAYLOAD_FEEDBACK: byte := 206
  const FMT_NACK: nat := 1
  const FMT_PLI: nat := 1
  const FMT_FIR: nat := 4

  datatype RtcpPli = RtcpPli(senderSsrc: uint32, mediaSsrc: uint32)

  datatype RtcpFir = RtcpFir(senderSsrc: uint32, mediaSsrc: uint32, sequenceNumber: byte)

  /** The feedback packets that may follow a report. */
  datatype Feedback = Ask(nack: RtcpNack) | Loss(pli: RtcpPli) | Refresh(fir: RtcpFir)

  // ----- writing -----

  predicate BlockOk(r: ReportBlock) {
    r.sourceSsrc != 0 && -0x80_0000 <= r.cumulativeLost < 0x80_0000
  }

  /** Two's complement in 24 bits. */
  function U24(v: int): (b: seq<byte>)
    requires -0x80_0000 <= v < 0x80_0000
    ensures |b| == 3
  {
    BigEndian(if v < 0 then v + 0x100_0000 else v, 3)
  }

  function BlockBytes(r: ReportBlock): (b: seq<byte>)
    requires BlockOk(r)
    ensures |b| == 24
  {
    U32(r.sourceSsrc) + [r.fractionLost] + U24(r.cumulativeLost) + U32(r.highestSequence) + U32(r.jitter)
    + U32(r.lastSenderReport) + U32(r.delay)
  }

  predicate BlocksOk(reports: seq<ReportBlock>) {
    forall i :: 0 <= i < |reports| ==> BlockOk(reports[i])
  }

  function BlocksBytes(reports: seq<ReportBlock>): (b: seq<byte>)
    requires BlocksOk(reports)
    ensures |b| == 24 * |reports|
  {
    if reports == [] then []
    else
      assert BlockOk(reports[|reports| - 1]);
      BlocksBytes(reports[..|reports| - 1]) + BlockBytes(reports[|reports| - 1])
  }

  /** A packet header; the length field counts words, less one. */
  function Header(count: nat, kind: byte, size: nat): (b: seq<byte>)
    requires count < 32 && 4 <= size <= 0x4_0000
    ensures |b| == 4
  {
    [0x80 + count, kind] + U16(size / 4 - 1)
  }

  predicate ReportOk(r: Report) {
    r.senderSsrc != 0 && |r.reports| <= 31 && BlocksOk(r.reports)
  }

  function InfoBytes(info: Option<SenderInfo>): (b: seq<byte>)
    ensures |b| == if info.Some? then 20 else 0
  {
    match info
    case None => []
    case Some(i) => U32(i.ntpSeconds) + U32(i.ntpFraction) + U32(i.rtpTimestamp) + U32(i.packetCount) + U32(i.octetCount)
  }

  function KindOf(r: Report): byte {
    if r.info.Some? then SENDER_REPORT else RECEIVER_REPORT
  }

  function ReportSize(r: Report): nat {
    8 + (if r.info.Some? then 20 else 0) + 24 * |r.reports|
  }

  function ReportBytes(r: Report): (b: seq<byte>)
    requires ReportOk(r)
    ensures |b| == ReportSize(r)
  {
    Header(|r.reports|, KindOf(r), ReportSize(r)) + U32(r.senderSsrc) + InfoBytes(r.info) + BlocksBytes(r.reports)
  }

  function SdesSize(cname: seq<byte>): nat {
    11 + |cname| + Pad(11 + |cname|)
  }

  predicate CnameOk(cname: seq<byte>) {
    1 <= |cname| <= 255
  }

  function SdesBytes(ssrc: uint32, cname: seq<byte>): (b: seq<byte>)
    requires CnameOk(cname)
    ensures |b| == SdesSize(cname)
  {
    Header(1, SDES, SdesSize(cname)) + U32(ssrc) + [1, |cname|] + cname + [0] + Zeros(Pad(11 + |cname|))
  }

  function NackBytes(n: RtcpNack): (b: seq<byte>)
    ensures |b| == 16
  {
    Header(FMT_NACK, RTP_FEEDBACK, 16) + U32(n.senderSsrc) + U32(n.mediaSsrc) + U16(n.pid) + U16(n.blp)
  }

  function PliBytes(p: RtcpPli): (b: seq<byte>)
    ensures |b| == 12
  {
    Header(FMT_PLI, PAYLOAD_FEEDBACK, 12) + U32(p.senderSsrc) + U32(p.mediaSsrc)
  }

  function FirBytes(f: RtcpFir): (b: seq<byte>)
    ensures |b| == 20
  {
    Header(FMT_FIR, PAYLOAD_FEEDBACK, 20) + U32(f.senderSsrc) + U32(0) + U32(f.mediaSsrc) + [f.sequenceNumber, 0, 0, 0]
  }

  function FeedbackBytes(f: Feedback): seq<byte> {
    match f
    case Ask(nack) => NackBytes(nack)
    case Loss(pli) => PliBytes(pli)
    case Refresh(fir) => FirBytes(fir)
  }

  /** What the encoders ask of a feedback packet. */
  predicate FeedbackOk(f: Feedback) {
    match f
    case Ask(nack) => nack.senderSsrc != 0
    case Loss(pli) => pli.senderSsrc != 0
    case Refresh(fir) => fir.senderSsrc != 0 && fir.mediaSsrc != 0
  }

  function Concat(items: seq<seq<byte>>): seq<byte> {
    if items == [] then [] else items[0] + Concat(items[1..])
  }

  /** What BuildCompound asks of an extension: framed, and without padding. */
  predicate ItemOk(item: seq<byte>) {
    && 4 <= |item| && |item| % 4 == 0 && item[0] / 64 == 2 && (Get16(item, 2) + 1) * 4 == |item| && item[0] / 32 % 2 == 0
  }

  function Compound(r: Report, cname: seq<byte>, extra: seq<seq<byte>>): seq<byte>
    requires ReportOk(r) && CnameOk(cname)
  {
    ReportBytes(r) + SdesBytes(r.senderSsrc, cname) + Concat(extra)
  }

  /** PutRtcpLength patches the two length bytes of the packet that starts at offset. */
  method PutRtcpLength(b: seq<byte>, offset: nat) returns (r: seq<byte>)
    requires offset + 4 <= |b| && (|b| - offset) % 4 == 0 && |b| - offset <= 0x4_0000
    ensures r == b[..offset + 2] + U16((|b| - offset) / 4 - 1) + b[offset + 4..]
  {
    var words := (|b| - offset) / 4 - 1;
    assert BigEndian(words, 2) == [words / 256 % 256, words % 256] by {
      assert BigEndian(words / 256, 1) == BigEndian(words / 256 / 256, 0) + [words / 256 % 256];
    }
    r := b[offset + 2 := words / 256 % 256][offset + 3 := words % 256];
  }

  method EncodeRtcpSenderReport(r: Report, cname: seq<byte>, extra: seq<seq<byte>>) returns (b: Option<seq<byte>>)
    requires r.info.Some?
    ensures b.Some? <==> ReportOk(r) && CnameOk(cname) && forall i :: 0 <= i < |extra| ==> ItemOk(extra[i])
    ensures b.Some? ==> b.value == Compound(r, cname, extra)
  {
    hide BigEndian, SdesBytes, Concat, BlocksOk;
    if r.senderSsrc == 0 || |r.reports| > 31 { return None; }
    var m: seq<byte> := [0x80 + |r.reports|, SENDER_REPORT, 0, 0];
    m := Put(m, r.senderSsrc, 4);
    m := Put(m, r.info.value.ntpSeconds, 4);
    m := Put(m, r.info.value.ntpFraction, 4);
    m := Put(m, r.info.value.rtpTimestamp, 4);
    m := Put(m, r.info.value.packetCount, 4);
    m := Put(m, r.info.value.octetCount, 4);
    ghost var head := m;
    var blocks := PutReportBlocks(r.reports);
    if blocks.None? { return None; }
    m := PutRtcpLength(m + blocks.value, 0);
    assert head == [0x80 + |r.reports|, SENDER_REPORT, 0, 0] + (U32(r.senderSsrc) + InfoBytes(r.info));
    assert m == ReportBytes(r);
    b := BuildCompound(m, r.senderSsrc, cname, extra);
  }

  method EncodeRtcpReceiverReport(r: Report, cname: seq<byte>, extra: seq<seq<byte>>) returns (b: Option<seq<byte>>)
    requires r.info.None?
    ensures b.Some? <==> ReportOk(r) && CnameOk(cname) && forall i :: 0 <= i < |extra| ==> ItemOk(extra[i])
    ensures b.Some? ==> b.value == Compound(r, cname, extra)
  {
    hide BigEndian, SdesBytes, Concat, BlocksOk;
    if r.senderSsrc == 0 || |r.reports| > 31 { return None; }
    var m: seq<byte> := [0x80 + |r.reports|, RECEIVER_REPORT, 0, 0];
    m := Put(m, r.senderSsrc, 4);
    var blocks := PutReportBlocks(r.reports);
    if blocks.None? { return None; }
    m := PutRtcpLength(m + blocks.value, 0);
    assert m == ReportBytes(r);
    b := BuildCompound(m, r.senderSsrc, cname, extra);
  }

  /** The loop over the report blocks, which both encoders have. */
  method PutReportBlocks(reports: seq<ReportBlock>) returns (b: Option<seq<byte>>)
    ensures b.Some? <==> BlocksOk(reports)
    ensures b.Some? ==> b.value == BlocksBytes(reports)
  {
    hide BlockBytes;
    var m: seq<byte> := [];
    for i := 0 to |reports|
      invariant BlocksOk(reports[..i]) && m == BlocksBytes(reports[..i])
    {
      if reports[i].sourceSsrc == 0 || reports[i].cumulativeLost < -8388608 || reports[i].cumulativeLost > 8388607 {
        return None;
      }
      assert reports[..i + 1][..i] == reports[..i];
      var block := PutReportBlock(reports[i]);
      m := m + block;
    }
    assert reports[..|reports|] == reports;
    return Some(m);
  }

  method PutReportBlock(r: ReportBlock) returns (b: seq<byte>)
    requires BlockOk(r)
    ensures b == BlockBytes(r)
  {
    hide BigEndian;
    b := Put([], r.sourceSsrc, 4);
    b := b + [r.fractionLost];
    b := Put(b, if r.cumulativeLost < 0 then r.cumulativeLost + 0x100_0000 else r.cumulativeLost, 3);
    b := Put(b, r.highestSequence, 4);
    b := Put(b, r.jitter, 4);
    b := Put(b, r.lastSenderReport, 4);
    b := Put(b, r.delay, 4);
  }

  method AppendSdesCname(packet: seq<byte>, ssrc: uint32, cname: seq<byte>) returns (b: Option<seq<byte>>)
    ensures b.Some? <==> ssrc != 0 && CnameOk(cname)
    ensures b.Some? ==> b.value == packet + SdesBytes(ssrc, cname)
  {
    hide BigEndian, Pad;
    if ssrc == 0 || cname == [] || |cname| > 255 { return None; }
    var m: seq<byte> := [0x81, SDES, 0, 0];
    m := Put(m, ssrc, 4);
    m := m + [1, |cname|] + cname + [0];
    ghost var unpadded, n := m, 0;
    while |m| % 4 != 0
      invariant n <= Pad(11 + |cname|) && m == unpadded + Zeros(n)
      decreases Pad(11 + |cname|) - n
    {
      m := m + [0];
      n := n + 1;
    }
    PadUnique(11 + |cname|, n);
    ghost var tail := U32(ssrc) + [1, |cname|] + cname + [0] + Zeros(n);
    assert m == [0x81, SDES, 0, 0] + tail;
    m := PutRtcpLength(m, 0);
    assert m == Header(1, SDES, SdesSize(cname)) + tail;
    assert SdesBytes(ssrc, cname) == Header(1, SDES, SdesSize(cname)) + tail;
    return Some(packet + m);
  }

  method BuildCompound(report: seq<byte>, ssrc: uint32, cname: seq<byte>, extra: seq<seq<byte>>)
    returns (b: Option<seq<byte>>)
    ensures b.Some? <==>
              && report != [] && |report| % 4 == 0 && ssrc != 0 && CnameOk(cname)
              && forall i :: 0 <= i < |extra| ==> ItemOk(extra[i])
    ensures b.Some? ==> b.value == report + SdesBytes(ssrc, cname) + Concat(extra)
  {
    hide SdesBytes;
    if report == [] || |report| % 4 != 0 { return None; }
    b := AppendSdesCname(report, ssrc, cname);
    if b.None? { return; }
    var m := b.value;
    ghost var front := m;
    for i := 0 to |extra|
      invariant forall j :: 0 <= j < i ==> ItemOk(extra[j])
      invariant m == front + Concat(extra[..i])
    {
      var item := extra[i];
      if |item| < 4 || |item| % 4 != 0 || item[0] / 64 != 2 { return None; }
      if (Get16(item, 2) + 1) * 4 != |item| || item[0] / 32 % 2 != 0 { return None; }
      ConcatAppend(extra[..i], extra[i]);
      assert extra[..i] + [extra[i]] == extra[..i + 1];
      m := m + extra[i];
    }
    assert extra[..|extra|] == extra;
    return Some(m);
  }

  lemma {:induction false} ConcatAppend(items: seq<seq<byte>>, item: seq<byte>)
    ensures Concat(items + [item]) == Concat(items) + item
  {
    if items == [] {
      assert [item][1..] == [];
    } else {
      assert (items + [item])[1..] == items[1..] + [item];
      ConcatAppend(items[1..], item);
    }
  }

  lemma PadUnique(k: nat, n: nat)
    requires n <= Pad(k) && (k + n) % 4 == 0
    ensures n == Pad(k)
  {
  }

  method EncodeRtcpNack(n: RtcpNack) returns (b: Option<seq<byte>>)
    ensures b.Some? <==> n.senderSsrc != 0
    ensures b.Some? ==> b.value == NackBytes(n)
  {
    hide BigEndian;
    if n.senderSsrc == 0 { return None; }
    var m: seq<byte> := [0x81, RTP_FEEDBACK, 0, 0];
    m := Put(m, n.senderSsrc, 4);
    m := Put(m, n.mediaSsrc, 4);
    m := Put(m, n.pid, 2);
    m := Put(m, n.blp, 2);
    m := PutRtcpLength(m, 0);
    return Some(m);
  }

  method EncodeRtcpPli(p: RtcpPli) returns (b: Option<seq<byte>>)
    ensures b.Some? <==> FeedbackOk(Loss(p))
    ensures b.Some? ==> b.value == PliBytes(p)
  {
    hide BigEndian;
    if p.senderSsrc == 0 { return None; }
    var m: seq<byte> := [0x81, PAYLOAD_FEEDBACK, 0, 0];
    m := Put(m, p.senderSsrc, 4);
    m := Put(m, p.mediaSsrc, 4);
    m := PutRtcpLength(m, 0);
    return Some(m);
  }

  method EncodeRtcpFir(f: RtcpFir) returns (b: Option<seq<byte>>)
    ensures b.Some? <==> FeedbackOk(Refresh(f))
    ensures b.Some? ==> b.value == FirBytes(f)
  {
    hide BigEndian;
    if f.senderSsrc == 0 || f.mediaSsrc == 0 { return None; }
    var m: seq<byte> := [0x84, PAYLOAD_FEEDBACK, 0, 0];
    m := Put(m, f.senderSsrc, 4);
    m := Put(m, 0, 4);
    m := Put(m, f.mediaSsrc, 4);
    m := m + [f.sequenceNumber, 0, 0, 0];
    m := PutRtcpLength(m, 0);
    return Some(m);
  }
}
