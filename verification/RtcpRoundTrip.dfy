/** A compound of RR, SDES and feedback packets decodes to what was encoded. */
module RtcpRoundTrip {
  import opened Options
  import opened Bytes
  import opened Wire
  import opened Tlv
  import opened Nack
  import opened Rtcp
  import opened RtcpDecode

  // ----- one packet -----

  lemma HeaderFields(count: nat, kind: byte, size: nat, rest: seq<byte>)
    requires count < 32 && 4 <= size <= 0x4_0000 && size % 4 == 0
    ensures var b := Header(count, kind, size) + rest;
            && b[0] == 0x80 + count && b[1] == kind && (Get16(b, 2) + 1) * 4 == size
  {
    hide BigEndian;
    var b := Header(count, kind, size) + rest;
    assert b == [0x80 + count, kind] + U16(size / 4 - 1) + rest;
    Get16Put([0x80 + count, kind], size / 4 - 1, rest);
  }

  /** A framed packet at the head of a compound is read back as it is. */
  lemma ReadFramed(count: nat, kind: byte, size: nat, body: seq<byte>, rest: seq<byte>)
    requires count < 32 && 4 <= size <= 0x4_0000 && size % 4 == 0 && |body| == size - 4
    ensures ReadPacket(Header(count, kind, size) + body + rest)
         == Some(View(Header(count, kind, size) + body, size, count, kind))
  {
    hide Header, Get16;
    var head := Header(count, kind, size);
    HeaderFields(count, kind, size, body + rest);
    assert head + body + rest == head + (body + rest);
    assert (head + body + rest)[..size] == head + body;
  }

  // ----- the report -----

  lemma Get24Put(before: seq<byte>, v: int, after: seq<byte>)
    requires -0x80_0000 <= v < 0x80_0000
    ensures Get24(before + U24(v) + after, |before|) == v
  {
    var u := if v < 0 then v + 0x100_0000 else v;
    assert Pow256(3) == 0x100_0000 by {
      assert Pow256(3) == 256 * Pow256(2) && Pow256(2) == 256 * Pow256(1) && Pow256(1) == 256 * Pow256(0);
    }
    ValueOfBigEndian(u, 3);
    assert (before + U24(v) + after)[|before|..|before| + 3] == BigEndian(u, 3);
  }

  lemma BlockReturns(before: seq<byte>, r: ReportBlock, after: seq<byte>)
    requires BlockOk(r)
    ensures BlockAt(before + BlockBytes(r) + after, |before|) == r
  {
    hide BigEndian, Get32, Get24, U24;
    var b := before + BlockBytes(r) + after;
    var source, fraction, lost, high := U32(r.sourceSsrc), [r.fractionLost], U24(r.cumulativeLost), U32(r.highestSequence);
    var jitter, last, delay := U32(r.jitter), U32(r.lastSenderReport), U32(r.delay);
    assert b == before + source + (fraction + lost + high + jitter + last + delay + after);
    assert b == (before + source + fraction) + lost + (high + jitter + last + delay + after);
    assert b == (before + source + fraction + lost) + high + (jitter + last + delay + after);
    assert b == (before + source + fraction + lost + high) + jitter + (last + delay + after);
    assert b == (before + source + fraction + lost + high + jitter) + last + (delay + after);
    assert b == (before + source + fraction + lost + high + jitter + last) + delay + after;
    Get32Put(before, r.sourceSsrc, fraction + lost + high + jitter + last + delay + after);
    Get24Put(before + source + fraction, r.cumulativeLost, high + jitter + last + delay + after);
    Get32Put(before + source + fraction + lost, r.highestSequence, jitter + last + delay + after);
    Get32Put(before + source + fraction + lost + high, r.jitter, last + delay + after);
    Get32Put(before + source + fraction + lost + high + jitter, r.lastSenderReport, delay + after);
    Get32Put(before + source + fraction + lost + high + jitter + last, r.delay, after);
  }

  lemma {:induction false} BlocksReturn(before: seq<byte>, reports: seq<ReportBlock>, after: seq<byte>)
    requires BlocksOk(reports)
    ensures BlocksAt(before + BlocksBytes(reports) + after, |before|, |reports|) == reports
  {
    hide BlockAt, BlockBytes;
    if reports != [] {
      var front, last := reports[..|reports| - 1], reports[|reports| - 1];
      assert BlockOk(last);
      var b := before + BlocksBytes(reports) + after;
      assert b == before + BlocksBytes(front) + (BlockBytes(last) + after);
      assert b == (before + BlocksBytes(front)) + BlockBytes(last) + after;
      BlocksReturn(before, front, BlockBytes(last) + after);
      BlockReturns(before + BlocksBytes(front), last, after);
    }
  }

  function ReportView(r: Report): View
    requires ReportOk(r)
  {
    View(ReportBytes(r), ReportSize(r), |r.reports|, KindOf(r))
  }

  lemma InfoReturns(before: seq<byte>, i: SenderInfo, after: seq<byte>)
    requires |before| == 8
    ensures InfoAt(before + InfoBytes(Some(i)) + after) == i
  {
    hide BigEndian, Get32;
    var b := before + InfoBytes(Some(i)) + after;
    var s, f, t, p, o := U32(i.ntpSeconds), U32(i.ntpFraction), U32(i.rtpTimestamp), U32(i.packetCount), U32(i.octetCount);
    assert b == before + s + (f + t + p + o + after);
    assert b == (before + s) + f + (t + p + o + after);
    assert b == (before + s + f) + t + (p + o + after);
    assert b == (before + s + f + t) + p + (o + after);
    assert b == (before + s + f + t + p) + o + after;
    Get32Put(before, i.ntpSeconds, f + t + p + o + after);
    Get32Put(before + s, i.ntpFraction, t + p + o + after);
    Get32Put(before + s + f, i.rtpTimestamp, p + o + after);
    Get32Put(before + s + f + t, i.packetCount, o + after);
    Get32Put(before + s + f + t + p, i.octetCount, after);
  }

  /** A report of either kind is read back whole. */
  lemma ReportReturns(r: Report, rest: seq<byte>)
    requires ReportOk(r)
    ensures ReadPacket(ReportBytes(r) + rest) == Some(ReportView(r)) && ParseReport(ReportView(r), r.info.Some?) == Some(r)
  {
    hide BigEndian, Get32, Get16, BlocksAt, BlocksBytes, Header, ReadPacket, InfoBytes, InfoAt;
    var head := Header(|r.reports|, KindOf(r), ReportSize(r));
    var ssrc, info, blocks := U32(r.senderSsrc), InfoBytes(r.info), BlocksBytes(r.reports);
    var b := ReportBytes(r);
    ReadFramed(|r.reports|, KindOf(r), ReportSize(r), ssrc + info + blocks, rest);
    assert b == head + (ssrc + info + blocks);
    assert b == head + ssrc + (info + blocks);
    Get32Put(head, r.senderSsrc, info + blocks);
    if r.info.Some? { InfoReturns(head + ssrc, r.info.value, blocks); }
    assert b == (head + ssrc + info) + blocks + [];
    BlocksReturn(head + ssrc + info, r.reports, []);
    assert forall i :: 0 <= i < |r.reports| ==> BlockOk(r.reports[i]);
  }

  // ----- SDES -----

  lemma {:induction false} ZerosEnd(p: seq<byte>, cursor: nat)
    requires cursor <= |p| && |p| % 4 == 0 && |p| - cursor < 4 && forall i :: cursor <= i < |p| ==> p[i] == 0
    ensures ChunkEnd(p, cursor) == Some(|p|)
    decreases |p| - cursor
  {
    if cursor < |p| { ZerosEnd(p, cursor + 1); }
  }

  function SdesView(ssrc: uint32, cname: seq<byte>): View
    requires CnameOk(cname)
  {
    View(SdesBytes(ssrc, cname), SdesSize(cname), 1, SDES)
  }

  /** Where the parts of the SDES packet lie. */
  lemma SdesLayout(ssrc: uint32, cname: seq<byte>)
    requires CnameOk(cname)
    ensures var p := SdesBytes(ssrc, cname);
            && Get32(p, 4) == ssrc && p[8] == 1 && p[9] == |cname| && p[10..10 + |cname|] == cname
            && forall i :: 10 + |cname| <= i < |p| ==> p[i] == 0
  {
    hide BigEndian, Get32, Header;
    var head, tail := Header(1, SDES, SdesSize(cname)), [1, |cname|] + cname + [0] + Zeros(Pad(11 + |cname|));
    var p := SdesBytes(ssrc, cname);
    assert p == head + U32(ssrc) + tail;
    Get32Put(head, ssrc, tail);
  }

  lemma SdesItems(ssrc: uint32, cname: seq<byte>)
    requires CnameOk(cname)
    ensures Items(SdesBytes(ssrc, cname), 8, true, []) == Some((SdesSize(cname), cname))
  {
    hide SdesBytes, ChunkEnd;
    var p := SdesBytes(ssrc, cname);
    SdesLayout(ssrc, cname);
    ZerosEnd(p, 11 + |cname|);
    assert Items(p, 10 + |cname|, true, cname) == Some((|p|, cname));
  }

  lemma SdesReturns(ssrc: uint32, cname: seq<byte>, rest: seq<byte>)
    requires CnameOk(cname) && ssrc != 0
    ensures ReadPacket(SdesBytes(ssrc, cname) + rest) == Some(SdesView(ssrc, cname))
    ensures ParseSdes(SdesView(ssrc, cname), ssrc, []) == Some(cname)
  {
    hide BigEndian, Header, ReadPacket, Items;
    var head, ssrcBytes := Header(1, SDES, SdesSize(cname)), U32(ssrc);
    var tail := [1, |cname|] + cname + [0] + Zeros(Pad(11 + |cname|));
    assert SdesBytes(ssrc, cname) == head + (ssrcBytes + tail);
    ReadFramed(1, SDES, SdesSize(cname), ssrcBytes + tail, rest);
    SdesLayout(ssrc, cname);
    SdesItems(ssrc, cname);
    ChunksOnce(SdesBytes(ssrc, cname), ssrc, cname);
  }

  lemma ChunksOnce(p: seq<byte>, ssrc: uint32, cname: seq<byte>)
    requires 8 <= |p| && Get32(p, 4) == ssrc && ssrc != 0 && Items(p, 8, true, []) == Some((|p|, cname))
    ensures Chunks(p, 4, 1, ssrc, []) == Some(cname)
  {
    hide Items, Get32;
    assert Chunks(p, |p|, 0, ssrc, cname) == Some(cname);
  }

  // ----- NACKs -----

  function NackView(n: RtcpNack): View {
    View(NackBytes(n), 16, FMT_NACK, RTP_FEEDBACK)
  }

  lemma NackReturns(n: RtcpNack, rest: seq<byte>)
    requires n.senderSsrc != 0
    ensures ReadPacket(NackBytes(n) + rest) == Some(NackView(n)) && ParseNack(NackView(n)) == Some([n])
  {
    hide BigEndian, Header, ReadPacket, Get32, Get16;
    var head, a, b, pid, blp := Header(FMT_NACK, RTP_FEEDBACK, 16), U32(n.senderSsrc), U32(n.mediaSsrc), U16(n.pid), U16(n.blp);
    var p := NackBytes(n);
    assert p == head + (a + b + pid + blp);
    ReadFramed(FMT_NACK, RTP_FEEDBACK, 16, a + b + pid + blp, rest);
    assert p == head + a + (b + pid + blp);
    assert p == head + a + b + (pid + blp);
    assert p == head + a + b + pid + blp;
    assert p == head + a + b + pid + blp + [];
    Get32Put(head, n.senderSsrc, b + pid + blp);
    Get32Put(head + a, n.mediaSsrc, pid + blp);
    Get16Put(head + a + b, n.pid, blp);
    Get16Put(head + a + b + pid, n.blp, []);
    assert NackEntries(p, 0) == [];
    assert NackEntries(p, 1) == [n];
  }

  // ----- PLI and FIR -----

  function PliView(p: RtcpPli): View {
    View(PliBytes(p), 12, FMT_PLI, PAYLOAD_FEEDBACK)
  }

  lemma PliReturns(p: RtcpPli, rest: seq<byte>)
    requires p.senderSsrc != 0
    ensures ReadPacket(PliBytes(p) + rest) == Some(PliView(p)) && ParsePli(PliView(p)) == Some(p)
  {
    hide BigEndian, Header, ReadPacket, Get32;
    var head, a, b := Header(FMT_PLI, PAYLOAD_FEEDBACK, 12), U32(p.senderSsrc), U32(p.mediaSsrc);
    assert PliBytes(p) == head + (a + b);
    ReadFramed(FMT_PLI, PAYLOAD_FEEDBACK, 12, a + b, rest);
    assert PliBytes(p) == head + a + b;
    assert PliBytes(p) == head + a + b + [];
    Get32Put(head, p.senderSsrc, b);
    Get32Put(head + a, p.mediaSsrc, []);
  }

  function FirView(f: RtcpFir): View {
    View(FirBytes(f), 20, FMT_FIR, PAYLOAD_FEEDBACK)
  }

  lemma FirFields(f: RtcpFir)
    ensures var p := FirBytes(f);
            Get32(p, 4) == f.senderSsrc && Get32(p, 8) == 0 && Get32(p, 12) == f.mediaSsrc
            && p[16] == f.sequenceNumber && p[17] == p[18] == p[19] == 0
  {
    hide BigEndian, Header, Get32;
    var head, a, zero, b := Header(FMT_FIR, PAYLOAD_FEEDBACK, 20), U32(f.senderSsrc), U32(0), U32(f.mediaSsrc);
    var tail := [f.sequenceNumber, 0, 0, 0];
    var p := FirBytes(f);
    assert p == head + a + (zero + b + tail);
    assert p == head + a + zero + (b + tail);
    Get32Put(head, f.senderSsrc, zero + b + tail);
    Get32Put(head + a, 0, b + tail);
    Get32Put(head + a + zero, f.mediaSsrc, tail);
  }

  lemma OneEntry(p: seq<byte>)
    requires 20 <= |p| && FirEntry(p, 1).Some?
    ensures FirEntries(p, 1) == Some([FirEntry(p, 1).value])
  {
    hide FirEntry;
    var e := FirEntry(p, 1).value;
    assert FirEntries(p, 0) == Some([]) && [] + [e] == [e];
  }

  lemma FirReturns(f: RtcpFir, rest: seq<byte>)
    requires f.senderSsrc != 0 && f.mediaSsrc != 0
    ensures ReadPacket(FirBytes(f) + rest) == Some(FirView(f)) && ParseFir(FirView(f)) == Some([f])
  {
    hide BigEndian, Header, ReadPacket, Get32;
    var body := U32(f.senderSsrc) + U32(0) + U32(f.mediaSsrc) + [f.sequenceNumber, 0, 0, 0];
    assert FirBytes(f) == Header(FMT_FIR, PAYLOAD_FEEDBACK, 20) + body;
    ReadFramed(FMT_FIR, PAYLOAD_FEEDBACK, 20, body, rest);
    FirFields(f);
    assert FirEntry(FirBytes(f), 1) == Some(f);
    OneEntry(FirBytes(f));
  }

  // ----- feedback of any kind -----

  function Packets(feedback: seq<Feedback>): (items: seq<seq<byte>>)
    ensures |items| == |feedback|
  {
    seq(|feedback|, i requires 0 <= i < |feedback| => FeedbackBytes(feedback[i]))
  }

  predicate AllOk(feedback: seq<Feedback>) {
    forall i :: 0 <= i < |feedback| ==> FeedbackOk(feedback[i])
  }

  /** The contents after one more feedback packet. */
  function With(c: Contents, f: Feedback): Contents {
    match f
    case Ask(nack) => c.(nacks := c.nacks + [nack])
    case Loss(pli) => c.(plis := c.plis + [pli])
    case Refresh(fir) => c.(firs := c.firs + [fir])
  }

  function WithAll(c: Contents, feedback: seq<Feedback>): Contents
    decreases |feedback|
  {
    if feedback == [] then c else WithAll(With(c, feedback[0]), feedback[1..])
  }

  function FeedbackView(f: Feedback): View {
    match f
    case Ask(nack) => NackView(nack)
    case Loss(pli) => PliView(pli)
    case Refresh(fir) => FirView(fir)
  }

  lemma FeedbackReturns(others: Others, p: Progress, f: Feedback, rest: seq<byte>)
    requires FeedbackOk(f) && !p.first
    ensures ReadPacket(FeedbackBytes(f) + rest) == Some(FeedbackView(f))
    ensures FeedbackView(f).packet == FeedbackBytes(f) && 4 <= |FeedbackBytes(f)| == FeedbackView(f).size
    ensures Step(others, p, FeedbackView(f)) == Some(p.(contents := With(p.contents, f)))
  {
    hide ReadPacket, NackBytes, PliBytes, FirBytes, ParseNack, ParsePli, ParseFir;
    match f {
      case Ask(nack) => NackReturns(nack, rest);
      case Loss(pli) => PliReturns(pli, rest);
      case Refresh(fir) => FirReturns(fir, rest);
    }
  }

  lemma FramedItem(count: nat, kind: byte, size: nat, body: seq<byte>)
    requires count < 32 && 4 <= size <= 0x4_0000 && size % 4 == 0 && |body| == size - 4
    ensures ItemOk(Header(count, kind, size) + body)
  {
    hide Header, Get16;
    HeaderFields(count, kind, size, body);
  }

  lemma FeedbackItem(f: Feedback)
    ensures ItemOk(FeedbackBytes(f)) && |FeedbackBytes(f)| % 4 == 0
  {
    hide BigEndian, Header, ItemOk;
    match f {
      case Ask(n) =>
        var body := U32(n.senderSsrc) + U32(n.mediaSsrc) + U16(n.pid) + U16(n.blp);
        FramedItem(FMT_NACK, RTP_FEEDBACK, 16, body);
        assert NackBytes(n) == Header(FMT_NACK, RTP_FEEDBACK, 16) + body;
      case Loss(p) =>
        var body := U32(p.senderSsrc) + U32(p.mediaSsrc);
        FramedItem(FMT_PLI, PAYLOAD_FEEDBACK, 12, body);
        assert PliBytes(p) == Header(FMT_PLI, PAYLOAD_FEEDBACK, 12) + body;
      case Refresh(r) =>
        var body := U32(r.senderSsrc) + U32(0) + U32(r.mediaSsrc) + [r.sequenceNumber, 0, 0, 0];
        FramedItem(FMT_FIR, PAYLOAD_FEEDBACK, 20, body);
        assert FirBytes(r) == Header(FMT_FIR, PAYLOAD_FEEDBACK, 20) + body;
    }
  }

  lemma {:induction false} AllReturn(others: Others, p: Progress, feedback: seq<Feedback>)
    requires !p.first && AllOk(feedback)
    ensures DecodeFrom(others, p, Concat(Packets(feedback))) == Some(p.(contents := WithAll(p.contents, feedback)))
    decreases |feedback|
  {
    hide FeedbackBytes, FeedbackView, FeedbackOk, ReadPacket, Step, With;
    if feedback != [] {
      var f, rest := feedback[0], feedback[1..];
      var left := Concat(Packets(rest));
      assert Packets(feedback)[1..] == Packets(rest);
      FeedbackReturns(others, p, f, left);
      DecodeOne(others, p, p.(contents := With(p.contents, f)), FeedbackView(f), left);
      AllReturn(others, p.(contents := With(p.contents, f)), rest);
    }
  }

  // ----- the compound -----

  /** The contents of a compound with this one report. */
  function Reported(r: Report, cname: seq<byte>): Contents {
    if r.info.Some? then Contents(Some(r), None, cname, [], [], []) else Contents(None, Some(r), cname, [], [], [])
  }

  /** Decoding a sender or receiver report with its CNAME and any feedback packets gives all of them back, each
      kind in order. */
  lemma {:induction false} CompoundReturns(others: Others, r: Report, cname: seq<byte>, feedback: seq<Feedback>)
    requires ReportOk(r) && CnameOk(cname) && AllOk(feedback)
    ensures forall i :: 0 <= i < |feedback| ==> ItemOk(Packets(feedback)[i])
    ensures Decoded(others, Compound(r, cname, Packets(feedback))) == Some(WithAll(Reported(r, cname), feedback))
  {
    hide ReportBytes, SdesBytes, Packets, DecodeFrom, WithAll, ItemOk;
    forall i | 0 <= i < |feedback| ensures ItemOk(Packets(feedback)[i]) { ItemAt(feedback, i); }
    var tail := Concat(Packets(feedback));
    AlignedItems(feedback);
    assert Compound(r, cname, Packets(feedback)) == ReportBytes(r) + (SdesBytes(r.senderSsrc, cname) + tail);
    FrontDecoded(others, r, cname, tail);
    AllReturn(others, Identified(r, cname), feedback);
    NamedStill(Reported(r, cname), feedback);
  }

  lemma {:induction false} NamedStill(c: Contents, feedback: seq<Feedback>)
    ensures WithAll(c, feedback).cname == c.cname
    ensures WithAll(c, feedback).senderReport == c.senderReport && WithAll(c, feedback).receiverReport == c.receiverReport
    decreases |feedback|
  {
    if feedback != [] { NamedStill(With(c, feedback[0]), feedback[1..]); }
  }

  /** After the first two packets of the compound. */
  function Identified(r: Report, cname: seq<byte>): Progress {
    Progress(Reported(r, cname), r.senderSsrc, false)
  }

  lemma FrontDecoded(others: Others, r: Report, cname: seq<byte>, tail: seq<byte>)
    requires ReportOk(r) && CnameOk(cname)
    ensures DecodeFrom(others, Progress(NOTHING, 0, true), ReportBytes(r) + (SdesBytes(r.senderSsrc, cname) + tail))
         == DecodeFrom(others, Identified(r, cname), tail)
  {
    hide ReportBytes, SdesBytes, ReadPacket, ParseReport, ParseSdes, DecodeFrom;
    var p0, p1 := Progress(NOTHING, 0, true), Progress(Reported(r, []), r.senderSsrc, false);
    ReportReturns(r, SdesBytes(r.senderSsrc, cname) + tail);
    DecodeOne(others, p0, p1, ReportView(r), SdesBytes(r.senderSsrc, cname) + tail);
    SdesReturns(r.senderSsrc, cname, tail);
    DecodeOne(others, p1, Identified(r, cname), SdesView(r.senderSsrc, cname), tail);
  }

  /** A second report after the CNAME: taken exactly when it is of the other kind and of the same source. */
  lemma SecondReport(others: Others, r: Report, cname: seq<byte>, second: Report)
    requires ReportOk(r) && CnameOk(cname) && ReportOk(second)
    ensures Decoded(others, Compound(r, cname, [ReportBytes(second)]))
         == if second.senderSsrc != r.senderSsrc || second.info.Some? == r.info.Some? then None
            else if r.info.Some? then Some(Contents(Some(r), Some(second), cname, [], [], []))
            else Some(Contents(Some(second), Some(r), cname, [], [], []))
  {
    hide ReportBytes, SdesBytes, ReadPacket, ParseReport, DecodeFrom;
    var extra := [ReportBytes(second)];
    assert extra[1..] == [] && Concat([]) == [];
    assert Concat(extra) == ReportBytes(second) + [];
    FrontDecoded(others, r, cname, ReportBytes(second));
    assert Compound(r, cname, extra) == ReportBytes(r) + (SdesBytes(r.senderSsrc, cname) + ReportBytes(second));
    ReportReturns(second, []);
    assert ReportBytes(second) + [] == ReportBytes(second);
    LastPacket(others, Identified(r, cname), ReportView(second));
  }

  /** The last packet of a compound. */
  lemma LastPacket(others: Others, p: Progress, v: View)
    requires 4 <= |v.packet| == v.size && ReadPacket(v.packet) == Some(v)
    ensures DecodeFrom(others, p, v.packet) == Step(others, p, v)
  {
    hide ReadPacket, Step;
    assert v.packet[v.size..] == [];
    if Step(others, p, v).Some? { assert DecodeFrom(others, Step(others, p, v).value, []) == Step(others, p, v); }
  }

  lemma ItemAt(feedback: seq<Feedback>, i: nat)
    requires i < |feedback|
    ensures ItemOk(Packets(feedback)[i])
  {
    FeedbackItem(feedback[i]);
  }

  lemma {:induction false} AlignedItems(feedback: seq<Feedback>)
    ensures |Concat(Packets(feedback))| % 4 == 0
  {
    hide FeedbackBytes, ItemOk;
    if feedback != [] {
      assert Packets(feedback)[1..] == Packets(feedback[1..]);
      FeedbackItem(feedback[0]);
      AlignedItems(feedback[1..]);
    }
  }

  lemma DecodeOne(others: Others, p: Progress, next: Progress, v: View, rest: seq<byte>)
    requires 4 <= |v.packet| == v.size && ReadPacket(v.packet + rest) == Some(v) && Step(others, p, v) == Some(next)
    ensures DecodeFrom(others, p, v.packet + rest) == DecodeFrom(others, next, rest)
  {
    hide ReadPacket, Step;
    assert (v.packet + rest)[v.size..] == rest;
  }
}
