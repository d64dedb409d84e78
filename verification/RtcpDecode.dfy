/** Reading RTCP compound packets.  BYE, TMMBR and APP packets are read by a parameter that may reject
    them. */
module RtcpDecode {
  import opened Options
  import opened Bytes
  import opened Wire
  import opened Nack
  import opened Rtcp

  /** One packet of a compound, without its padding. */
  datatype View = View(packet: seq<byte>, size: nat, count: nat, kind: byte)

  type Others = View -> bool

  datatype Contents = Contents(
    senderReport: Option<Report>, receiverReport: Option<Report>, cname: seq<byte>, nacks: seq<RtcpNack>,
    plis: seq<RtcpPli>, firs: seq<RtcpFir>)

  /** The decoder's variables: the contents and the sender's source. */
  datatype Progress = Progress(contents: Contents, ssrc: uint32, first: bool)

  const NOTHING := Contents(None, None, [], [], [], [])

  /** ReadPacket at the head of what is left; padding is allowed on the last packet only. */
  function ReadPacket(rest: seq<byte>): (v: Option<View>)
    ensures v.Some? ==> 4 <= |v.value.packet| <= v.value.size <= |rest| && v.value.size % 4 == 0
    ensures v.Some? ==> v.value.packet == rest[..|v.value.packet|] && v.value.count < 32
  {
    if |rest| < 4 || rest[0] / 64 != 2 then None
    else
      var size := (Get16(rest, 2) + 1) * 4;
      if size > |rest| then None
      else if rest[0] / 32 % 2 == 0 then Some(View(rest[..size], size, rest[0] % 32, rest[1]))
      else
        var padding := rest[size - 1];
        if size != |rest| || padding == 0 || padding > size - 4 then None
        else Some(View(rest[..size - padding], size, rest[0] % 32, rest[1]))
  }

  /** The low 24 bits as a signed number. */
  function Get24(b: seq<byte>, p: nat): int
    requires p + 3 <= |b|
  {
    var v := Value(b[p..p + 3]);
    if v < 0x80_0000 then v else v - 0x100_0000
  }

  function BlockAt(b: seq<byte>, p: nat): ReportBlock
    requires p + 24 <= |b|
  {
    ReportBlock(Get32(b, p), b[p + 4], Get24(b, p + 5), Get32(b, p + 8), Get32(b, p + 12), Get32(b, p + 16), Get32(b, p + 20))
  }

  function BlocksAt(b: seq<byte>, p: nat, count: nat): (blocks: seq<ReportBlock>)
    requires p + 24 * count <= |b|
    ensures |blocks| == count
  {
    if count == 0 then [] else BlocksAt(b, p, count - 1) + [BlockAt(b, p + 24 * (count - 1))]
  }

  function InfoAt(p: seq<byte>): SenderInfo
    requires 28 <= |p|
  {
    SenderInfo(Get32(p, 8), Get32(p, 12), Get32(p, 16), Get32(p, 20), Get32(p, 24))
  }

  /** A sender report has its information between its source and its blocks. */
  function ParseReport(v: View, sender: bool): Option<Report> {
    var start := if sender then 28 else 8;
    if |v.packet| != start + 24 * v.count || Get32(v.packet, 4) == 0 then None
    else
      var blocks := BlocksAt(v.packet, start, v.count);
      if SomeZeroSource(blocks) then None
      else Some(Report(Get32(v.packet, 4), if sender then Some(InfoAt(v.packet)) else None, blocks))
  }

  predicate SomeZeroSource(blocks: seq<ReportBlock>) {
    exists i :: 0 <= i < |blocks| && blocks[i].sourceSsrc == 0
  }

  // ----- SDES -----

  /** The end of a chunk: zeros up to the next word. */
  function ChunkEnd(p: seq<byte>, cursor: nat): (end: Option<nat>)
    requires cursor <= |p|
    ensures end.Some? ==> cursor <= end.value <= |p|
    decreases 4 - cursor % 4 + if cursor % 4 == 0 then 0 else 4
  {
    if cursor % 4 == 0 then Some(cursor)
    else if cursor >= |p| || p[cursor] != 0 then None
    else ChunkEnd(p, cursor + 1)
  }

  /** The CNAME after one more CNAME item of the sender: empty and conflicting values are rejected. */
  function Named(cname: seq<byte>, value: seq<byte>): Option<seq<byte>> {
    if value == [] then None
    else if cname == [] then Some(value)
    else if cname == value then Some(cname) else None
  }

  /** The items of a chunk, and where the next chunk starts. */
  function Items(p: seq<byte>, cursor: nat, own: bool, cname: seq<byte>): (r: Option<(nat, seq<byte>)>)
    requires cursor <= |p|
    ensures r.Some? ==> cursor < r.value.0 <= |p|
    decreases |p| - cursor
  {
    if cursor >= |p| then None
    else if p[cursor] == 0 then
      match ChunkEnd(p, cursor + 1) case None => None case Some(end) => Some((end, cname))
    else if cursor + 1 >= |p| || p[cursor + 1] > |p| - cursor - 2 then None
    else
      var end := cursor + 2 + p[cursor + 1];
      if p[cursor] == 1 && own then
        match Named(cname, p[cursor + 2..end]) case None => None case Some(name) => Items(p, end, own, name)
      else Items(p, end, own, cname)
  }

  function Chunks(p: seq<byte>, cursor: nat, count: nat, ssrc: uint32, cname: seq<byte>): Option<seq<byte>>
    requires cursor <= |p|
    decreases count
  {
    if count == 0 then (if cursor == |p| then Some(cname) else None)
    else if |p| - cursor < 4 || Get32(p, cursor) == 0 then None
    else match Items(p, cursor + 4, Get32(p, cursor) == ssrc, cname)
      case None => None
      case Some(next) => Chunks(p, next.0, count - 1, ssrc, next.1)
  }

  function ParseSdes(v: View, ssrc: uint32, cname: seq<byte>): Option<seq<byte>>
    requires 4 <= |v.packet|
  {
    if v.count == 0 then None else Chunks(v.packet, 4, v.count, ssrc, cname)
  }

  // ----- NACK -----

  function NackEntries(p: seq<byte>, n: nat): seq<RtcpNack>
    requires 12 + 4 * n <= |p|
  {
    if n == 0 then []
    else
      NackEntries(p, n - 1) + [RtcpNack(Get32(p, 4), Get32(p, 8), Get16(p, 8 + 4 * n), Get16(p, 10 + 4 * n))]
  }

  function ParseNack(v: View): Option<seq<RtcpNack>> {
    if |v.packet| < 16 || |v.packet| % 4 != 0 || Get32(v.packet, 4) == 0 then None
    else Some(NackEntries(v.packet, (|v.packet| - 12) / 4))
  }

  // ----- PLI and FIR -----

  function ParsePli(v: View): Option<RtcpPli> {
    if |v.packet| != 12 || Get32(v.packet, 4) == 0 then None else Some(RtcpPli(Get32(v.packet, 4), Get32(v.packet, 8)))
  }

  /** Entry n of a FIR packet, counted from 1; a zero target or a reserved byte that is set is refused. */
  function FirEntry(p: seq<byte>, n: nat): Option<RtcpFir>
    requires 0 < n && 12 + 8 * n <= |p|
  {
    var at := 4 + 8 * n;
    if Get32(p, at) == 0 || p[at + 5] != 0 || p[at + 6] != 0 || p[at + 7] != 0 then None
    else Some(RtcpFir(Get32(p, 4), Get32(p, at), p[at + 4]))
  }

  function FirEntries(p: seq<byte>, n: nat): Option<seq<RtcpFir>>
    requires 12 + 8 * n <= |p|
  {
    if n == 0 then Some([])
    else
      match FirEntries(p, n - 1)
      case None => None
      case Some(firs) => if FirEntry(p, n).None? then None else Some(firs + [FirEntry(p, n).value])
  }

  function ParseFir(v: View): Option<seq<RtcpFir>> {
    if |v.packet| < 20 || (|v.packet| - 12) % 8 != 0 || Get32(v.packet, 4) == 0 || Get32(v.packet, 8) != 0 then None
    else FirEntries(v.packet, (|v.packet| - 12) / 8)
  }

  // ----- compounds -----

  /** One more report: of each kind one, and all of the same source. */
  function WithReport(p: Progress, report: Report): Option<Progress> {
    var sender := report.info.Some?;
    if (if sender then p.contents.senderReport else p.contents.receiverReport).Some? then None
    else if p.ssrc != 0 && p.ssrc != report.senderSsrc then None
    else
      Some(Progress(if sender then p.contents.(senderReport := Some(report)) else p.contents.(receiverReport := Some(report)),
                    if p.ssrc == 0 then report.senderSsrc else p.ssrc, false))
  }

  /** One packet of the compound. */
  function Step(others: Others, p: Progress, v: View): Option<Progress>
    requires 4 <= |v.packet|
  {
    if p.first && v.kind != SENDER_REPORT && v.kind != RECEIVER_REPORT then None
    else if v.kind == SENDER_REPORT || v.kind == RECEIVER_REPORT then
      match ParseReport(v, v.kind == SENDER_REPORT)
      case None => None
      case Some(report) => WithReport(p, report)
    else if v.kind == SDES then
      match ParseSdes(v, p.ssrc, p.contents.cname)
      case None => None
      case Some(cname) => Some(p.(contents := p.contents.(cname := cname)))
    else if v.kind == RTP_FEEDBACK && v.count == FMT_NACK then
      match ParseNack(v)
      case None => None
      case Some(nacks) => Some(p.(contents := p.contents.(nacks := p.contents.nacks + nacks)))
    else if v.kind == PAYLOAD_FEEDBACK && v.count == FMT_PLI then
      match ParsePli(v)
      case None => None
      case Some(pli) => Some(p.(contents := p.contents.(plis := p.contents.plis + [pli])))
    else if v.kind == PAYLOAD_FEEDBACK && v.count == FMT_FIR then
      match ParseFir(v)
      case None => None
      case Some(firs) => Some(p.(contents := p.contents.(firs := p.contents.firs + firs)))
    else if others(v) then Some(p) else None
  }

  function DecodeFrom(others: Others, p: Progress, rest: seq<byte>): Option<Progress>
    decreases |rest|
  {
    if rest == [] then Some(p)
    else match ReadPacket(rest)
      case None => None
      case Some(v) =>
        match Step(others, p, v)
        case None => None
        case Some(next) => DecodeFrom(others, next, rest[v.size..])
  }

  /** DecodeRtcpCompound; a CNAME of the sender is required. */
  function Decoded(others: Others, b: seq<byte>): Option<Contents> {
    if b == [] || |b| % 4 != 0 then None
    else match DecodeFrom(others, Progress(NOTHING, 0, true), b)
      case None => None
      case Some(p) => if p.first || p.ssrc == 0 || p.contents.cname == [] then None else Some(p.contents)
  }

  // ----- the loops -----

  /** The blocks, or nothing when one of them has a zero source. */
  method ReadBlocks(packet: seq<byte>, start: nat, count: nat) returns (r: Option<seq<ReportBlock>>)
    requires start + 24 * count <= |packet|
    ensures r.None? <==> SomeZeroSource(BlocksAt(packet, start, count))
    ensures r.Some? ==> r.value == BlocksAt(packet, start, count)
  {
    hide BlockAt;
    var blocks: seq<ReportBlock>, cursor := [], start;
    ghost var all := BlocksAt(packet, start, count);
    for i := 0 to count
      invariant cursor == start + 24 * i && blocks == BlocksAt(packet, start, i)
      invariant forall j :: 0 <= j < i ==> blocks[j].sourceSsrc != 0
    {
      BlocksPrefix(packet, start, i + 1, count, i);
      var block := BlockAt(packet, cursor);
      assert all[i] == block;
      if block.sourceSsrc == 0 { return None; }
      blocks := blocks + [block];
      cursor := cursor + 24;
    }
    return Some(blocks);
  }

  method ReadReport(v: View, sender: bool) returns (r: Option<Report>)
    ensures r == ParseReport(v, sender)
  {
    hide BlocksAt, SomeZeroSource;
    var start := if sender then 28 else 8;
    if |v.packet| != start + 24 * v.count { return None; }
    var ssrc := Get32(v.packet, 4);
    if ssrc == 0 { return None; }
    var info: Option<SenderInfo> := None;
    if sender {
      info := Some(SenderInfo(Get32(v.packet, 8), Get32(v.packet, 12), Get32(v.packet, 16), Get32(v.packet, 20),
                              Get32(v.packet, 24)));
    }
    var blocks := ReadBlocks(v.packet, start, v.count);
    return if blocks.None? then None else Some(Report(ssrc, info, blocks.value));
  }

  lemma {:induction false} BlocksPrefix(b: seq<byte>, p: nat, n: nat, count: nat, i: nat)
    requires i < n <= count && p + 24 * count <= |b|
    ensures BlocksAt(b, p, n)[i] == BlocksAt(b, p, count)[i]
  {
    if n < count { BlocksPrefix(b, p, n, count - 1, i); }
  }

  method ReadSdes(v: View, ssrc: uint32, before: seq<byte>) returns (r: Option<seq<byte>>)
    requires 4 <= |v.packet|
    ensures r == ParseSdes(v, ssrc, before)
  {
    hide Items;
    if v.count == 0 { return None; }
    var p, cname, cursor: nat := v.packet, before, 4;
    for chunk := 0 to v.count
      invariant cursor <= |p|
      invariant Chunks(p, cursor, v.count - chunk, ssrc, cname) == Chunks(p, 4, v.count, ssrc, before)
    {
      if |p| - cursor < 4 { return None; }
      var source := Get32(p, cursor);
      if source == 0 { return None; }
      var next := ReadItems(p, cursor + 4, source == ssrc, cname);
      if next.None? { return None; }
      cursor, cname := next.value.0, next.value.1;
    }
    return if cursor == |p| then Some(cname) else None;
  }

  method ReadItems(p: seq<byte>, start: nat, own: bool, before: seq<byte>) returns (r: Option<(nat, seq<byte>)>)
    requires start <= |p|
    ensures r == Items(p, start, own, before)
  {
    var cursor, cname := start, before;
    while cursor < |p|
      invariant cursor <= |p| && Items(p, cursor, own, cname) == Items(p, start, own, before)
    {
      var kind := p[cursor];
      if kind == 0 {
        cursor := cursor + 1;
        ghost var end := ChunkEnd(p, cursor);
        while cursor % 4 != 0
          invariant cursor <= |p| && ChunkEnd(p, cursor) == end
          decreases |p| - cursor
        {
          if cursor >= |p| || p[cursor] != 0 { return None; }
          cursor := cursor + 1;
        }
        return Some((cursor, cname));
      }
      if cursor + 1 >= |p| { return None; }
      var length := p[cursor + 1];
      if length > |p| - cursor - 2 { return None; }
      if kind == 1 && own {
        var value := p[cursor + 2..cursor + 2 + length];
        if length == 0 || (cname != [] && cname != value) { return None; }
        cname := value;
      }
      cursor := cursor + 2 + length;
    }
    return None;
  }

  lemma NextEntry(p: seq<byte>, n: nat)
    requires 16 + 4 * n <= |p|
    ensures NackEntries(p, n + 1)
         == NackEntries(p, n) + [RtcpNack(Get32(p, 4), Get32(p, 8), Get16(p, 12 + 4 * n), Get16(p, 14 + 4 * n))]
  {
  }

  method ReadNack(v: View) returns (r: Option<seq<RtcpNack>>)
    ensures r == ParseNack(v)
  {
    var p := v.packet;
    if |p| < 16 || |p| % 4 != 0 { return None; }
    assert NackEntries(p, 0) == [];
    hide NackEntries, Get16, Get32;
    var senderSsrc, mediaSsrc := Get32(p, 4), Get32(p, 8);
    if senderSsrc == 0 { return None; }
    var nacks: seq<RtcpNack>, cursor := [], 12;
    ghost var n := 0;
    while cursor < |p|
      invariant cursor == 12 + 4 * n <= |p| && nacks == NackEntries(p, n)
    {
      NextEntry(p, n);
      nacks := nacks + [RtcpNack(senderSsrc, mediaSsrc, Get16(p, cursor), Get16(p, cursor + 2))];
      cursor := cursor + 4;
      n := n + 1;
    }
    return Some(nacks);
  }

  lemma {:induction false} FirEntriesStop(p: seq<byte>, n: nat, all: nat)
    requires n <= all && 12 + 8 * all <= |p| && FirEntries(p, n).None?
    ensures FirEntries(p, all).None?
  {
    if n < all { FirEntriesStop(p, n, all - 1); }
  }

  method ReadFir(v: View) returns (r: Option<seq<RtcpFir>>)
    ensures r == ParseFir(v)
  {
    hide FirEntry;
    var p := v.packet;
    if |p| < 20 || (|p| - 12) % 8 != 0 { return None; }
    if Get32(p, 4) == 0 || Get32(p, 8) != 0 { return None; }
    var firs: seq<RtcpFir>, cursor := [], 12;
    ghost var n := 0;
    while cursor < |p|
      invariant cursor == 12 + 8 * n <= |p| && FirEntries(p, n) == Some(firs)
    {
      var entry := ReadFirEntry(p, cursor, n + 1);
      if entry.None? {
        FirEntriesStop(p, n + 1, (|p| - 12) / 8);
        return None;
      }
      firs := firs + [entry.value];
      cursor := cursor + 8;
      n := n + 1;
    }
    return Some(firs);
  }

  method ReadFirEntry(p: seq<byte>, cursor: nat, ghost n: nat) returns (entry: Option<RtcpFir>)
    requires 0 < n && cursor == 4 + 8 * n && cursor + 8 <= |p|
    ensures entry == FirEntry(p, n)
  {
    var target := Get32(p, cursor);
    if target == 0 || p[cursor + 5] != 0 || p[cursor + 6] != 0 || p[cursor + 7] != 0 { return None; }
    return Some(RtcpFir(Get32(p, 4), target, p[cursor + 4]));
  }

  method ReadPacketAt(b: seq<byte>, offset: nat) returns (r: Option<View>)
    requires offset <= |b|
    ensures r == ReadPacket(b[offset..])
  {
    ghost var rest := b[offset..];
    if |b| - offset < 4 || b[offset] / 64 != 2 { return None; }
    assert rest[2..4] == b[offset + 2..offset + 4];
    var size := (Get16(b, offset + 2) + 1) * 4;
    if size > |b| - offset { return None; }
    var end, padding := offset + size, 0;
    if b[offset] / 32 % 2 == 1 {
      if end != |b| { return None; }
      padding := b[end - 1];
      if padding == 0 || padding > size - 4 { return None; }
    }
    assert rest[..size - padding] == b[offset..end - padding];
    return Some(View(b[offset..end - padding], size, b[offset] % 32, b[offset + 1]));
  }

  method ReadPli(v: View) returns (r: Option<RtcpPli>)
    ensures r == ParsePli(v)
  {
    if |v.packet| != 12 { return None; }
    var senderSsrc, mediaSsrc := Get32(v.packet, 4), Get32(v.packet, 8);
    return if senderSsrc == 0 then None else Some(RtcpPli(senderSsrc, mediaSsrc));
  }

  method DecodeRtcpCompound(others: Others, b: seq<byte>) returns (r: Option<Contents>)
    ensures r == Decoded(others, b)
  {
    hide Step, ReadPacket;
    if b == [] || |b| % 4 != 0 { return None; }
    var p, offset := Progress(NOTHING, 0, true), 0;
    assert b[0..] == b;
    while offset < |b|
      invariant offset <= |b|
      invariant DecodeFrom(others, p, b[offset..]) == DecodeFrom(others, Progress(NOTHING, 0, true), b)
    {
      var view := ReadPacketAt(b, offset);
      if view.None? { return None; }
      var next := TakePacket(others, p, view.value);
      if next.None? { return None; }
      assert b[offset..][view.value.size..] == b[offset + view.value.size..];
      p, offset := next.value, offset + view.value.size;
    }
    if p.first || p.ssrc == 0 || p.contents.cname == [] { return None; }
    return Some(p.contents);
  }

  method TakePacket(others: Others, p: Progress, v: View) returns (r: Option<Progress>)
    requires 4 <= |v.packet|
    ensures r == Step(others, p, v)
  {
    if p.first && v.kind != SENDER_REPORT && v.kind != RECEIVER_REPORT { return None; }
    if v.kind == SENDER_REPORT || v.kind == RECEIVER_REPORT {
      var report := ReadReport(v, v.kind == SENDER_REPORT);
      if report.None? { return None; }
      var contents := p.contents;
      if v.kind == SENDER_REPORT {
        if contents.senderReport.Some? { return None; }
        contents := contents.(senderReport := report);
      } else {
        if contents.receiverReport.Some? { return None; }
        contents := contents.(receiverReport := report);
      }
      if p.ssrc != 0 && p.ssrc != report.value.senderSsrc { return None; }
      return Some(Progress(contents, report.value.senderSsrc, false));
    } else if v.kind == SDES {
      var cname := ReadSdes(v, p.ssrc, p.contents.cname);
      return if cname.None? then None else Some(p.(contents := p.contents.(cname := cname.value)));
    } else if v.kind == RTP_FEEDBACK && v.count == FMT_NACK {
      var nacks := ReadNack(v);
      return if nacks.None? then None else Some(p.(contents := p.contents.(nacks := p.contents.nacks + nacks.value)));
    } else if v.kind == PAYLOAD_FEEDBACK && v.count == FMT_PLI {
      var pli := ReadPli(v);
      return if pli.None? then None else Some(p.(contents := p.contents.(plis := p.contents.plis + [pli.value])));
    } else if v.kind == PAYLOAD_FEEDBACK && v.count == FMT_FIR {
      var firs := ReadFir(v);
      return if firs.None? then None else Some(p.(contents := p.contents.(firs := p.contents.firs + firs.value)));
    }
    return if others(v) then Some(p) else None;
  }
}
