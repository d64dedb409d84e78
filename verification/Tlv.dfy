/** The TLV area of a media-unit header: padded entries, written and read in loops. */
module Tlv {
  import opened Options
  import opened Bytes
  import opened Wire
  import opened RtpFragment

  datatype Entry = Entry(tag: uint16, value: seq<byte>)

  const CODEC_BUNDLE_SHA256: uint16 := 0x8001
  const PROFILE_NAME: uint16 := 0x0002
  const COLORIMETRY: uint16 := 0x0003
  const NOMINAL_POLICY: uint16 := 0x0004
  const VENDOR_DATA: uint16 := 0x0005
  const TRANSLATION_WARP: uint16 := 0x8006
  const CRITICAL: nat := 0x8000

  predicate Known(tag: uint16) {
    tag in {CODEC_BUNDLE_SHA256, PROFILE_NAME, COLORIMETRY, NOMINAL_POLICY, VENDOR_DATA, TRANSLATION_WARP}
  }

  /** Tags that may appear once. */
  predicate Semantic(tag: uint16) {
    tag in {CODEC_BUNDLE_SHA256, COLORIMETRY, NOMINAL_POLICY, TRANSLATION_WARP}
  }

  /** What both PutTlv and ParseTlvs ask of one entry. */
  predicate Acceptable(e: Entry) {
    && |e.value| <= 0xFFFF
    && (e.tag == TRANSLATION_WARP ==> e.value == [1])
    && (Has(e.tag, CRITICAL) ==> Known(e.tag))
    && (e.tag == CODEC_BUNDLE_SHA256 ==> |e.value| == 32)
    && (e.tag == COLORIMETRY ==> |e.value| == 4)
    && (e.tag == NOMINAL_POLICY ==> |e.value| == 16)
  }

  /** Bytes missing to a multiple of four. */
  function Pad(n: nat): (p: nat)
    ensures p < 4 && (n + p) % 4 == 0
  {
    (4 - n % 4) % 4
  }

  function EntryBytes(e: Entry): (b: seq<byte>)
    requires |e.value| <= 0xFFFF
    ensures |b| == 4 + |e.value| + Pad(|e.value|) && |b| % 4 == 0
  {
    U16(e.tag) + U16(|e.value|) + e.value + Zeros(Pad(|e.value|))
  }

  predicate AllAcceptable(entries: seq<Entry>) {
    forall i :: 0 <= i < |entries| ==> Acceptable(entries[i])
  }

  function AreaBytes(entries: seq<Entry>): (b: seq<byte>)
    requires AllAcceptable(entries)
    ensures |b| % 4 == 0
  {
    if entries == [] then []
    else
      assert Acceptable(entries[0]);
      var first, rest := EntryBytes(entries[0]), AreaBytes(entries[1..]);
      FoursAdd(|first|, |rest|);
      first + rest
  }

  lemma FoursAdd(a: nat, b: nat)
    requires a % 4 == 0 && b % 4 == 0
    ensures (a + b) % 4 == 0
  {
  }

  /** The first entry of a non-empty area, if it is complete, zero-padded and acceptable. */
  function FirstEntry(b: seq<byte>): (e: Option<Entry>)
    requires b != []
    ensures e.Some? ==> Acceptable(e.value) && |EntryBytes(e.value)| <= |b|
  {
    if |b| < 4 then None
    else
      var n := Get16(b, 2);
      if 4 + n + Pad(n) > |b| || b[4 + n..4 + n + Pad(n)] != Zeros(Pad(n)) || !Acceptable(Entry(Get16(b, 0), b[4..4 + n]))
      then None else Some(Entry(Get16(b, 0), b[4..4 + n]))
  }

  function Marked(seen: set<uint16>, tag: uint16): set<uint16> {
    if Semantic(tag) then seen + {tag} else seen
  }

  /** Reads entries until the area is used up; seen holds the semantic tags met before. */
  function ParseArea(b: seq<byte>, seen: set<uint16>): Option<seq<Entry>>
    decreases |b|
  {
    if b == [] then Some([])
    else match FirstEntry(b)
      case None => None
      case Some(e) =>
        if Semantic(e.tag) && e.tag in seen then None
        else match ParseArea(b[|EntryBytes(e)|..], Marked(seen, e.tag))
          case None => None
          case Some(rest) => Some([e] + rest)
  }

  /** No semantic tag twice, nor one already seen. */
  predicate Unrepeated(entries: seq<Entry>, seen: set<uint16>) {
    forall j :: 0 <= j < |entries| && Semantic(entries[j].tag) ==>
      entries[j].tag !in seen && forall i :: 0 <= i < j ==> entries[i].tag != entries[j].tag
  }

  // ----- round trips -----

  lemma FirstOfBytes(e: Entry, rest: seq<byte>)
    requires Acceptable(e)
    ensures FirstEntry(EntryBytes(e) + rest) == Some(e)
  {
    var n := |e.value|;
    var b := EntryBytes(e) + rest;
    assert b == [] + U16(e.tag) + (U16(n) + e.value + Zeros(Pad(n)) + rest);
    assert b == U16(e.tag) + U16(n) + (e.value + Zeros(Pad(n)) + rest);
    Get16Put([], e.tag, U16(n) + e.value + Zeros(Pad(n)) + rest);
    Get16Put(U16(e.tag), n, e.value + Zeros(Pad(n)) + rest);
    assert b[4..4 + n] == e.value;
    assert b[4 + n..4 + n + Pad(n)] == Zeros(Pad(n));
  }

  lemma Rejoined(b: seq<byte>, n: nat, m: nat)
    requires 4 <= n <= m <= |b|
    ensures b[0..2] + b[2..4] + b[4..n] + b[n..m] + b[m..] == b
  {
  }

  lemma BytesOfFirst(b: seq<byte>)
    requires b != [] && FirstEntry(b).Some?
    ensures EntryBytes(FirstEntry(b).value) + b[|EntryBytes(FirstEntry(b).value)|..] == b
  {
    hide Get16, U16;
    var n := Get16(b, 2);
    Put16Get(b, 0);
    Put16Get(b, 2);
    Rejoined(b, 4 + n, 4 + n + Pad(n));
  }

  lemma UnrepeatedStep(e: Entry, rest: seq<Entry>, seen: set<uint16>)
    ensures Unrepeated([e] + rest, seen) <==> (Semantic(e.tag) ==> e.tag !in seen) && Unrepeated(rest, Marked(seen, e.tag))
  {
    var all := [e] + rest;
    if Unrepeated(all, seen) {
      assert all[0] == e;
      forall j | 0 <= j < |rest| && Semantic(rest[j].tag)
        ensures rest[j].tag !in Marked(seen, e.tag) && forall i :: 0 <= i < j ==> rest[i].tag != rest[j].tag
      {
        assert all[j + 1] == rest[j];
        forall i | 0 <= i < j ensures rest[i].tag != rest[j].tag { assert all[i + 1] == rest[i]; }
      }
    }
    if (Semantic(e.tag) ==> e.tag !in seen) && Unrepeated(rest, Marked(seen, e.tag)) {
      forall j | 0 <= j < |all| && Semantic(all[j].tag)
        ensures all[j].tag !in seen && forall i :: 0 <= i < j ==> all[i].tag != all[j].tag
      {
        if j > 0 {
          assert all[j] == rest[j - 1];
          forall i | 0 <= i < j ensures all[i].tag != all[j].tag {
            if i > 0 { assert all[i] == rest[i - 1]; }
          }
        }
      }
    }
  }

  /** Reading what was written: everything comes back, exactly when no semantic tag is repeated. */
  lemma {:induction false} ParseWritten(entries: seq<Entry>, seen: set<uint16>)
    requires AllAcceptable(entries)
    ensures ParseArea(AreaBytes(entries), seen) == if Unrepeated(entries, seen) then Some(entries) else None
    decreases |entries|
  {
    if entries != [] {
      var e, rest := entries[0], entries[1..];
      assert entries == [e] + rest;
      FirstOfBytes(e, AreaBytes(rest));
      UnrepeatedStep(e, rest, seen);
      assert AreaBytes(entries)[|EntryBytes(e)|..] == AreaBytes(rest);
      ParseWritten(rest, Marked(seen, e.tag));
    }
  }

  /** Writing what was read: the same bytes. */
  lemma {:induction false} WriteParsed(b: seq<byte>, seen: set<uint16>)
    requires ParseArea(b, seen).Some?
    ensures AllAcceptable(ParseArea(b, seen).value) && AreaBytes(ParseArea(b, seen).value) == b
    ensures Unrepeated(ParseArea(b, seen).value, seen)
    decreases |b|
  {
    if b != [] {
      var e := FirstEntry(b).value;
      var left := b[|EntryBytes(e)|..];
      BytesOfFirst(b);
      WriteParsed(left, Marked(seen, e.tag));
      var rest := ParseArea(left, Marked(seen, e.tag)).value;
      assert ParseArea(b, seen).value == [e] + rest && ([e] + rest)[1..] == rest;
      UnrepeatedStep(e, rest, seen);
    }
  }

  /** What decides is the list of tags alone: the four tags that may appear once. */
  lemma RepeatsDecide(entries: seq<Entry>)
    requires AllAcceptable(entries)
    ensures ParseArea(AreaBytes(entries), {}).Some? <==>
            forall i, j :: 0 <= i < j < |entries| && entries[i].tag == entries[j].tag ==>
              entries[i].tag !in {0x8001, 0x0003, 0x0004, 0x8006}
  {
    ParseWritten(entries, {});
    hide AllAcceptable;
    if forall i, j :: 0 <= i < j < |entries| && entries[i].tag == entries[j].tag ==>
         entries[i].tag !in {0x8001, 0x0003, 0x0004, 0x8006}
    {
      assert Unrepeated(entries, {});
    }
  }

  // ----- the loops -----

  /** The checks of PutTlv and ParseTlvs of one entry. */
  method CheckEntry(e: Entry) returns (ok: bool)
    ensures ok <==> Acceptable(e)
  {
    if |e.value| > 0xFFFF { return false; }
    var known := e.tag == CODEC_BUNDLE_SHA256 || e.tag == PROFILE_NAME || e.tag == COLORIMETRY || e.tag == NOMINAL_POLICY
                 || e.tag == VENDOR_DATA || e.tag == TRANSLATION_WARP;
    if e.tag == TRANSLATION_WARP && e.value != [1] { return false; }
    if e.tag >= 0x8000 && !known { return false; }
    return !((e.tag == CODEC_BUNDLE_SHA256 && |e.value| != 32) || (e.tag == COLORIMETRY && |e.value| != 4)
             || (e.tag == NOMINAL_POLICY && |e.value| != 16));
  }

  /** PutTlv: pads the whole buffer, which is aligned before every call. */
  method PutTlv(out: seq<byte>, e: Entry) returns (r: Option<seq<byte>>)
    requires |out| % 4 == 0
    ensures r.Some? <==> Acceptable(e)
    ensures r.Some? ==> r.value == out + EntryBytes(e)
  {
    hide BigEndian;
    var ok := CheckEntry(e);
    if !ok { return None; }
    var b := Put(out, e.tag, 2);
    b := Put(b, |e.value|, 2);
    b := b + e.value;
    ghost var unpadded := b;
    ghost var n := 0;
    while |b| % 4 != 0
      invariant n <= Pad(|e.value|) && b == unpadded + Zeros(n)
      decreases Pad(|e.value|) - n
    {
      b := b + [0];
      n := n + 1;
    }
    assert n == Pad(|e.value|);
    return Some(b);
  }

  method PutTlvs(entries: seq<Entry>) returns (r: Option<seq<byte>>)
    ensures r.Some? <==> AllAcceptable(entries)
    ensures r.Some? ==> r.value == AreaBytes(entries)
  {
    var b: seq<byte> := [];
    for i := 0 to |entries|
      invariant AllAcceptable(entries[..i]) && b == AreaBytes(entries[..i])
    {
      var next := PutTlv(b, entries[i]);
      if next.None? { return None; }
      AreaAppend(entries[..i], entries[i]);
      assert entries[..i] + [entries[i]] == entries[..i + 1];
      b := next.value;
    }
    assert entries[..|entries|] == entries;
    return Some(b);
  }

  lemma {:induction false} AreaAppend(entries: seq<Entry>, e: Entry)
    requires AllAcceptable(entries) && Acceptable(e)
    ensures AllAcceptable(entries + [e]) && AreaBytes(entries + [e]) == AreaBytes(entries) + EntryBytes(e)
  {
    hide EntryBytes;
    if entries == [] {
      assert [e][1..] == [] && AreaBytes([]) == [];
    } else {
      assert (entries + [e])[1..] == entries[1..] + [e];
      AreaAppend(entries[1..], e);
    }
  }

  /** One round of ParseTlvs up to the check for repeats. */
  method ReadEntry(unit: seq<byte>, offset: nat, end: nat) returns (r: Option<Entry>)
    requires offset < end <= |unit|
    ensures r == FirstEntry(unit[offset..end])
  {
    ghost var left := unit[offset..end];
    if end - offset < 4 { return None; }
    SliceOfSlice(unit, offset, end, 0, 2);
    SliceOfSlice(unit, offset, end, 2, 4);
    var tag, length := Get16(unit, offset), Get16(unit, offset + 2);
    var padded := length + Pad(length);
    if padded > end - offset - 4 { return None; }
    var padding := unit[offset + 4 + length..offset + 4 + padded];
    SliceOfSlice(unit, offset, end, 4 + length, 4 + padded);
    SliceOfSlice(unit, offset, end, 4, 4 + length);
    for i := 0 to |padding|
      invariant forall k :: 0 <= k < i ==> padding[k] == 0
    {
      if padding[i] != 0 {
        assert padding != Zeros(Pad(length));
        return None;
      }
    }
    assert padding == Zeros(Pad(length));
    var e := Entry(tag, unit[offset + 4..offset + 4 + length]);
    var ok := CheckEntry(e);
    return if ok then Some(e) else None;
  }

  method ParseTlvs(unit: seq<byte>, begin: nat, end: nat) returns (r: Option<seq<Entry>>)
    ensures end > |unit| || begin > end || end % 4 != 0 ==> r == None
    ensures end <= |unit| && begin <= end && end % 4 == 0 ==> r == ParseArea(unit[begin..end], {})
  {
    if end > |unit| || begin > end || end % 4 != 0 { return None; }
    var entries: seq<Entry>, unique: set<uint16>, offset := [], {}, begin;
    PrependedNothing(ParseArea(unit[begin..end], {}));
    while offset < end
      invariant begin <= offset <= end
      invariant ParseArea(unit[begin..end], {}) == Prepended(entries, ParseArea(unit[offset..end], unique))
    {
      var read := ReadEntry(unit, offset, end);
      if read.None? { return None; }
      var e := read.value;
      if Semantic(e.tag) {
        if e.tag in unique { return None; }
        unique := unique + {e.tag};
      }
      var next := offset + 4 + |e.value| + Pad(|e.value|);
      assert unit[offset..end][|EntryBytes(e)|..] == unit[next..end];
      PrependedTwice(entries, e, ParseArea(unit[next..end], unique));
      entries := entries + [e];
      offset := next;
    }
    assert entries + [] == entries;
    return Some(entries);
  }

  lemma PrependedNothing(rest: Option<seq<Entry>>)
    ensures Prepended([], rest) == rest
  {
    if rest.Some? { assert [] + rest.value == rest.value; }
  }

  function Prepended(front: seq<Entry>, rest: Option<seq<Entry>>): Option<seq<Entry>> {
    if rest.None? then None else Some(front + rest.value)
  }

  lemma PrependedTwice(front: seq<Entry>, e: Entry, rest: Option<seq<Entry>>)
    ensures Prepended(front + [e], rest) == Prepended(front, Prepended([e], rest))
  {
    if rest.Some? { assert front + [e] + rest.value == front + ([e] + rest.value); }
  }
}
