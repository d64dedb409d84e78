/** The EFU codec is a bijection between accepted byte strings and well-formed EFUs. */
module EfuCodec {
  import opened Options
  import opened Bytes
  import opened Wire
  import opened RtpFragment
  import opened Tlv
  import opened MediaUnit

  // ----- the fields of what was written -----

  lemma CommonFields(unitType: byte, headerLength: uint16, unitLength: uint32, unitId: uint32, configId: uint32,
                     flags: uint32, rest: seq<byte>)
    ensures var b := CommonBytes(unitType, headerLength, unitLength, unitId, configId, flags) + rest;
            && b[0] == 1 && b[1] == unitType && Get16(b, 2) == headerLength && Get32(b, 4) == unitLength
            && Get32(b, 8) == unitId && Get32(b, 12) == configId && Get32(b, 16) == flags
  {
    hide BigEndian;
    var b := CommonBytes(unitType, headerLength, unitLength, unitId, configId, flags) + rest;
    var p := [1, unitType];
    var n, length, unit, config, bits := U16(headerLength), U32(unitLength), U32(unitId), U32(configId), U32(flags);
    assert b == p + n + (length + unit + config + bits + rest);
    assert b == p + n + length + (unit + config + bits + rest);
    assert b == p + n + length + unit + (config + bits + rest);
    assert b == p + n + length + unit + config + (bits + rest);
    assert b == p + n + length + unit + config + bits + rest;
    Get16Put(p, headerLength, length + unit + config + bits + rest);
    Get32Put(p + n, unitLength, unit + config + bits + rest);
    Get32Put(p + n + length, unitId, config + bits + rest);
    Get32Put(p + n + length + unit, configId, bits + rest);
    Get32Put(p + n + length + unit + config, flags, rest);
  }

  lemma Get64Put(before: seq<byte>, v: int64, after: seq<byte>)
    requires 0 <= v
    ensures Get64(before + U64(v) + after, |before|) == v
  {
    Widths();
    ValueOfBigEndian(v, 8);
    assert (before + U64(v) + after)[|before|..|before| + 8] == U64(v);
  }

  lemma FixedFieldsWritten(front: seq<byte>, e: Efu, size: uint32, crc: uint32, rest: seq<byte>)
    requires |front| == 20 && 0 <= e.pts
    ensures var b := front + FixedBytes(e, size, crc) + rest;
            && b[20] == e.frameType && b[21] == e.entropyQ && b[22] == e.modelQ && b[23] == e.temporalId
            && Get64(b, 24) == e.pts && Get32(b, 32) == e.shortRef && Get32(b, 36) == e.longRef
            && Get32(b, 40) == size && Get32(b, 44) == crc && Get32(b, 48) == 0
  {
    hide BigEndian;
    var b := front + FixedBytes(e, size, crc) + rest;
    var p := front + [e.frameType, e.entropyQ, e.modelQ, e.temporalId];
    var pts, near, far, n, sum, zero := U64(e.pts), U32(e.shortRef), U32(e.longRef), U32(size), U32(crc), U32(0);
    assert b == p + pts + (near + far + n + sum + zero + rest);
    assert b == p + pts + near + (far + n + sum + zero + rest);
    assert b == p + pts + near + far + (n + sum + zero + rest);
    assert b == p + pts + near + far + n + (sum + zero + rest);
    assert b == p + pts + near + far + n + sum + (zero + rest);
    assert b == p + pts + near + far + n + sum + zero + rest;
    Get64Put(p, e.pts, near + far + n + sum + zero + rest);
    Get32Put(p + pts, e.shortRef, far + n + sum + zero + rest);
    Get32Put(p + pts + near, e.longRef, n + sum + zero + rest);
    Get32Put(p + pts + near + far, size, sum + zero + rest);
    Get32Put(p + pts + near + far + n, crc, zero + rest);
    Get32Put(p + pts + near + far + n + sum, 0, rest);
  }

  lemma WithCrcFlags(flags: uint32)
    requires flags < 128 && !Has(flags, DISCARDABLE)
    ensures var f := WithCrc(flags);
            && f < 128 && Has(f, CRC_PRESENT) && !Has(f, DISCARDABLE)
            && (Has(f, RANDOM_ACCESS) <==> Has(flags, RANDOM_ACCESS)) && (Has(f, RESET_REFERENCE) <==> Has(flags, RESET_REFERENCE))
            && (Has(f, TRANSLATION_WARP_FLAG) <==> Has(flags, TRANSLATION_WARP_FLAG))
  {
  }

  /** The EFU that comes back: the CRC flag is set. */
  function Flagged(e: Efu): Efu
    requires e.flags < 128
  {
    e.(flags := WithCrc(e.flags))
  }

  lemma GeometryReturns(e: Efu)
    requires Serializable(e)
    ensures Translated(Flagged(e).(payload := WirePayload(e), kx := 0, ky := 0)) == Some(Flagged(e))
  {
    WithCrcFlags(e.flags);
    if HasGeometry(e) {
      assert WirePayload(e)[2..] == e.payload;
    }
  }

  lemma FlaggedValid(e: Efu)
    requires Serializable(e)
    ensures WarpOk(Flagged(e), Has(Flagged(e).flags, TRANSLATION_WARP_FLAG)) && ReferencesOk(Flagged(e))
  {
    WithCrcFlags(e.flags);
  }

  /** Header, metadata and areas of a serialized EFU, as the parser sees them. */
  lemma SerializedLayout(crc: Crc, e: Efu)
    requires Serializable(e)
    ensures var b, wire := Serialized(crc, e), WirePayload(e);
            && EfuHeaderOk(b) && MetadataOk(b) && Get16(b, 2) == HeaderSize(e) && b[52..HeaderSize(e)] == AreaBytes(e.tlvs)
            && b[HeaderSize(e)..] == wire && Get32(b, 44) == crc(wire)
            && FixedFields(b, e.tlvs, wire) == Flagged(e).(payload := wire, kx := 0, ky := 0)
  {
    hide CommonBytes, FixedBytes, Get16, Get32, Get64, BigEndian, AreaBytes;
    var wire, area := WirePayload(e), AreaBytes(e.tlvs);
    var n := HeaderSize(e);
    var common := CommonBytes(EFU, n, n + |wire|, e.frameId, e.configId, WithCrc(e.flags));
    var fixed := FixedBytes(e, |wire|, crc(wire));
    var b := Serialized(crc, e);
    WithCrcFlags(e.flags);
    CommonFields(EFU, n, n + |wire|, e.frameId, e.configId, WithCrc(e.flags), fixed + area + wire);
    FixedFieldsWritten(common, e, |wire|, crc(wire), area + wire);
    assert b == common + (fixed + area + wire);
    assert b == common + fixed + (area + wire);
    assert b[52..n] == area;
    assert b[n..] == wire;
  }

  /** Parsing what was serialized gives the EFU back, with the CRC flag set, exactly when no semantic TLV
      is repeated; SerializeEfu does not check that, ParseEfu does. */
  lemma ParseUndoesSerialize(crc: Crc, e: Efu)
    requires Serializable(e)
    ensures ParsedEfu(crc, Serialized(crc, e)) == if Unrepeated(e.tlvs, {}) then Accepted(Flagged(e)) else Malformed
  {
    hide Serialized, EfuHeaderOk, MetadataOk, FixedFields, WarpOk, ReferencesOk, AreaBytes;
    SerializedLayout(crc, e);
    ParseWritten(e.tlvs, {});
    GeometryReturns(e);
    FlaggedValid(e);
  }

  // ----- the bytes of what was read -----

  lemma CommonRebuilt(b: seq<byte>)
    requires |b| >= 20 && b[0] == 1
    ensures CommonBytes(b[1], Get16(b, 2), Get32(b, 4), Get32(b, 8), Get32(b, 12), Get32(b, 16)) == b[..20]
  {
    hide BigEndian;
    Put16Get(b, 2);
    Put32Get(b, 4);
    Put32Get(b, 8);
    Put32Get(b, 12);
    Put32Get(b, 16);
    assert b[..20] == [b[0], b[1]] + b[2..4] + b[4..8] + b[8..12] + b[12..16] + b[16..20];
  }

  lemma Put64Get(b: seq<byte>, p: nat)
    requires p + 8 <= |b| && 0 <= Get64(b, p)
    ensures U64(Get64(b, p)) == b[p..p + 8]
  {
    Widths();
    BigEndianOfValue(b[p..p + 8]);
  }

  lemma FixedRebuilt(b: seq<byte>, tlvs: seq<Entry>, payload: seq<byte>)
    requires |b| >= EFU_FIXED_BYTES && Get32(b, 48) == 0 && 0 <= Get64(b, 24)
    ensures FixedBytes(FixedFields(b, tlvs, payload), Get32(b, 40), Get32(b, 44)) == b[20..52]
  {
    hide BigEndian;
    Put64Get(b, 24);
    Put32Get(b, 32);
    Put32Get(b, 36);
    Put32Get(b, 40);
    Put32Get(b, 44);
    Put32Get(b, 48);
    assert b[20..52] == [b[20], b[21], b[22], b[23]] + b[24..32] + b[32..36] + b[36..40] + b[40..44] + b[44..48] + b[48..52];
  }

  lemma SignedBytes(b: byte)
    ensures Unsigned8(Signed8(b)) == b
  {
  }

  /** Undoing the geometry split. */
  lemma WireRebuilt(e: Efu, t: Efu)
    requires e.kx == 0 && e.ky == 0 && Translated(e) == Some(t)
    ensures WirePayload(t) == e.payload && FixedSame(e, t)
  {
    if HasGeometry(e) {
      SignedBytes(e.payload[0]);
      SignedBytes(e.payload[1]);
      assert [e.payload[0], e.payload[1]] + e.payload[2..] == e.payload;
    }
  }

  predicate FixedSame(e: Efu, t: Efu) {
    t == e.(kx := t.kx, ky := t.ky, payload := t.payload)
  }

  lemma FixedSameBytes(e: Efu, t: Efu, size: uint32, crc: uint32)
    requires FixedSame(e, t) && 0 <= e.pts
    ensures FixedBytes(t, size, crc) == FixedBytes(e, size, crc)
  {
  }

  /** What an accepted byte string is made of. */
  lemma AcceptedParts(crc: Crc, b: seq<byte>) returns (raw: Efu)
    requires ParsedEfu(crc, b).Accepted?
    ensures EfuHeaderOk(b) && MetadataOk(b)
    ensures var e, n := ParsedEfu(crc, b).efu, Get16(b, 2);
            && raw == FixedFields(b, e.tlvs, b[n..]) && Translated(raw) == Some(e) && crc(b[n..]) == Get32(b, 44)
            && ParseArea(b[EFU_FIXED_BYTES..n], {}) == Some(e.tlvs)
            && WarpOk(e, Has(e.flags, TRANSLATION_WARP_FLAG)) && ReferencesOk(e)
  {
    var n := Get16(b, 2);
    raw := FixedFields(b, ParsedEfu(crc, b).efu.tlvs, b[n..]);
  }

  /** Serializing what was parsed: every accepted EFU is serializable, and gives the same bytes. */
  lemma SerializeUndoesParse(crc: Crc, b: seq<byte>)
    requires ParsedEfu(crc, b).Accepted?
    ensures var e := ParsedEfu(crc, b).efu;
            Serializable(e) && Serialized(crc, e) == b && Unrepeated(e.tlvs, {}) && Flagged(e) == e
  {
    hide ParsedEfu, CommonBytes, FixedBytes, Get16, Get32, Get64, BigEndian, AreaBytes, WarpOk, ReferencesOk, ParseArea;
    var raw := AcceptedParts(crc, b);
    var e, n := ParsedEfu(crc, b).efu, Get16(b, 2);
    WriteParsed(b[EFU_FIXED_BYTES..n], {});
    WireRebuilt(raw, e);
    FixedSameBytes(raw, e, Get32(b, 40), Get32(b, 44));
    CommonRebuilt(b);
    FixedRebuilt(b, e.tlvs, b[n..]);
    assert HeaderSize(e) == n;
    assert b == b[..20] + b[20..52] + b[52..n] + b[n..];
  }
}
