/** MLVC media units: the common header, and the encoded-frame unit (EFU) as it is written and read. */
module MediaUnit {
  import opened Options
  import opened Bytes
  import opened Wire
  import opened RtpFragment
  import opened Tlv

  /** CRC-32C, a parameter. */
  type Crc = seq<byte> -> uint32

  const EFU_FIXED_BYTES: nat := 52
  const HEADER_MAX_BYTES: nat := 65536

  const RANDOM_ACCESS: nat := 1
  const RESET_REFERENCE: nat := 2
  const DISCARDABLE: nat := 8
  const CRC_PRESENT: nat := 32
  const TRANSLATION_WARP_FLAG: nat := 64

  datatype Efu = Efu(
    configId: uint32, frameId: uint32, flags: uint32, frameType: byte, entropyQ: byte, modelQ: byte, temporalId: byte,
    pts: int64, shortRef: uint32, longRef: uint32, tlvs: seq<Entry>, payload: seq<byte>, kx: int8, ky: int8)

  // ----- serial numbers -----

  datatype SerialOrder = Same | Newer | Older | Ambiguous

  /** CompareMlvcSerial32: the distance modulo 2^32. */
  function CompareSerial(candidate: uint32, current: uint32): SerialOrder {
    var distance := (candidate - current) % 0x1_0000_0000;
    if distance == 0 then Same
    else if distance == 0x8000_0000 then Ambiguous
    else if distance < 0x8000_0000 then Newer else Older
  }

  // ----- what an EFU must satisfy -----

  predicate ReferencesOk(e: Efu) {
    var random, reset := Has(e.flags, RANDOM_ACCESS), Has(e.flags, RESET_REFERENCE);
    if e.frameType == 0 then random && reset && e.shortRef == NO_REFERENCE && e.longRef == NO_REFERENCE
    else
      && !random
      && (e.frameType == 1 ==> e.longRef == NO_REFERENCE)
      && (reset ==> e.shortRef == NO_REFERENCE)
      && (e.frameType == 1 && !reset ==> e.shortRef != NO_REFERENCE)
      && (e.frameType == 2 ==> e.longRef != NO_REFERENCE && e.shortRef == NO_REFERENCE)
      && (e.shortRef != NO_REFERENCE ==> CompareSerial(e.frameId, e.shortRef) == Newer)
      && (e.longRef != NO_REFERENCE ==> CompareSerial(e.frameId, e.longRef) == Newer)
  }

  /** ValidateEfuTranslationWarp */
  predicate WarpOk(e: Efu, warp: bool) {
    && Has(e.flags, TRANSLATION_WARP_FLAG) == warp
    && (!warp || e.frameType == 0 ==> e.kx == 0 && e.ky == 0)
    && (warp ==> e.frameType == 0 || e.frameType == 1)
    && (warp && e.frameType == 1 ==> !Has(e.flags, RESET_REFERENCE))
  }

  predicate FieldsOk(e: Efu) {
    && e.configId != 0 && e.frameId != NO_REFERENCE && e.frameType <= 2 && 0 <= e.pts
    && e.entropyQ < 64 && e.modelQ < 64 && e.temporalId == 0
    && e.flags < 128 && !Has(e.flags, DISCARDABLE)
  }

  predicate HasGeometry(e: Efu) {
    Has(e.flags, TRANSLATION_WARP_FLAG) && e.frameType == 1
  }

  function Unsigned8(k: int8): byte { if k < 0 then k + 256 else k }

  function Signed8(b: byte): int8 { if b < 128 then b else b - 256 }

  function WirePayload(e: Efu): seq<byte> {
    if HasGeometry(e) then [Unsigned8(e.kx), Unsigned8(e.ky)] + e.payload else e.payload
  }

  function HeaderSize(e: Efu): nat
    requires AllAcceptable(e.tlvs)
  {
    EFU_FIXED_BYTES + |AreaBytes(e.tlvs)|
  }

  /** Every condition SerializeEfu checks. */
  predicate Serializable(e: Efu) {
    && FieldsOk(e) && ReferencesOk(e) && WarpOk(e, Has(e.flags, TRANSLATION_WARP_FLAG)) && AllAcceptable(e.tlvs)
    && |WirePayload(e)| <= UNIT_MAX_BYTES - EFU_FIXED_BYTES
    && HeaderSize(e) <= 0xFFFF && HeaderSize(e) + |WirePayload(e)| <= UNIT_MAX_BYTES
  }

  function WithCrc(flags: uint32): uint32
    requires flags < 128
  {
    if Has(flags, CRC_PRESENT) then flags else flags + CRC_PRESENT
  }

  // ----- the wire form -----

  /** MakeCommon */
  function CommonBytes(unitType: byte, headerLength: uint16, unitLength: uint32, unitId: uint32, configId: uint32,
                       flags: uint32): (b: seq<byte>)
    ensures |b| == 20
  {
    [1, unitType] + U16(headerLength) + U32(unitLength) + U32(unitId) + U32(configId) + U32(flags)
  }

  function FixedBytes(e: Efu, size: uint32, crc: uint32): (b: seq<byte>)
    requires 0 <= e.pts
    ensures |b| == 32
  {
    [e.frameType, e.entropyQ, e.modelQ, e.temporalId] + U64(e.pts) + U32(e.shortRef) + U32(e.longRef)
    + U32(size) + U32(crc) + U32(0)
  }

  function Serialized(crc: Crc, e: Efu): (b: seq<byte>)
    requires Serializable(e)
  {
    var wire := WirePayload(e);
    CommonBytes(EFU, HeaderSize(e), HeaderSize(e) + |wire|, e.frameId, e.configId, WithCrc(e.flags))
    + FixedBytes(e, |wire|, crc(wire)) + AreaBytes(e.tlvs) + wire
  }

  method MakeCommon(unitType: byte, headerLength: uint16, unitLength: uint32, unitId: uint32, configId: uint32, flags: uint32)
    returns (b: seq<byte>)
    ensures b == CommonBytes(unitType, headerLength, unitLength, unitId, configId, flags)
  {
    b := [1, unitType];
    b := Put(b, headerLength, 2);
    b := Put(b, unitLength, 4);
    b := Put(b, unitId, 4);
    b := Put(b, configId, 4);
    b := Put(b, flags, 4);
  }

  method PutFixed(e: Efu, size: uint32, crc: uint32) returns (b: seq<byte>)
    requires 0 <= e.pts
    ensures b == FixedBytes(e, size, crc)
  {
    b := [e.frameType, e.entropyQ, e.modelQ, e.temporalId];
    b := Put(b, e.pts, 8);
    b := Put(b, e.shortRef, 4);
    b := Put(b, e.longRef, 4);
    b := Put(b, size, 4);
    b := Put(b, crc, 4);
    b := Put(b, 0, 4);
  }

  method ValidateReferenceIds(e: Efu) returns (ok: bool)
    ensures ok <==> ReferencesOk(e)
  {
    var random, reset := Has(e.flags, RANDOM_ACCESS), Has(e.flags, RESET_REFERENCE);
    if e.frameType == 0 {
      return random && reset && e.shortRef == NO_REFERENCE && e.longRef == NO_REFERENCE;
    }
    if random { return false; }
    if e.frameType == 1 && e.longRef != NO_REFERENCE { return false; }
    if reset && e.shortRef != NO_REFERENCE { return false; }
    if e.frameType == 1 && !reset && e.shortRef == NO_REFERENCE { return false; }
    if e.frameType == 2 && (e.longRef == NO_REFERENCE || e.shortRef != NO_REFERENCE) { return false; }
    if e.shortRef != NO_REFERENCE && CompareSerial(e.frameId, e.shortRef) != Newer { return false; }
    return e.longRef == NO_REFERENCE || CompareSerial(e.frameId, e.longRef) == Newer;
  }

  method ValidateEfuTranslationWarp(e: Efu, warp: bool) returns (ok: bool)
    ensures ok <==> WarpOk(e, warp)
  {
    if Has(e.flags, TRANSLATION_WARP_FLAG) != warp { return false; }
    if (!warp || e.frameType == 0) && (e.kx != 0 || e.ky != 0) { return false; }
    if warp && e.frameType != 0 && e.frameType != 1 { return false; }
    return !(warp && e.frameType == 1 && Has(e.flags, RESET_REFERENCE));
  }

  /** SerializeEfu */
  method SerializeEfu(crc: Crc, e: Efu) returns (r: Option<seq<byte>>)
    ensures r.Some? <==> Serializable(e)
    ensures r.Some? ==> r.value == Serialized(crc, e)
  {
    hide ReferencesOk, WarpOk, CommonBytes, FixedBytes, Acceptable;
    if e.configId == 0 || e.frameId == NO_REFERENCE || e.frameType > 2 || e.pts < 0 || e.entropyQ >= 64 || e.modelQ >= 64
       || e.temporalId != 0 || e.flags >= 128 || Has(e.flags, DISCARDABLE)
    {
      return None;
    }
    var references := ValidateReferenceIds(e);
    var warped := ValidateEfuTranslationWarp(e, Has(e.flags, TRANSLATION_WARP_FLAG));
    if !references || !warped { return None; }
    if |e.payload| > UNIT_MAX_BYTES - EFU_FIXED_BYTES - (if HasGeometry(e) then 2 else 0) { return None; }
    var wire := WirePayload(e);
    var area := PutTlvs(e.tlvs);
    if area.None? { return None; }
    var headerSize := EFU_FIXED_BYTES + |area.value|;
    var unitSize := headerSize + |wire|;
    if headerSize > HEADER_MAX_BYTES || unitSize > UNIT_MAX_BYTES || headerSize > 0xFFFF { return None; }
    var b := MakeCommon(EFU, headerSize, unitSize, e.frameId, e.configId, WithCrc(e.flags));
    var m := PutFixed(e, |wire|, crc(wire));
    return Some(b + m + area.value + wire);
  }

  // ----- reading -----

  function Get64(b: seq<byte>, p: nat): (v: int64)
    requires p + 8 <= |b|
  {
    Widths();
    var v := Value(b[p..p + 8]);
    if v < 0x8000_0000_0000_0000 then v else v - 0x1_0000_0000_0000_0000
  }

  /** ParseMediaUnitHeader with ValidateCommon. */
  predicate HeaderOk(b: seq<byte>) {
    && COMMON_HEADER_BYTES <= |b| && b[0] == 1 && b[1] != 0
    && var headerLength, unitLength := Get16(b, 2), Get32(b, 4);
       && COMMON_HEADER_BYTES <= headerLength <= unitLength && headerLength % 4 == 0 && headerLength <= HEADER_MAX_BYTES
       && COMMON_HEADER_BYTES <= unitLength <= UNIT_MAX_BYTES && unitLength == |b|
  }

  predicate EfuHeaderOk(b: seq<byte>) {
    && HeaderOk(b) && b[1] == EFU && EFU_FIXED_BYTES <= Get16(b, 2) && Get32(b, 12) != 0 && Get32(b, 8) != NO_REFERENCE
    && Get32(b, 16) < 128 && Has(Get32(b, 16), CRC_PRESENT) && !Has(Get32(b, 16), DISCARDABLE)
  }

  /** The fields before the TLVs; payload and geometry still undecoded. */
  function FixedFields(b: seq<byte>, tlvs: seq<Entry>, payload: seq<byte>): Efu
    requires |b| >= EFU_FIXED_BYTES
  {
    Efu(Get32(b, 12), Get32(b, 8), Get32(b, 16), b[20], b[21], b[22], b[23], Get64(b, 24), Get32(b, 32), Get32(b, 36),
        tlvs, payload, 0, 0)
  }

  function Translated(e: Efu): Option<Efu> {
    if !HasGeometry(e) then Some(e)
    else if |e.payload| < 2 then None
    else Some(e.(kx := Signed8(e.payload[0]), ky := Signed8(e.payload[1]), payload := e.payload[2..]))
  }

  /** A CRC mismatch is an exception of its own; everything else is malformed. */
  datatype Parsed = Accepted(efu: Efu) | Malformed | CrcMismatch

  predicate MetadataOk(b: seq<byte>)
    requires |b| >= EFU_FIXED_BYTES
  {
    && Get32(b, 48) == 0 && 0 <= Get64(b, 24) && b[20] <= 2 && b[21] < 64 && b[22] < 64 && b[23] == 0
    && Get32(b, 40) == |b| - Get16(b, 2)
  }

  function ParsedEfu(crc: Crc, b: seq<byte>): Parsed {
    if !EfuHeaderOk(b) || !MetadataOk(b) then Malformed
    else
      var n := Get16(b, 2);
      match ParseArea(b[EFU_FIXED_BYTES..n], {})
      case None => Malformed
      case Some(tlvs) =>
        if crc(b[n..]) != Get32(b, 44) then CrcMismatch
        else match Translated(FixedFields(b, tlvs, b[n..]))
          case None => Malformed
          case Some(e) =>
            if WarpOk(e, Has(e.flags, TRANSLATION_WARP_FLAG)) && ReferencesOk(e) then Accepted(e) else Malformed
  }

  method ParseMediaUnitHeader(b: seq<byte>)
    returns (ok: bool, unitType: byte, headerLength: uint16, unitLength: uint32, unitId: uint32, configId: uint32,
             flags: uint32)
    ensures ok <==> HeaderOk(b)
    ensures ok ==>
              && unitType == b[1] && headerLength == Get16(b, 2) && unitLength == Get32(b, 4)
              && unitId == Get32(b, 8) && configId == Get32(b, 12) && flags == Get32(b, 16)
  {
    unitType, headerLength, unitLength, unitId, configId, flags := 0, 0, 0, 0, 0, 0;
    if |b| < COMMON_HEADER_BYTES || b[0] != 1 { return false, 0, 0, 0, 0, 0, 0; }
    Widths();
    unitType := b[1];
    var read, v, p := Get(b, 2, 2);
    headerLength := v;
    read, v, p := Get(b, p, 4);
    unitLength := v;
    read, v, p := Get(b, p, 4);
    unitId := v;
    read, v, p := Get(b, p, 4);
    configId := v;
    read, v, p := Get(b, p, 4);
    flags := v;
    ok := unitType != 0 && COMMON_HEADER_BYTES <= headerLength && headerLength % 4 == 0 && headerLength <= unitLength
          && headerLength <= HEADER_MAX_BYTES && COMMON_HEADER_BYTES <= unitLength <= UNIT_MAX_BYTES && unitLength == |b|;
  }

  /** ParseEfu */
  method ParseEfu(crc: Crc, b: seq<byte>) returns (r: Parsed)
    ensures r == ParsedEfu(crc, b)
  {
    var ok, unitType, headerLength, unitLength, unitId, configId, flags := ParseMediaUnitHeader(b);
    if !ok || unitType != EFU || headerLength < EFU_FIXED_BYTES || configId == 0 || unitId == NO_REFERENCE
       || flags >= 128 || !Has(flags, CRC_PRESENT) || Has(flags, DISCARDABLE)
    {
      return Malformed;
    }
    var pts := Get64(b, 24);
    if Get32(b, 48) != 0 || pts < 0 || b[20] > 2 || b[21] >= 64 || b[22] >= 64 || b[23] != 0
       || Get32(b, 40) != unitLength - headerLength
    {
      return Malformed;
    }
    var tlvs := ParseTlvs(b, EFU_FIXED_BYTES, headerLength);
    if tlvs.None? { return Malformed; }
    var e := FixedFields(b, tlvs.value, b[headerLength..]);
    if crc(e.payload) != Get32(b, 44) { return CrcMismatch; }
    var warp := Has(e.flags, TRANSLATION_WARP_FLAG);
    if warp && e.frameType == 1 {
      if |e.payload| < 2 { return Malformed; }
      e := e.(kx := Signed8(e.payload[0]), ky := Signed8(e.payload[1]), payload := e.payload[2..]);
    }
    var warped := ValidateEfuTranslationWarp(e, warp);
    var references := ValidateReferenceIds(e);
    return if warped && references then Accepted(e) else Malformed;
  }
}
