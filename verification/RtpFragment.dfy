/** The MLVC fragment descriptor of an RTP payload: validation, encoding, decoding, and how the sender
    cuts a media unit. */
module RtpFragment {
  import opened Bytes
  import opened Wire

  datatype Result<+T, +E> = Ok(value: T) | Err(error: E)

  datatype Fragment = Fragment(
    unitType: byte, flags: byte, configId: uint32, unitId: uint32, offset: uint32, unitLength: uint32,
    payload: seq<byte>, timestamp: uint32, ssrc: uint32)

  const SCU: byte := 1
  const EFU: byte := 2
  const EOS: byte := 3

  const START: nat := 0x80
  const END: nat := 0x40
  const EXTENSION: nat := 0x20

  const COMMON_HEADER_BYTES: nat := 20
  const SCU_MAX_BYTES: nat := 65536
  const UNIT_MAX_BYTES: nat := 134217728
  const NO_REFERENCE: uint32 := 0xFFFF_FFFF
  const DESCRIPTOR_BYTES: nat := 24

  /** flag is one of 0x80, 0x40, 0x20. */
  predicate Has(flags: nat, flag: nat)
    requires 0 < flag
  {
    flags / flag % 2 == 1
  }

  function End(f: Fragment): nat {
    f.offset + |f.payload|
  }

  function MaxUnitBytes(unitType: byte): nat {
    if unitType == SCU then SCU_MAX_BYTES else if unitType == EOS then COMMON_HEADER_BYTES else UNIT_MAX_BYTES
  }

  predicate LengthOk(unitType: byte, length: nat) {
    COMMON_HEADER_BYTES <= length <= MaxUnitBytes(unitType)
  }

  predicate IdentityOk(unitType: byte, configId: uint32, unitId: uint32) {
    unitType in {SCU, EFU, EOS} ==>
      && configId != 0
      && (unitType == SCU ==> unitId == configId)
      && (unitType == EFU ==> unitId != NO_REFERENCE)
      && (unitType == EOS ==> unitId == NO_REFERENCE || unitId <= 0x7FFF_FFFF)
  }

  /** The payload lies in the unit, and START and END say where. */
  predicate Placed(flags: nat, offset: nat, size: nat, length: nat) {
    && 0 < size && offset + size <= length
    && (Has(flags, START) <==> offset == 0) && (Has(flags, END) <==> offset + size == length)
  }

  datatype FragmentError = InvalidFragment | InvalidHeader | InvalidDescriptor | InvalidPayload | BadLength | BadIdentity

  /** What every check of EncodeRtpMlvcFragment asks. */
  predicate Encodable(f: Fragment) {
    && f.unitType != 0 && f.flags % 64 == 0 && Placed(f.flags, f.offset, |f.payload|, f.unitLength)
    && LengthOk(f.unitType, f.unitLength) && IdentityOk(f.unitType, f.configId, f.unitId)
  }

  function Prefix(f: Fragment): (b: seq<byte>)
    ensures |b| == 8
  {
    [1, f.unitType, f.flags, 0, 0, 24, 0, 0]
  }

  /** The wire form of a fragment. */
  function Encoded(f: Fragment): (b: seq<byte>)
    ensures |b| == DESCRIPTOR_BYTES + |f.payload|
  {
    Prefix(f) + U32(f.configId) + U32(f.unitId) + U32(f.offset) + U32(f.unitLength) + f.payload
  }

  method ValidateUnitLengthForType(unitType: byte, length: nat) returns (ok: bool)
    ensures ok <==> LengthOk(unitType, length)
  {
    var most := UNIT_MAX_BYTES;
    if unitType == SCU { most := SCU_MAX_BYTES; }
    if unitType == EOS { most := COMMON_HEADER_BYTES; }
    return length >= COMMON_HEADER_BYTES && length <= most;
  }

  method ValidateFragmentIdentity(unitType: byte, configId: uint32, unitId: uint32) returns (ok: bool)
    ensures ok <==> IdentityOk(unitType, configId, unitId)
  {
    if unitType != SCU && unitType != EFU && unitType != EOS { return true; }
    if configId == 0 { return false; }
    if unitType == SCU && unitId != configId { return false; }
    if unitType == EFU && unitId == NO_REFERENCE { return false; }
    return !(unitType == EOS && unitId != NO_REFERENCE && unitId > 0x7FFF_FFFF);
  }

  method EncodeRtpMlvcFragment(f: Fragment) returns (r: Result<seq<byte>, FragmentError>)
    ensures r.Ok? <==> Encodable(f)
    ensures r.Ok? ==> r.value == Encoded(f)
  {
    if f.unitType == 0 || |f.payload| == 0 || f.flags % 64 != 0 || End(f) > f.unitLength
       || Has(f.flags, START) != (f.offset == 0) || Has(f.flags, END) != (End(f) == f.unitLength)
    {
      return Err(InvalidFragment);
    }
    var fits := ValidateUnitLengthForType(f.unitType, f.unitLength);
    if !fits { return Err(BadLength); }
    var named := ValidateFragmentIdentity(f.unitType, f.configId, f.unitId);
    if !named { return Err(BadIdentity); }
    var o := [1, f.unitType, f.flags, 0, 0, 24, 0, 0];
    o := Put(o, f.configId, 4);
    o := Put(o, f.unitId, 4);
    o := Put(o, f.offset, 4);
    o := Put(o, f.unitLength, 4);
    return Ok(o + f.payload);
  }

  /** The fields of a packet, extension flag stripped. */
  function FieldsOf(b: seq<byte>): Fragment
    requires |b| >= DESCRIPTOR_BYTES && DescriptorLength(b) <= |b|
  {
    Fragment(b[1], if Has(b[2], EXTENSION) then b[2] - EXTENSION else b[2], Get32(b, 8), Get32(b, 12), Get32(b, 16),
             Get32(b, 20), b[DescriptorLength(b)..], 0, 0)
  }

  function DescriptorLength(b: seq<byte>): nat
    requires |b| >= DESCRIPTOR_BYTES
  {
    Get16(b, 4)
  }

  /** What every check of DecodeRtpMlvcFragment asks. */
  predicate Decodable(b: seq<byte>) {
    && |b| >= DESCRIPTOR_BYTES && b[0] == 1 && b[1] != 0 && b[2] % 32 == 0 && b[3] == 0
    && var n := DescriptorLength(b);
       && DESCRIPTOR_BYTES <= n <= |b| && n % 4 == 0 && b[6] == 0 && b[7] == 0
       && (!Has(b[2], EXTENSION) <==> n == DESCRIPTOR_BYTES)
       && Placed(b[2], Get32(b, 16), |b| - n, Get32(b, 20))
       && LengthOk(b[1], Get32(b, 20)) && IdentityOk(b[1], Get32(b, 8), Get32(b, 12))
  }

  method DecodeRtpMlvcFragment(b: seq<byte>) returns (r: Result<Fragment, FragmentError>)
    ensures r.Ok? <==> Decodable(b)
    ensures r.Ok? ==> r.value == FieldsOf(b)
  {
    if |b| < 24 || b[0] != 1 { return Err(InvalidHeader); }
    if b[1] == 0 || b[2] % 32 != 0 || b[3] != 0 { return Err(InvalidHeader); }
    var n := Get16(b, 4);
    if n < 24 || n % 4 != 0 || n > |b| || b[6] != 0 || b[7] != 0 || !Has(b[2], EXTENSION) != (n == 24) {
      return Err(InvalidDescriptor);
    }
    var _, configId, p1 := Get(b, 8, 4);
    var _, unitId, p2 := Get(b, p1, 4);
    var _, offset, p3 := Get(b, p2, 4);
    var _, length, _ := Get(b, p3, 4);
    if length < COMMON_HEADER_BYTES || offset + (|b| - n) > length || Has(b[2], START) != (offset == 0)
       || Has(b[2], END) != (offset + (|b| - n) == length) || |b| == n
    {
      return Err(InvalidPayload);
    }
    var fits := ValidateUnitLengthForType(b[1], length);
    if !fits { return Err(BadLength); }
    Widths();
    var named := ValidateFragmentIdentity(b[1], configId, unitId);
    if !named { return Err(BadIdentity); }
    return Ok(FieldsOf(b));
  }

  /** Timestamp and SSRC travel in the RTP header, not in the descriptor. */
  function OnWire(f: Fragment): Fragment {
    f.(timestamp := 0, ssrc := 0)
  }

  lemma FieldsOfEncoded(f: Fragment)
    requires Encodable(f)
    ensures var b := Encoded(f);
            && DescriptorLength(b) == 24 && Get32(b, 8) == f.configId && Get32(b, 12) == f.unitId
            && Get32(b, 16) == f.offset && Get32(b, 20) == f.unitLength && b[24..] == f.payload
  {
    hide BigEndian, Get32, DescriptorLength;
    var b := Encoded(f);
    var p := Prefix(f);
    var id, unit, at, length := U32(f.configId), U32(f.unitId), U32(f.offset), U32(f.unitLength);
    assert b == p + id + (unit + at + length + f.payload);
    assert b == p + id + unit + (at + length + f.payload);
    assert b == p + id + unit + at + (length + f.payload);
    Get32Put(p, f.configId, unit + at + length + f.payload);
    Get32Put(p + id, f.unitId, at + length + f.payload);
    Get32Put(p + id + unit, f.offset, length + f.payload);
    Get32Put(p + id + unit + at, f.unitLength, f.payload);
    assert b[24..] == f.payload;
    LengthField(b);
  }

  lemma LengthField(b: seq<byte>)
    requires |b| >= DESCRIPTOR_BYTES && b[4] == 0 && b[5] == 24
    ensures DescriptorLength(b) == 24
  {
    Widths();
    ValueOfBigEndian(24, 2);
    assert b[4..6] == [0, 24] == BigEndian(24, 2) by { assert BigEndian(24, 2) == BigEndian(0, 1) + [24]; }
  }

  /** Decoding undoes encoding. */
  lemma DecodeUndoesEncode(f: Fragment)
    requires Encodable(f)
    ensures Decodable(Encoded(f)) && FieldsOf(Encoded(f)) == OnWire(f)
  {
    FieldsOfEncoded(f);
  }

  /** What an accepted packet says about its header bytes. */
  lemma HeaderBytes(b: seq<byte>)
    requires |b| >= DESCRIPTOR_BYTES && DescriptorLength(b) == 24
    ensures b[4] == 0 && b[5] == 24
  {
    Put16Get(b, 4);
    assert BigEndian(24, 2) == BigEndian(0, 1) + [24];
    assert b[4..6] == [0, 24];
  }

  /** Encoding undoes decoding, exactly on the packets without an extension; one with an extension
      decodes to a fragment whose own form is the packet without it. */
  lemma EncodeUndoesDecode(b: seq<byte>)
    requires Decodable(b)
    ensures Encodable(FieldsOf(b))
    ensures Encoded(FieldsOf(b)) == b <==> !Has(b[2], EXTENSION)
    ensures Encoded(FieldsOf(b))[24..] == b[DescriptorLength(b)..]
  {
    var f := FieldsOf(b);
    ExtensionBit(b[2]);
    if !Has(b[2], EXTENSION) {
      HeaderBytes(b);
      Put32Get(b, 8);
      Put32Get(b, 12);
      Put32Get(b, 16);
      Put32Get(b, 20);
      assert Prefix(f) == b[..8];
      assert b == b[..8] + b[8..12] + b[12..16] + b[16..20] + b[20..24] + b[24..];
    } else {
      assert |Encoded(f)| < |b|;
    }
  }

  lemma ExtensionBit(flags: byte)
    requires flags % 32 == 0
    ensures Has(flags, EXTENSION) ==>
              flags >= EXTENSION && (flags - EXTENSION) % 64 == 0
              && (Has(flags - EXTENSION, START) <==> Has(flags, START)) && (Has(flags - EXTENSION, END) <==> Has(flags, END))
    ensures !Has(flags, EXTENSION) ==> flags % 64 == 0
  {
  }
}
