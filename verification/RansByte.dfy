/** The byte-wise rANS primitives of rans_byte.h and the two-bit bypass primitives of
    rans_core.cc, as functions on a coder: the 32-bit state together with the bytes that lie at
    and after the write (or read) pointer.  Shifts and masks are written as arithmetic; the
    bounds proved here show that no intermediate value leaves 32 bits. */
module RansByte {
  import opened Options
  import opened Arith
  import opened Bytes

  const SCALE: nat := 0x1_0000          // 1 << kRansScaleBits
  const LOWER: nat := 0x80_0000         // kRansByteL
  const UPPER: nat := 0x8000_0000       // 256 * kRansByteL
  const RENORM: nat := 0x8000           // 1 << kRansEncRenormShiftBits
  const BIT_LIMIT: nat := 0x2000_0000   // kFreq << kRansEncRenormShiftBits in RansEncPutBits

  datatype Coder = Coder(state: nat, bytes: seq<byte>)

  predicate Normal(c: Coder) {
    LOWER <= c.state < UPPER
  }

  predicate CodableRange(start: int, freq: int) {
    0 <= start && 1 <= freq < SCALE && start + freq <= SCALE
  }

  // ----- encoder side -----

  function Renorm(c: Coder, limit: nat): Coder
    requires 0 < limit
    decreases c.state
  {
    if c.state < limit then c
    else Renorm(Coder(c.state / 256, [c.state % 256] + c.bytes), limit)
  }

  function Put(c: Coder, start: nat, freq: nat): Coder
    requires 0 < freq
  {
    var n := Renorm(c, freq * RENORM);
    Coder((n.state / freq) * SCALE + n.state % freq + start, n.bytes)
  }

  function PutBits(c: Coder, value: nat): Coder {
    var n := Renorm(c, BIT_LIMIT);
    Coder(n.state * 4 + value, n.bytes)
  }

  /** RansEncFlush: the four state bytes, least significant first. */
  function FlushState(c: Coder): seq<byte> {
    [c.state % 256, c.state / 0x100 % 256, c.state / 0x1_0000 % 256, c.state / 0x100_0000 % 256] + c.bytes
  }

  // ----- decoder side; None stands for a read past the end of the stream -----

  function Le32(a: int, b: int, c: int, d: int): int {
    a + 0x100 * b + 0x1_0000 * c + 0x100_0000 * d
  }

  function InitState(bytes: seq<byte>): Option<Coder> {
    if |bytes| < 4 then None
    else Some(Coder(Le32(bytes[0], bytes[1], bytes[2], bytes[3]), bytes[4..]))
  }

  function Refill(c: Coder): Option<Coder>
    decreases |c.bytes|
  {
    if c.state >= LOWER then Some(c)
    else if c.bytes == [] then None
    else Refill(Coder(c.state * 256 + c.bytes[0], c.bytes[1..]))
  }

  function Advance(c: Coder, start: nat, freq: nat): Option<Coder>
    requires start <= c.state % SCALE
  {
    Refill(Coder(freq * (c.state / SCALE) + c.state % SCALE - start, c.bytes))
  }

  /** RansDecGetBits reads at most one byte. */
  function GetBits(c: Coder): Option<(nat, Coder)> {
    var s := c.state / 4;
    if s >= LOWER then Some((c.state % 4, Coder(s, c.bytes)))
    else if c.bytes == [] then None
    else Some((c.state % 4, Coder(s * 256 + c.bytes[0], c.bytes[1..])))
  }

  // ----- the two sides are inverse to each other -----

  lemma {:induction false} RefillUndoesRenorm(c: Coder, limit: nat)
    requires 0 < limit
    requires c.state < UPPER
    ensures Refill(Renorm(c, limit)) == Refill(c)
    decreases c.state
  {
    if c.state >= limit {
      var d := Coder(c.state / 256, [c.state % 256] + c.bytes);
      RefillUndoesRenorm(d, limit);
      assert d.bytes[1..] == c.bytes;
      assert d.state * 256 + d.bytes[0] == c.state;
    }
  }

  lemma {:induction false} RenormBounds(c: Coder, limit: nat)
    requires 256 <= limit && limit % 256 == 0
    requires limit / 256 <= c.state
    ensures limit / 256 <= Renorm(c, limit).state < limit
    decreases c.state
  {
    if c.state >= limit {
      RenormBounds(Coder(c.state / 256, [c.state % 256] + c.bytes), limit);
    }
  }

  lemma SplitState(n: nat, start: nat, freq: nat)
    requires CodableRange(start, freq)
    ensures var y := (n / freq) * SCALE + n % freq + start;
            && y / SCALE == n / freq
            && y % SCALE == n % freq + start
            && freq * (y / SCALE) + y % SCALE - start == n
  {
    var q, r := n / freq, n % freq;
    assert n == freq * q + r;
    var y := q * SCALE + (r + start);
    assert r + start < SCALE;
    assert y / SCALE == q && y % SCALE == r + start;
  }

  lemma QuotientBounds(n: nat, freq: nat)
    requires 0 < freq && freq * 128 <= n < freq * RENORM
    ensures 128 <= n / freq < RENORM
  {
    var q := n / freq;
    assert freq * q <= n < freq * (q + 1);
    MulMonotone(q + 1, 128, freq);
    MulMonotone(RENORM, q, freq);
  }

  /** Coding a frequency range keeps the state in [L, 256 L), leaves the range visible in the low
      16 bits, and is undone by RansDecAdvance. */
  lemma AdvanceUndoesPut(c: Coder, start: nat, freq: nat)
    requires Normal(c) && CodableRange(start, freq)
    ensures Normal(Put(c, start, freq))
    ensures start <= Put(c, start, freq).state % SCALE < start + freq
    ensures Advance(Put(c, start, freq), start, freq) == Some(c)
  {
    var limit := freq * RENORM;
    assert limit / 256 == freq * 128 && limit % 256 == 0;
    assert freq * 128 <= LOWER;
    RenormBounds(c, limit);
    var n := Renorm(c, limit);
    QuotientBounds(n.state, freq);
    SplitState(n.state, start, freq);
    RefillUndoesRenorm(c, limit);
  }

  lemma GetBitsUndoesPutBits(c: Coder, value: nat)
    requires Normal(c) && value < 4
    ensures Normal(PutBits(c, value))
    ensures GetBits(PutBits(c, value)) == Some((value, c))
  {
    var d := Coder(c.state / 256, [c.state % 256] + c.bytes);
    assert Renorm(c, BIT_LIMIT) == if c.state < BIT_LIMIT then c else d;
    assert d.bytes[1..] == c.bytes && d.state * 256 + d.bytes[0] == c.state;
  }

  lemma InitUndoesFlush(c: Coder)
    requires Normal(c)
    ensures InitState(FlushState(c)) == Some(c)
  {
    var x := c.state;
    assert x / 0x1_0000 == x / 0x100 / 0x100 && x / 0x100_0000 == x / 0x1_0000 / 0x100;
    assert FlushState(c)[4..] == c.bytes;
  }

  // ----- output space -----

  lemma PutBytes(c: Coder, start: nat, freq: nat)
    requires Normal(c) && CodableRange(start, freq)
    ensures |Put(c, start, freq).bytes| <= |c.bytes| + 2
  {
    var limit := freq * RENORM;
    assert limit >= RENORM;
    if c.state >= limit {
      var d := Coder(c.state / 256, [c.state % 256] + c.bytes);
      assert Renorm(c, limit) == Renorm(d, limit);
      if d.state >= limit {
        var e := Coder(d.state / 256, [d.state % 256] + d.bytes);
        assert Renorm(d, limit) == Renorm(e, limit);
        assert e.state < limit;
      }
    }
  }

  /** How many bypass bins fit before the next byte leaves the state. */
  function Level(state: nat): (l: nat)
    ensures l <= 3
  {
    if state < 0x200_0000 then 0 else if state < 0x800_0000 then 1 else if state < BIT_LIMIT then 2 else 3
  }

  /** Four bypass bins pay for exactly one byte: the level is the unpaid remainder. */
  lemma PutBitsLevel(c: Coder, value: nat)
    requires Normal(c) && value < 4
    ensures var d := PutBits(c, value);
            4 * |d.bytes| + Level(d.state) == 4 * |c.bytes| + Level(c.state) + 1
  {
    var d := Coder(c.state / 256, [c.state % 256] + c.bytes);
    assert Renorm(c, BIT_LIMIT) == if c.state < BIT_LIMIT then c else d;
  }

  // ----- the bytes already written are never looked at by the encoder -----

  lemma {:induction false} RenormFrame(x: nat, bytes: seq<byte>, tail: seq<byte>, limit: nat)
    requires 0 < limit
    ensures Renorm(Coder(x, bytes + tail), limit)
         == var n := Renorm(Coder(x, bytes), limit); Coder(n.state, n.bytes + tail)
    decreases x
  {
    if x >= limit {
      assert [x % 256] + (bytes + tail) == ([x % 256] + bytes) + tail;
      RenormFrame(x / 256, [x % 256] + bytes, tail, limit);
    }
  }
}
