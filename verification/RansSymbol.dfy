/** Coding of one symbol against one CDF row, escape (bypass) coding included:
    RansEncoderCore::EncodeOneSymbol and RansDecoderCore::DecodeOneSymbol. */
module RansSymbol {
  import opened Options
  import opened RansByte

  /** One row of a CDF group: the cumulative frequencies, the row's own length (rows are padded to a
      common width) and the offset subtracted from symbols. */
  datatype Row = Row(cdf: seq<int>, size: int, offset: int)

  predicate WellFormedRow(row: Row) {
    && 2 <= row.size <= |row.cdf|
    && row.cdf[0] == 0
    && row.cdf[row.size - 1] == SCALE
    && forall i :: 0 <= i < row.size - 1 ==> row.cdf[i] <= row.cdf[i + 1]
  }

  function MaxValue(row: Row): int {
    row.size - 2
  }

  predicate Escapes(row: Row, symbol: int) {
    symbol - row.offset < 0 || symbol - row.offset >= MaxValue(row)
  }

  /** The table entry a symbol is coded with: its own, or the last one when it escapes. */
  function CodedValue(row: Row, symbol: int): int {
    if Escapes(row, symbol) then MaxValue(row) else symbol - row.offset
  }

  /** Sign-folded distance of an escaping symbol from the table. */
  function RawValue(row: Row, symbol: int): int {
    var value := symbol - row.offset;
    if value < 0 then -2 * value - 1 else 2 * (value - MaxValue(row))
  }

  const RAW_LIMIT: int := 0x4000_0000

  /** What the encoder needs of a symbol: a table entry whose frequency survives the narrowing to
      16 bits and is not zero, and an escape value whose digit count keeps every shift below 32. */
  predicate Codable(row: Row, symbol: int) {
    && WellFormedRow(row)
    && 1 <= row.cdf[CodedValue(row, symbol) + 1] - row.cdf[CodedValue(row, symbol)] < SCALE
    && (Escapes(row, symbol) ==> RawValue(row, symbol) < RAW_LIMIT)
  }

  // ----- bypass bins -----

  type bin = b: nat | b < 4

  function DigitCount(raw: nat): nat {
    if raw == 0 then 0 else 1 + DigitCount(raw / 4)
  }

  function Digits(raw: nat): seq<bin>
  {
    if raw == 0 then [] else [raw % 4] + Digits(raw / 4)
  }

  function Unary(count: nat): seq<bin>
  {
    if count < 3 then [count] else [3] + Unary(count - 3)
  }

  /** The bins of an escape value, in the order the decoder reads them. */
  function Bins(raw: nat): seq<bin>
  {
    Unary(DigitCount(raw)) + Digits(raw)
  }

  /** Bins are coded last to first, so that the decoder meets the first one first. */
  function PutBins(c: Coder, bins: seq<bin>): Coder {
    if bins == [] then c else PutBits(PutBins(c, bins[1..]), bins[0])
  }

  /** The coder after the bypass bins, before the table entry is coded. */
  function Escaped(c: Coder, row: Row, symbol: int): Coder
    requires WellFormedRow(row)
  {
    if Escapes(row, symbol) then PutBins(c, Bins(RawValue(row, symbol))) else c
  }

  function EncodeSymbol(c: Coder, row: Row, symbol: int): Coder
    requires Codable(row, symbol)
  {
    var value := CodedValue(row, symbol);
    CodedValueRange(row, symbol);
    Put(Escaped(c, row, symbol), row.cdf[value], row.cdf[value + 1] - row.cdf[value])
  }

  // ----- decoder -----

  /** The linear search of the decoder: the first entry above the cumulative frequency. */
  function Search(row: Row, cumulative: int, from: nat): (s: nat)
    requires WellFormedRow(row) && cumulative < SCALE && from < row.size
    requires row.cdf[from] <= cumulative
    ensures from <= s < row.size - 1 && row.cdf[s] <= cumulative < row.cdf[s + 1]
    decreases row.size - from
  {
    if cumulative < row.cdf[from + 1] then from else Search(row, cumulative, from + 1)
  }

  function GetUnary(c: Coder): Option<(nat, Coder)>
    decreases |c.bytes|, c.state
  {
    match GetBits(c)
    case None => None
    case Some((bin, d)) =>
      if bin != 3 then Some((bin, d))
      else match GetUnary(d)
        case None => None
        case Some((count, e)) => Some((3 + count, e))
  }

  function GetDigits(c: Coder, count: nat): Option<(nat, Coder)>
    decreases count
  {
    if count == 0 then Some((0, c))
    else match GetBits(c)
      case None => None
      case Some((bin, d)) =>
        match GetDigits(d, count - 1)
        case None => None
        case Some((rest, e)) => Some((bin + 4 * rest, e))
  }

  function GetRaw(c: Coder): Option<(nat, Coder)> {
    match GetUnary(c)
    case None => None
    case Some((count, d)) => GetDigits(d, count)
  }

  /** The symbol an escape value stands for. */
  function Unfold(row: Row, raw: nat): int {
    if raw % 2 == 1 then -(raw / 2) - 1 else raw / 2 + MaxValue(row)
  }

  /** Finds the table entry and takes it off the coder. */
  function DecodeEntry(c: Coder, row: Row): Option<(nat, Coder)>
    requires WellFormedRow(row)
  {
    var s := Search(row, c.state % SCALE, 0);
    CdfMonotone(row, 0, s);
    match Advance(c, row.cdf[s], row.cdf[s + 1] - row.cdf[s])
    case None => None
    case Some(d) => Some((s, d))
  }

  function DecodeSymbol(c: Coder, row: Row): Option<(int, Coder)>
    requires WellFormedRow(row)
  {
    match DecodeEntry(c, row)
    case None => None
    case Some((s, d)) =>
      if s != MaxValue(row) then Some((s + row.offset, d))
      else match GetRaw(d)
        case None => None
        case Some((raw, f)) => Some((Unfold(row, raw) + row.offset, f))
  }

  // ----- proofs -----

  lemma {:induction false} CdfMonotone(row: Row, i: nat, j: nat)
    requires WellFormedRow(row) && i <= j < row.size
    ensures row.cdf[i] <= row.cdf[j]
    decreases j
  {
    if i < j { CdfMonotone(row, i, j - 1); }
  }

  lemma CodedValueRange(row: Row, symbol: int)
    requires WellFormedRow(row)
    ensures 0 <= CodedValue(row, symbol) < row.size - 1
    ensures var v := CodedValue(row, symbol); 0 <= row.cdf[v] && row.cdf[v + 1] <= SCALE
  {
    var v := CodedValue(row, symbol);
    CdfMonotone(row, 0, v);
    CdfMonotone(row, v + 1, row.size - 1);
  }

  lemma SearchFinds(row: Row, cumulative: int, s: nat)
    requires WellFormedRow(row) && s < row.size - 1
    requires row.cdf[s] <= cumulative < row.cdf[s + 1] <= SCALE
    requires 0 <= cumulative
    ensures Search(row, cumulative, 0) == s
  {
    var t := Search(row, cumulative, 0);
    if t < s { CdfMonotone(row, t + 1, s); }
    if s < t { CdfMonotone(row, s + 1, t); }
  }

  lemma {:induction false} PutBinsNormal(c: Coder, bins: seq<bin>)
    requires Normal(c)
    ensures Normal(PutBins(c, bins))
  {
    if bins != [] {
      PutBinsNormal(c, bins[1..]);
      GetBitsUndoesPutBits(PutBins(c, bins[1..]), bins[0]);
    }
  }

  lemma {:induction false} PutBinsConcat(c: Coder, left: seq<bin>, right: seq<bin>)
    ensures PutBins(c, left + right) == PutBins(PutBins(c, right), left)
  {
    if left == [] {
      assert left + right == right;
    } else {
      assert (left + right)[1..] == left[1..] + right;
      PutBinsConcat(c, left[1..], right);
    }
  }

  lemma {:induction false} GetUnaryUndoesPut(c: Coder, count: nat)
    requires Normal(c)
    ensures GetUnary(PutBins(c, Unary(count))) == Some((count, c))
  {
    var bins := Unary(count);
    assert bins[1..] == if count < 3 then [] else Unary(count - 3);
    PutBinsNormal(c, bins[1..]);
    GetBitsUndoesPutBits(PutBins(c, bins[1..]), bins[0]);
    if count >= 3 { GetUnaryUndoesPut(c, count - 3); }
  }

  lemma {:induction false} GetDigitsUndoesPut(c: Coder, raw: nat)
    requires Normal(c)
    ensures GetDigits(PutBins(c, Digits(raw)), DigitCount(raw)) == Some((raw, c))
  {
    if raw != 0 {
      var bins := Digits(raw);
      assert bins[1..] == Digits(raw / 4);
      PutBinsNormal(c, bins[1..]);
      GetBitsUndoesPutBits(PutBins(c, bins[1..]), bins[0]);
      GetDigitsUndoesPut(c, raw / 4);
    }
  }

  lemma GetRawUndoesPut(c: Coder, raw: nat)
    requires Normal(c)
    ensures Normal(PutBins(c, Bins(raw)))
    ensures GetRaw(PutBins(c, Bins(raw))) == Some((raw, c))
  {
    var e := PutBins(c, Digits(raw));
    PutBinsConcat(c, Unary(DigitCount(raw)), Digits(raw));
    PutBinsNormal(c, Digits(raw));
    PutBinsNormal(e, Unary(DigitCount(raw)));
    GetUnaryUndoesPut(e, DigitCount(raw));
    GetDigitsUndoesPut(c, raw);
  }

  lemma EscapedNormal(c: Coder, row: Row, symbol: int)
    requires Normal(c) && WellFormedRow(row)
    ensures Normal(Escaped(c, row, symbol))
  {
    if Escapes(row, symbol) { GetRawUndoesPut(c, RawValue(row, symbol)); }
  }

  /** Coding the table entry is undone by the search and RansDecAdvance. */
  lemma TableEntryUndone(c: Coder, row: Row, symbol: int)
    requires Normal(c) && Codable(row, symbol)
    ensures Normal(EncodeSymbol(c, row, symbol))
    ensures DecodeEntry(EncodeSymbol(c, row, symbol), row)
         == Some((CodedValue(row, symbol), Escaped(c, row, symbol)))
  {
    var v := CodedValue(row, symbol);
    CodedValueRange(row, symbol);
    EscapedNormal(c, row, symbol);
    AdvanceUndoesPut(Escaped(c, row, symbol), row.cdf[v], row.cdf[v + 1] - row.cdf[v]);
    SearchFinds(row, EncodeSymbol(c, row, symbol).state % SCALE, v);
  }

  lemma UnfoldUndoesFold(row: Row, symbol: int)
    requires WellFormedRow(row) && Escapes(row, symbol)
    ensures RawValue(row, symbol) >= 0
    ensures Unfold(row, RawValue(row, symbol)) + row.offset == symbol
  {
  }

  lemma EscapeUndone(e: Coder, c: Coder, row: Row, symbol: int)
    requires Normal(c) && Codable(row, symbol)
    requires DecodeEntry(e, row) == Some((CodedValue(row, symbol), Escaped(c, row, symbol)))
    ensures DecodeSymbol(e, row) == Some((symbol, c))
  {
    CodedValueRange(row, symbol);
    if Escapes(row, symbol) {
      UnfoldUndoesFold(row, symbol);
      var raw: nat := RawValue(row, symbol);
      assert GetRaw(Escaped(c, row, symbol)) == Some((raw, c)) by { GetRawUndoesPut(c, raw); }
    }
  }

  /** Decoding undoes encoding for every codable symbol, and the encoder state never leaves
      [L, 256 L). */
  lemma DecodeUndoesEncode(c: Coder, row: Row, symbol: int)
    requires Normal(c) && Codable(row, symbol)
    ensures Normal(EncodeSymbol(c, row, symbol))
    ensures DecodeSymbol(EncodeSymbol(c, row, symbol), row) == Some((symbol, c))
  {
    TableEntryUndone(c, row, symbol);
    EscapeUndone(EncodeSymbol(c, row, symbol), c, row, symbol);
  }

  // ----- output space -----

  lemma {:induction false} PutBinsLevel(c: Coder, bins: seq<bin>)
    requires Normal(c)
    ensures var d := PutBins(c, bins);
            4 * |d.bytes| + Level(d.state) == 4 * |c.bytes| + Level(c.state) + |bins|
  {
    if bins != [] {
      PutBinsLevel(c, bins[1..]);
      PutBinsNormal(c, bins[1..]);
      PutBitsLevel(PutBins(c, bins[1..]), bins[0]);
    }
  }

  function Pow4(n: nat): (p: nat)
    ensures 0 < p
  {
    if n == 0 then 1 else 4 * Pow4(n - 1)
  }

  lemma {:induction false} DigitCountBound(raw: nat, n: nat)
    requires raw < Pow4(n)
    ensures DigitCount(raw) <= n && |Digits(raw)| == DigitCount(raw)
    decreases n
  {
    if raw != 0 { DigitCountBound(raw / 4, n - 1); }
  }

  lemma {:induction false} UnaryLength(count: nat)
    ensures |Unary(count)| == count / 3 + 1
  {
    if count >= 3 { UnaryLength(count - 3); }
  }

  /** At most 15 digits and 6 prefix bins, so the 32-entry bin buffer of the source never overflows. */
  lemma BinCount(raw: nat)
    requires raw < RAW_LIMIT
    ensures DigitCount(raw) <= 15 && |Bins(raw)| <= 21
  {
    assert Pow4(15) == RAW_LIMIT by {
      assert Pow4(5) == 0x400;
      assert Pow4(10) == 0x10_0000;
    }
    DigitCountBound(raw, 15);
    UnaryLength(DigitCount(raw));
  }

  /** One symbol writes at most eight bytes. */
  lemma EncodeSymbolBytes(c: Coder, row: Row, symbol: int)
    requires Normal(c) && Codable(row, symbol)
    ensures |EncodeSymbol(c, row, symbol).bytes| <= |c.bytes| + 8
  {
    var v := CodedValue(row, symbol);
    CodedValueRange(row, symbol);
    EscapedNormal(c, row, symbol);
    if Escapes(row, symbol) {
      BinCount(RawValue(row, symbol));
      PutBinsLevel(c, Bins(RawValue(row, symbol)));
    }
    PutBytes(Escaped(c, row, symbol), row.cdf[v], row.cdf[v + 1] - row.cdf[v]);
  }
}
