/** Whole rANS streams: the pending task list of RansEncoderCore flattened to items (a CDF row and a
    symbol each), coded last to first, and decoded first to last. */
module RansStream {
  import opened Options
  import opened Bytes
  import opened RansByte
  import opened RansSymbol

  datatype TableEntry = TableEntry(start: int, range: int)

  datatype CdfGroup = CdfGroup(
    cdfs: seq<seq<int>>, lengths: seq<int>, offsets: seq<int>, symbols: seq<seq<TableEntry>>)

  /** What MakeCdfGroup establishes: one symbol table per row, holding the starts and frequencies of
      the row narrowed to 16 bits, and a zero entry in its last column. */
  predicate Consistent(group: CdfGroup) {
    && |group.cdfs| == |group.lengths| == |group.offsets| == |group.symbols|
    && forall r :: 0 <= r < |group.cdfs| ==> TableOf(group.symbols[r], group.cdfs[r])
  }

  predicate TableOf(table: seq<TableEntry>, cdf: seq<int>) {
    && |table| == |cdf|
    && forall i :: 0 <= i < |cdf| - 1 ==> table[i] == EntryAt(cdf, i)
  }

  function EntryAt(cdf: seq<int>, i: int): TableEntry
    requires 0 <= i < |cdf| - 1
  {
    TableEntry(cdf[i] % SCALE, (cdf[i + 1] - cdf[i]) % SCALE)
  }

  function RowAt(group: CdfGroup, index: int): Row
    requires Consistent(group) && 0 <= index < |group.cdfs|
  {
    Row(group.cdfs[index], group.lengths[index], group.offsets[index])
  }

  datatype Item = Item(row: Row, symbol: int)

  predicate CodableItems(items: seq<Item>) {
    forall i :: 0 <= i < |items| ==> Codable(items[i].row, items[i].symbol)
  }

  predicate WellFormedRows(rows: seq<Row>) {
    forall i :: 0 <= i < |rows| ==> WellFormedRow(rows[i])
  }

  function RowsOf(items: seq<Item>): (rows: seq<Row>)
    ensures CodableItems(items) ==> WellFormedRows(rows)
  {
    seq(|items|, i requires 0 <= i < |items| => items[i].row)
  }

  function SymbolsOf(items: seq<Item>): seq<int> {
    seq(|items|, i requires 0 <= i < |items| => items[i].symbol)
  }

  function EncodeItems(c: Coder, items: seq<Item>): Coder
    requires CodableItems(items)
  {
    if items == [] then c
    else EncodeSymbol(EncodeItems(c, items[1..]), items[0].row, items[0].symbol)
  }

  function DecodeRows(c: Coder, rows: seq<Row>): Option<(seq<int>, Coder)>
    requires WellFormedRows(rows)
    decreases |rows|
  {
    if rows == [] then Some(([], c))
    else match DecodeSymbol(c, rows[0])
      case None => None
      case Some((symbol, d)) => Prepend([symbol], DecodeRows(d, rows[1..]))
  }

  function Prepend(first: seq<int>, decoded: Option<(seq<int>, Coder)>): Option<(seq<int>, Coder)> {
    match decoded
    case None => None
    case Some((rest, c)) => Some((first + rest, c))
  }

  const Start: Coder := Coder(LOWER, [])

  /** The stream RansEncoderCore::Flush leaves behind. */
  function StreamOf(items: seq<Item>): seq<byte>
    requires CodableItems(items)
  {
    if items == [] then [] else FlushState(EncodeItems(Start, items))
  }

  // ----- round trip -----

  lemma {:induction false} EncodeItemsNormal(c: Coder, items: seq<Item>)
    requires Normal(c) && CodableItems(items)
    ensures Normal(EncodeItems(c, items))
  {
    if items != [] {
      EncodeItemsNormal(c, items[1..]);
      DecodeUndoesEncode(EncodeItems(c, items[1..]), items[0].row, items[0].symbol);
    }
  }

  /** Decoding takes exactly the coded items off the coder, in coding order, whatever follows. */
  lemma {:induction false} DecodeUndoesEncodeItems(c: Coder, items: seq<Item>)
    requires Normal(c) && CodableItems(items)
    ensures DecodeRows(EncodeItems(c, items), RowsOf(items)) == Some((SymbolsOf(items), c))
  {
    if items != [] {
      EncodeItemsNormal(c, items[1..]);
      DecodeUndoesEncode(EncodeItems(c, items[1..]), items[0].row, items[0].symbol);
      DecodeUndoesEncodeItems(c, items[1..]);
      assert RowsOf(items)[1..] == RowsOf(items[1..]);
      assert SymbolsOf(items) == [items[0].symbol] + SymbolsOf(items[1..]);
    }
  }

  lemma {:induction false} EncodeItemsConcat(c: Coder, left: seq<Item>, right: seq<Item>)
    requires CodableItems(left) && CodableItems(right)
    ensures CodableItems(left + right)
    ensures EncodeItems(c, left + right) == EncodeItems(EncodeItems(c, right), left)
  {
    if left == [] {
      assert left + right == right;
    } else {
      assert (left + right)[1..] == left[1..] + right;
      EncodeItemsConcat(c, left[1..], right);
    }
  }

  lemma PrependNothing(decoded: Option<(seq<int>, Coder)>)
    ensures Prepend([], decoded) == decoded
  {
    if decoded.Some? { assert [] + decoded.value.0 == decoded.value.0; }
  }

  lemma PrependTwice(a: seq<int>, b: seq<int>, decoded: Option<(seq<int>, Coder)>)
    ensures Prepend(a, Prepend(b, decoded)) == Prepend(a + b, decoded)
  {
    if decoded.Some? { assert a + (b + decoded.value.0) == (a + b) + decoded.value.0; }
  }

  // ----- bytes after the stream do not matter -----

  lemma PutBitsFrame(c: Coder, tail: seq<byte>, value: nat)
    ensures PutBits(Coder(c.state, c.bytes + tail), value)
         == var d := PutBits(c, value); Coder(d.state, d.bytes + tail)
  {
    RenormFrame(c.state, c.bytes, tail, BIT_LIMIT);
  }

  lemma PutFrame(c: Coder, tail: seq<byte>, start: nat, freq: nat)
    requires 0 < freq
    ensures Put(Coder(c.state, c.bytes + tail), start, freq)
         == var d := Put(c, start, freq); Coder(d.state, d.bytes + tail)
  {
    RenormFrame(c.state, c.bytes, tail, freq * RENORM);
  }

  lemma {:induction false} PutBinsFrame(c: Coder, tail: seq<byte>, bins: seq<bin>)
    ensures PutBins(Coder(c.state, c.bytes + tail), bins)
         == var d := PutBins(c, bins); Coder(d.state, d.bytes + tail)
  {
    if bins != [] {
      PutBinsFrame(c, tail, bins[1..]);
      PutBitsFrame(PutBins(c, bins[1..]), tail, bins[0]);
    }
  }

  lemma EncodeSymbolFrame(c: Coder, tail: seq<byte>, row: Row, symbol: int)
    requires Codable(row, symbol)
    ensures EncodeSymbol(Coder(c.state, c.bytes + tail), row, symbol)
         == var d := EncodeSymbol(c, row, symbol); Coder(d.state, d.bytes + tail)
  {
    var v := CodedValue(row, symbol);
    CodedValueRange(row, symbol);
    if Escapes(row, symbol) { PutBinsFrame(c, tail, Bins(RawValue(row, symbol))); }
    PutFrame(Escaped(c, row, symbol), tail, row.cdf[v], row.cdf[v + 1] - row.cdf[v]);
  }

  lemma {:induction false} EncodeItemsFrame(c: Coder, tail: seq<byte>, items: seq<Item>)
    requires CodableItems(items)
    ensures EncodeItems(Coder(c.state, c.bytes + tail), items)
         == var d := EncodeItems(c, items); Coder(d.state, d.bytes + tail)
  {
    if items != [] {
      EncodeItemsFrame(c, tail, items[1..]);
      EncodeSymbolFrame(EncodeItems(c, items[1..]), tail, items[0].row, items[0].symbol);
    }
  }

  /** The stream round trip.  Whatever bytes follow a flushed stream, a decoder that starts on it
      returns every symbol in task order, ends in the state the encoder started from, and has read
      the stream up to its last byte and not one byte further. */
  lemma StreamRoundTrip(items: seq<Item>, tail: seq<byte>)
    requires CodableItems(items) && items != []
    ensures InitState(StreamOf(items) + tail).Some?
    ensures DecodeRows(InitState(StreamOf(items) + tail).value, RowsOf(items))
         == Some((SymbolsOf(items), Coder(LOWER, tail)))
  {
    var c := Coder(LOWER, tail);
    assert c.bytes == Start.bytes + tail;
    EncodeItemsFrame(Start, tail, items);
    var e := EncodeItems(c, items);
    assert FlushState(EncodeItems(Start, items)) + tail == FlushState(e);
    EncodeItemsNormal(c, items);
    InitUndoesFlush(e);
    DecodeUndoesEncodeItems(c, items);
  }

  // ----- output space -----

  lemma {:induction false} EncodeItemsBytes(c: Coder, items: seq<Item>)
    requires Normal(c) && CodableItems(items)
    ensures |EncodeItems(c, items).bytes| <= |c.bytes| + 8 * |items|
  {
    if items != [] {
      EncodeItemsBytes(c, items[1..]);
      EncodeItemsNormal(c, items[1..]);
      EncodeSymbolBytes(EncodeItems(c, items[1..]), items[0].row, items[0].symbol);
    }
  }

  /** The scratch area of Flush, 8 bytes a symbol and 1024 more, is never exceeded. */
  lemma StreamFitsScratch(items: seq<Item>)
    requires CodableItems(items)
    ensures |StreamOf(items)| <= 8 * |items| + 4
  {
    EncodeItemsBytes(Start, items);
  }
}
