/** The EntropyEncoder and EntropyDecoder classes, proved against EntropyCodec. */
module EntropyObjects {
  import opened Options
  import opened Bytes
  import opened RansByte
  import opened RansStream
  import opened RansCore
  import opened EntropyCodec
  import opened EntropySlots

  /** What one scale adds to the encoder's indexes. */
  function PairAt(index: ScaleIndex, symbol: int8, scale: real, threshold: Option<real>): seq<int> {
    if Kept(scale, threshold) then [symbol * 256 + index(Clip(scale))] else []
  }

  lemma EncoderIndexesNext(index: ScaleIndex, symbols: seq<int8>, scales: seq<real>, threshold: Option<real>, i: nat)
    requires |symbols| == |scales| && i < |scales|
    ensures EncoderIndexes(index, symbols[i..], scales[i..], threshold)
         == PairAt(index, symbols[i], scales[i], threshold)
            + EncoderIndexes(index, symbols[i + 1..], scales[i + 1..], threshold)
  {
    assert symbols[i..][1..] == symbols[i + 1..] && scales[i..][1..] == scales[i + 1..];
  }

  lemma NoPairs(index: ScaleIndex, threshold: Option<real>)
    ensures EncoderIndexes(index, [], [], threshold) == []
  {
  }

  /** Fails when the two inputs differ in size. */
  method BuildIndexesEncoder(index: ScaleIndex, symbols: seq<int8>, scales: seq<real>, threshold: Option<real>)
    returns (encoded: Option<seq<int>>)
    ensures encoded.Some? <==> |symbols| == |scales|
    ensures encoded.Some? ==> encoded.value == EncoderIndexes(index, symbols, scales, threshold)
  {
    hide EncoderIndexes;
    if |symbols| != |scales| { return None; }
    var output: seq<int> := [];
    ghost var all := EncoderIndexes(index, symbols, scales, threshold);
    NoPairs(index, threshold);
    assert symbols[0..] == symbols && scales[0..] == scales;
    assert symbols[|symbols|..] == [] && scales[|scales|..] == [];
    for i := 0 to |symbols|
      invariant output + EncoderIndexes(index, symbols[i..], scales[i..], threshold) == all
    {
      EncoderIndexesNext(index, symbols, scales, threshold, i);
      var clipped := Clip(scales[i]);
      if threshold.Some? && clipped <= threshold.value { continue; }
      output := output + [symbols[i] * 256 + index(clipped)];
    }
    encoded := Some(output);
  }

  function KeepFlags(scales: seq<real>, threshold: Option<real>): (flags: seq<bool>)
    ensures |flags| == |scales|
  {
    seq(|scales|, i requires 0 <= i < |scales| => Kept(scales[i], threshold))
  }

  /** What one scale adds to the decoder's indexes. */
  function IndexAt(index: ScaleIndex, scale: real, threshold: Option<real>): seq<byte> {
    if Kept(scale, threshold) then [index(Clip(scale))] else []
  }

  lemma NoIndexes(index: ScaleIndex, threshold: Option<real>)
    ensures DecoderIndexes(index, [], threshold) == []
  {
  }

  lemma DecoderIndexesNext(index: ScaleIndex, scales: seq<real>, threshold: Option<real>, i: nat)
    requires i < |scales|
    ensures DecoderIndexes(index, scales[i..], threshold)
         == IndexAt(index, scales[i], threshold) + DecoderIndexes(index, scales[i + 1..], threshold)
  {
    assert scales[i..][1..] == scales[i + 1..];
  }

  method BuildIndexesDecoder(index: ScaleIndex, scales: seq<real>, threshold: Option<real>)
    returns (indexes: seq<byte>, keep: seq<bool>)
    ensures indexes == DecoderIndexes(index, scales, threshold)
    ensures keep == KeepFlags(scales, threshold)
  {
    hide DecoderIndexes;
    indexes, keep := [], [];
    ghost var all := DecoderIndexes(index, scales, threshold);
    NoIndexes(index, threshold);
    assert scales[0..] == scales && scales[|scales|..] == [];
    for i := 0 to |scales|
      invariant indexes + DecoderIndexes(index, scales[i..], threshold) == all
      invariant |keep| == i && forall j :: 0 <= j < i ==> keep[j] == Kept(scales[j], threshold)
    {
      DecoderIndexesNext(index, scales, threshold, i);
      var clipped := Clip(scales[i]);
      var kept := threshold.None? || clipped > threshold.value;
      keep := keep + [kept];
      if kept { indexes := indexes + [index(clipped)]; }
    }
  }

  class EntropyEncoder {
    const settings: Settings
    const encoder0: RansEncoderCore
    const encoder1: RansEncoderCore
    var ySlots: Slots
    var zSlots: Slots
    ghost var parts: seq<Part>

    ghost predicate Valid()
      reads this, encoder0, encoder1
    {
      && encoder0 != encoder1 && Sized(ySlots) && Sized(zSlots)
      && encoder0.groups == encoder1.groups == Groups(settings)
      && (forall i :: 0 <= i < |parts| ==> PartOk(parts[i]))
      && encoder0.pending == FirstTasks(settings, parts)
      && encoder1.pending == SecondTasks(settings, parts)
    }

    constructor (settings: Settings)
      ensures Valid() && parts == [] && this.settings == settings && ySlots == zSlots == NO_SLOTS
      ensures fresh(encoder0) && fresh(encoder1)
    {
      this.settings := settings;
      ySlots, zSlots := NO_SLOTS, NO_SLOTS;
      parts := [];
      var first := new RansEncoderCore();
      var second := new RansEncoderCore();
      var zGroup0 := first.AddCdf(settings.zGroup);
      var gaussianGroup0 := first.AddCdf(settings.gaussian);
      var zGroup1 := second.AddCdf(settings.zGroup);
      var gaussianGroup1 := second.AddCdf(settings.gaussian);
      encoder0, encoder1 := first, second;
    }

    /** Places for the Y parts of a frame and for one Z part; spare is what the allocator adds. */
    method Reserve(maxYParts: nat, spare: nat)
      requires Valid() && ySlots.used == zSlots.used == 0
      modifies this
      ensures Valid() && parts == old(parts)
      ensures ySlots == Resized(old(ySlots), maxYParts, spare) && zSlots == Cleared(Resized(old(zSlots), 1, spare))
    {
      ySlots := Resized(ySlots, maxYParts, spare);
      zSlots := Cleared(Resized(zSlots, 1, spare));
    }

    method Reset()
      requires Valid()
      modifies this, encoder0, encoder1
      ensures Valid() && parts == [] && ySlots == Returned(old(ySlots)) && zSlots == Cleared(old(zSlots))
    {
      encoder0.Reset();
      encoder1.Reset();
      zSlots := Cleared(zSlots);
      ySlots := Returned(ySlots);
      parts := [];
    }

    /** EncodeZ, and with view set EncodeZView, which points into the caller's vector. */
    method EncodeZ(symbols: seq<int8>, qp: int, height: int, width: int, view: bool, spare: nat)
      requires Valid()
      requires 0 < height * width
      modifies this, encoder0, encoder1
      ensures Valid() && ySlots == old(ySlots)
      ensures zSlots == if settings.twoParts && !view then Borrowed(old(zSlots), spare) else old(zSlots)
      ensures parts == old(parts) + [Part(ZShape(|symbols|, qp, height, width), symbols)]
    {
      if settings.twoParts && !view { zSlots := Borrowed(zSlots, spare); }
      ghost var part := Part(ZShape(|symbols|, qp, height, width), symbols);
      TasksSnoc(settings, parts, part);
      var perChannelSize := height * width;
      if settings.twoParts {
        var split := |symbols| / 2;
        var channelHalf := split / perChannelSize;
        encoder0.Enqueue(TaskZ(symbols[..split], 0, qp * settings.zChannel, perChannelSize));
        encoder1.Enqueue(TaskZ(symbols[split..], 0, qp * settings.zChannel + channelHalf, perChannelSize));
      } else {
        encoder0.Enqueue(TaskZ(symbols[..|symbols|], 0, qp * settings.zChannel, perChannelSize));
      }
      parts := parts + [part];
    }

    /** Fails when symbols and scales differ in size; a slot is taken even then. */
    method EncodeY(symbols: seq<int8>, scales: seq<real>, threshold: Option<real>, spare: nat) returns (ok: bool)
      requires Valid()
      modifies this, encoder0, encoder1
      ensures Valid() && ok == (|symbols| == |scales|)
      ensures ySlots == Borrowed(old(ySlots), spare) && zSlots == old(zSlots)
      ensures parts == old(parts) + if ok then [Part(YShape(scales, threshold), symbols)] else []
    {
      ySlots := Borrowed(ySlots, spare);
      var built := BuildIndexesEncoder(settings.index, symbols, scales, threshold);
      if built.None? { return false; }
      var encoded := built.value;
      ghost var part := Part(YShape(scales, threshold), symbols);
      TasksSnoc(settings, parts, part);
      if settings.twoParts {
        var split := |encoded| / 2;
        encoder0.Enqueue(TaskY(encoded[..split], 1));
        encoder1.Enqueue(TaskY(encoded[split..], 1));
      } else {
        encoder0.Enqueue(TaskY(encoded[..|encoded|], 1));
      }
      parts := parts + [part];
      ok := true;
    }

    /** Flush and FlushInto; every buffer a task points into must still be where it was. */
    method Flush() returns (bytes: seq<byte>)
      requires Valid() && PartsCodable(settings, parts) && ySlots.intact && zSlots.intact
      requires SymbolTotal(encoder0.pending) < 0x8000_0000 && SymbolTotal(encoder1.pending) < 0x8000_0000
      modifies encoder0`stream, encoder1`stream
      ensures Valid() && bytes == EncodedBytes(settings, parts)
    {
      encoder0.Flush();
      encoder1.Flush();
      if settings.twoParts {
        bytes := FirstPart(encoder0.stream, encoder1.stream);
      } else {
        bytes := encoder0.stream;
      }
    }
  }

  lemma {:induction false} TasksSnoc(settings: Settings, parts: seq<Part>, part: Part)
    requires PartOk(part) && forall i :: 0 <= i < |parts| ==> PartOk(parts[i])
    ensures FirstTasks(settings, parts + [part]) == FirstTasks(settings, parts) + [FirstTask(settings, part)]
    ensures SecondTasks(settings, parts + [part])
         == SecondTasks(settings, parts) + if settings.twoParts then [SecondTask(settings, part)] else []
  {
    if parts == [] {
      assert [part][1..] == [];
    } else {
      assert (parts + [part])[1..] == parts[1..] + [part];
      TasksSnoc(settings, parts[1..], part);
    }
  }

  /** DecodeYInto on symbols and bytes known to be there. */
  method ReadY(decoder: RansDecoderCore, indexes: seq<byte>, begin: nat, count: nat, output: array<int8>,
               ghost wide: seq<int>, ghost after: Coder)
    requires decoder.Valid() && |decoder.groups| == 2 && Consistent(decoder.groups[1])
    requires begin + count <= |indexes| && begin + count <= output.Length
    requires IndexesOk(decoder.groups[1], indexes[begin..begin + count])
    requires DecodeRows(decoder.Cursor(), RowsFor(decoder.groups[1], indexes[begin..begin + count])) == Some((wide, after))
    modifies decoder`ptr, decoder`state, output
    ensures decoder.Valid() && decoder.Cursor() == after && |wide| == count
    ensures output[..] == Overwritten(old(output[..]), begin, ToInt8All(wide))
  {
    hide DecodeRows, RowsFor, IndexesOk, Consistent, Overwritten;
    var ok := decoder.DecodeYInto(indexes, begin, count, 1, output, begin);
  }

  /** DecodeZInto on symbols and bytes known to be there. */
  method ReadZ(decoder: RansDecoderCore, total: nat, startOffset: int, perChannelSize: int, output: array<int8>,
               begin: nat, ghost wide: seq<int>, ghost after: Coder)
    requires decoder.Valid() && |decoder.groups| == 2 && Consistent(decoder.groups[0]) && 0 < perChannelSize
    requires begin + total <= output.Length
    requires IndexesOk(decoder.groups[0], ZIndexes(total, startOffset, perChannelSize))
    requires DecodeRows(decoder.Cursor(), RowsFor(decoder.groups[0], ZIndexes(total, startOffset, perChannelSize)))
          == Some((wide, after))
    modifies decoder`ptr, decoder`state, output
    ensures decoder.Valid() && decoder.Cursor() == after && |wide| == total
    ensures output[..] == Overwritten(old(output[..]), begin, ToInt8All(wide))
  {
    hide DecodeRows, RowsFor, IndexesOk, Consistent, Overwritten, ZIndexes;
    var ok := decoder.DecodeZInto(total, 0, startOffset, perChannelSize, output, begin);
  }

  class EntropyDecoder {
    const settings: Settings
    const decoder0: RansDecoderCore
    const decoder1: RansDecoderCore

    ghost predicate Valid()
      reads this, decoder0, decoder1
    {
      && decoder0 != decoder1
      && decoder0.groups == decoder1.groups == Groups(settings)
      && Consistent(settings.zGroup) && Consistent(settings.gaussian)
      && decoder0.Valid() && decoder1.Valid()
    }

    constructor (settings: Settings)
      requires Consistent(settings.zGroup) && Consistent(settings.gaussian)
      ensures Valid() && this.settings == settings
      ensures fresh(decoder0) && fresh(decoder1)
    {
      this.settings := settings;
      var first := new RansDecoderCore();
      var second := new RansDecoderCore();
      var zGroup0 := first.AddCdf(settings.zGroup);
      var gaussianGroup0 := first.AddCdf(settings.gaussian);
      var zGroup1 := second.AddCdf(settings.zGroup);
      var gaussianGroup1 := second.AddCdf(settings.gaussian);
      decoder0, decoder1 := first, second;
    }

    method SetStream(bytes: seq<byte>)
      requires Valid() && |bytes| >= 4
      modifies decoder0, decoder1
      ensures Valid()
      ensures InitState(bytes) == Some(decoder0.Cursor())
      ensures settings.twoParts ==> InitState(Reverse(bytes)) == Some(decoder1.Cursor())
    {
      decoder0.SetStream(bytes);
      if settings.twoParts {
        decoder1.SetStream(Reverse(bytes));
      }
    }

    /** The rows of the part exist and the streams hold enough bytes for it. */
    ghost predicate Ready(shape: Shape)
      requires Valid()
      reads this, decoder0, decoder1
    {
      ShapeDecodable(settings, shape) && DecodePart(settings, shape, decoder0.Cursor(), decoder1.Cursor()).Some?
    }

    /** Fails, reading nothing, when the total does not match the spatial shape. */
    method DecodeZ(total: nat, qp: int, height: int, width: int) returns (ok: bool, output: array<int8>)
      requires Valid()
      requires ShapeOk(ZShape(total, qp, height, width)) ==> Ready(ZShape(total, qp, height, width))
      modifies decoder0, decoder1
      ensures Valid() && fresh(output) && ok == ShapeOk(ZShape(total, qp, height, width))
      ensures !ok ==> decoder0.Cursor() == old(decoder0.Cursor()) && decoder1.Cursor() == old(decoder1.Cursor())
      ensures ok ==>
                DecodePart(settings, ZShape(total, qp, height, width), old(decoder0.Cursor()), old(decoder1.Cursor()))
                == Some((output[..], decoder0.Cursor(), decoder1.Cursor()))
    {
      var perChannelSize := height * width;
      if perChannelSize <= 0 || total % perChannelSize != 0 {
        output := new int8[0];
        return false, output;
      }
      output := new int8[total](_ => 0);
      DecodeZHalves(total, qp, height, width, output);
      ok := true;
    }

    method DecodeZHalves(total: nat, qp: int, height: int, width: int, output: array<int8>)
      requires Valid() && ShapeOk(ZShape(total, qp, height, width)) && Ready(ZShape(total, qp, height, width))
      requires output.Length == total
      modifies decoder0, decoder1, output
      ensures Valid()
      ensures DecodePart(settings, ZShape(total, qp, height, width), old(decoder0.Cursor()), old(decoder1.Cursor()))
           == Some((output[..], decoder0.Cursor(), decoder1.Cursor()))
    {
      hide RowsFor, DecodeRows, DecodePart, Overwritten, Consistent;
      ghost var shape, c0, c1, was := ZShape(total, qp, height, width), decoder0.Cursor(), decoder1.Cursor(), output[..];
      BothRowsRead(settings, shape, c0, c1);
      ghost var (wide0, d0) := DecodeRows(c0, FirstRows(settings, shape)).value;
      ghost var (wide1, d1) := DecodeRows(c1, SecondRows(settings, shape)).value;
      var perChannelSize := height * width;
      var split := Split(settings, total);
      ReadZ(decoder0, split, qp * settings.zChannel, perChannelSize, output, 0, wide0, d0);
      ghost var middle := output[..];
      if settings.twoParts {
        var channelHalf := split / perChannelSize;
        ReadZ(decoder1, total - split, qp * settings.zChannel + channelHalf, perChannelSize, output, split, wide1, d1);
      } else {
        NothingToRead(c1);
        NothingOver(output[..], split);
      }
      TwoHalves(was, middle, output[..], split, ToInt8All(wide0), ToInt8All(wide1));
      BothRows(settings, shape, c0, c1, wide0, d0, wide1, d1);
    }

    /** The compacted symbols, from one decoder or from two. */
    method DecodeCompact(indexes: seq<byte>, ghost shape: Shape) returns (compact: array<int8>)
      requires Valid() && shape.YShape? && Ready(shape)
      requires indexes == DecoderIndexes(settings.index, shape.scales, shape.threshold)
      modifies decoder0, decoder1
      ensures Valid() && fresh(compact)
      ensures compact.Length == |indexes|
      ensures DecodePart(settings, shape, old(decoder0.Cursor()), old(decoder1.Cursor()))
           == Some((Placed(shape, compact[..]), decoder0.Cursor(), decoder1.Cursor()))
    {
      hide RowsFor, DecodeRows, DecodePart, Overwritten, Consistent, DecoderIndexes, Placed, ShapeDecodable, FirstRows,
           SecondRows, IndexesOk, ToInt8All;
      compact := new int8[|indexes|](_ => 0);
      ghost var c0, c1, was := decoder0.Cursor(), decoder1.Cursor(), compact[..];
      BothRowsRead(settings, shape, c0, c1);
      ghost var (wide0, d0) := DecodeRows(c0, FirstRows(settings, shape)).value;
      ghost var (wide1, d1) := DecodeRows(c1, SecondRows(settings, shape)).value;
      var split := Split(settings, |indexes|);
      YRows(settings, shape, indexes);
      ReadY(decoder0, indexes, 0, split, compact, wide0, d0);
      ghost var middle := compact[..];
      if settings.twoParts {
        ReadY(decoder1, indexes, split, |indexes| - split, compact, wide1, d1);
      } else {
        NothingToRead(c1);
        NothingOver(compact[..], split);
      }
      TwoHalves(was, middle, compact[..], split, ToInt8All(wide0), ToInt8All(wide1));
      BothRows(settings, shape, c0, c1, wide0, d0, wide1, d1);
    }

    /** Puts the compacted symbols in place over an all-zero output. */
    method ScatterInto(compact: array<int8>, ghost scales: seq<real>, ghost threshold: Option<real>, keep: seq<bool>)
      returns (output: array<int8>)
      requires keep == KeepFlags(scales, threshold) && compact.Length == KeptCount(scales, threshold)
      ensures fresh(output) && output[..] == Scatter(compact[..], scales, threshold)
    {
      hide Scatter, KeptCount, KeepFlags;
      output := new int8[|keep|](_ => 0);
      var next := 0;
      ghost var symbols := compact[..];
      assert symbols[0..] == symbols && scales[0..] == scales;
      for i := 0 to |keep|
        invariant next + KeptCount(scales[i..], threshold) == |symbols| && compact[..] == symbols
        invariant output[..i] + Scatter(symbols[next..], scales[i..], threshold) == Scatter(symbols, scales, threshold)
        invariant forall j :: i <= j < output.Length ==> output[j] == 0
      {
        ghost var done := output[..i];
        KeepAt(scales, threshold, i);
        ScatterNext(done, symbols, scales, threshold, i, next);
        if keep[i] {
          output[i] := compact[next];
          next := next + 1;
        }
        assert output[..i + 1] == done + [output[i]];
      }
      ScatterEnd(symbols, scales, threshold, next);
      assert output[..|keep|] == output[..];
    }

    method DecodeY(scales: seq<real>, threshold: Option<real>) returns (output: array<int8>)
      requires Valid() && Ready(YShape(scales, threshold))
      modifies decoder0, decoder1
      ensures Valid() && fresh(output)
      ensures DecodePart(settings, YShape(scales, threshold), old(decoder0.Cursor()), old(decoder1.Cursor()))
           == Some((output[..], decoder0.Cursor(), decoder1.Cursor()))
    {
      var indexes, keep := BuildIndexesDecoder(settings.index, scales, threshold);
      var compact := DecodeCompact(indexes, YShape(scales, threshold));
      DecoderIndexCount(settings.index, scales, threshold);
      if threshold.None? {
        output := compact;
        ScatterKeepsAll(compact[..], scales);
        return;
      }
      output := ScatterInto(compact, scales, threshold, keep);
    }
  }

  lemma YRows(settings: Settings, shape: Shape, indexes: seq<byte>)
    requires shape.YShape? && ShapeDecodable(settings, shape)
    requires indexes == DecoderIndexes(settings.index, shape.scales, shape.threshold)
    ensures var split := Split(settings, |indexes|);
            && indexes[0..0 + split] == indexes[..split]
            && indexes[split..split + (|indexes| - split)] == indexes[split..]
            && IndexesOk(settings.gaussian, indexes[..split]) && IndexesOk(settings.gaussian, indexes[split..])
            && FirstRows(settings, shape) == RowsFor(settings.gaussian, indexes[..split])
            && SecondRows(settings, shape) == RowsFor(settings.gaussian, indexes[split..])
  {
  }

  lemma KeepAt(scales: seq<real>, threshold: Option<real>, i: nat)
    requires i < |scales|
    ensures KeepFlags(scales, threshold)[i] == Kept(scales[i], threshold)
  {
  }

  lemma ScatterEnd(compact: seq<int8>, scales: seq<real>, threshold: Option<real>, next: nat)
    requires next + KeptCount(scales[|scales|..], threshold) == |compact|
    ensures Scatter(compact[next..], scales[|scales|..], threshold) == []
  {
  }

  lemma ScatterNext(done: seq<int8>, compact: seq<int8>, scales: seq<real>, threshold: Option<real>, i: nat, next: nat)
    requires i < |scales| && next + KeptCount(scales[i..], threshold) == |compact|
    ensures var kept := Kept(scales[i], threshold);
            var after := if kept then next + 1 else next;
            && after + KeptCount(scales[i + 1..], threshold) == |compact|
            && done + Scatter(compact[next..], scales[i..], threshold)
               == (done + [if kept then compact[next] else 0]) + Scatter(compact[after..], scales[i + 1..], threshold)
  {
    assert scales[i..][1..] == scales[i + 1..];
    if Kept(scales[i], threshold) { assert compact[next..][1..] == compact[next + 1..]; }
  }

  lemma NothingToRead(c: Coder)
    ensures DecodeRows(c, []) == Some(([], c))
  {
  }

  lemma NothingOver(values: seq<int8>, begin: nat)
    requires begin <= |values|
    ensures Overwritten(values, begin, []) == values
  {
  }

  lemma TwoHalves(was: seq<int8>, middle: seq<int8>, now: seq<int8>, split: nat, first: seq<int8>, second: seq<int8>)
    requires |first| == split && |first| + |second| == |was|
    requires middle == Overwritten(was, 0, first)
    requires now == Overwritten(middle, split, second)
    ensures now == first + second
  {
  }

  lemma {:induction false} DecoderIndexCount(index: ScaleIndex, scales: seq<real>, threshold: Option<real>)
    ensures |DecoderIndexes(index, scales, threshold)| == KeptCount(scales, threshold)
  {
    if scales != [] { DecoderIndexCount(index, scales[1..], threshold); }
  }

  lemma {:induction false} ScatterKeepsAll(compact: seq<int8>, scales: seq<real>)
    requires |compact| == KeptCount(scales, None)
    ensures Scatter(compact, scales, None) == compact
  {
    if scales != [] { ScatterKeepsAll(compact[1..], scales[1..]); }
    else { assert KeptCount(scales, None) == 0; }
  }
}
