/** EntropyEncoder and EntropyDecoder: hyper-latents (Z) and latents (Y) coded by one rANS coder, or by
    two whose streams are laid head to head in one buffer and share identical end bytes. */
module EntropyCodec {
  import opened Options
  import opened Bytes
  import opened RansByte
  import opened RansSymbol
  import opened RansStream
  import opened RansCore

  // ----- joining two streams -----

  function FromEnd(s: seq<byte>, i: nat): byte
    requires i < |s|
  {
    s[|s| - 1 - i]
  }

  /** How many trailing zero bytes two streams share, up to `limit`, the first `i` being known. */
  function SharedZeros(a: seq<byte>, b: seq<byte>, i: nat, limit: nat): (n: nat)
    requires i <= limit <= |a| && limit <= |b|
    ensures i <= n <= limit
    ensures forall k :: i <= k < n ==> FromEnd(a, k) == FromEnd(b, k) == 0
    decreases limit - i
  {
    if i == limit || FromEnd(a, i) != 0 || FromEnd(b, i) != 0 then i else SharedZeros(a, b, i + 1, limit)
  }

  function CheckLimit(a: seq<byte>, b: seq<byte>): nat {
    var least := if |a| <= |b| then |a| else |b|;
    if least <= 8 then least else 8
  }

  /** The number of bytes the two streams share in the joined buffer. */
  function Overlap(a: seq<byte>, b: seq<byte>): (n: nat)
    ensures n <= |a| && n <= |b|
    ensures forall k, m :: 0 <= k < n && 0 <= m < n ==> FromEnd(a, k) == FromEnd(b, m)
  {
    var zeros := SharedZeros(a, b, 0, CheckLimit(a, b));
    if zeros == 0 && a != [] && b != [] && FromEnd(a, 0) == FromEnd(b, 0) then 1 else zeros
  }

  function Joined(a: seq<byte>, b: seq<byte>): seq<byte> {
    a + Reverse(b)[Overlap(a, b)..]
  }

  lemma SharedZerosNext(a: seq<byte>, b: seq<byte>, i: nat, limit: nat)
    requires i <= limit <= |a| && limit <= |b|
    ensures SharedZeros(a, b, i, limit)
         == if i < limit && a[|a| - 1 - i] == 0 && b[|b| - 1 - i] == 0 then SharedZeros(a, b, i + 1, limit) else i
  {
  }

  /** FirstPart and FirstPartInto. */
  method FirstPart(a: seq<byte>, b: seq<byte>) returns (output: seq<byte>)
    ensures output == Joined(a, b)
  {
    var identical, limit := 0, |a|;
    if |b| < limit { limit := |b|; }
    if 8 < limit { limit := 8; }
    hide SharedZeros;
    while identical < limit && a[|a| - 1 - identical] == 0 && b[|b| - 1 - identical] == 0
      invariant identical <= limit
      invariant SharedZeros(a, b, identical, limit) == SharedZeros(a, b, 0, limit)
    {
      SharedZerosNext(a, b, identical, limit);
      identical := identical + 1;
    }
    SharedZerosNext(a, b, identical, limit);
    if identical == 0 && a != [] && b != [] && a[|a| - 1] == b[|b| - 1] {
      identical := 1;
    }
    output := a + Reverse(b)[identical..];
  }

  /** Read forwards the joined buffer starts with the first stream, read backwards with the second. */
  lemma JoinedHoldsBoth(a: seq<byte>, b: seq<byte>)
    ensures a <= Joined(a, b)
    ensures b <= Reverse(Joined(a, b))
  {
    hide Overlap;
    var n, j := Overlap(a, b), Joined(a, b);
    var r := Reverse(j);
    forall k | 0 <= k < |b| ensures r[k] == b[k] {
      var i := |b| - 1 - k;
      assert r[k] == j[|j| - 1 - k];
      if i < n {
        assert FromEnd(a, n - 1 - i) == FromEnd(b, i);
      } else {
        assert |j| - 1 - k == |a| + i - n;
        assert j[|a| + i - n] == Reverse(b)[i];
      }
    }
    assert r[..|b|] == b;
  }
  // ----- scales -----

  const SCALE_MIN: real := 0.11
  const SCALE_MAX: real := 16.0

  function Clip(scale: real): real {
    var raised := if scale < SCALE_MIN then SCALE_MIN else scale;
    if raised > SCALE_MAX then SCALE_MAX else raised
  }

  /** A latent is coded unless a zero threshold is set and its clipped scale does not exceed it. */
  predicate Kept(scale: real, threshold: Option<real>) {
    threshold.Some? ==> Clip(scale) > threshold.value
  }

  type ScaleIndex = real -> byte

  function EncoderIndexes(index: ScaleIndex, symbols: seq<int8>, scales: seq<real>, threshold: Option<real>): seq<int>
    requires |symbols| == |scales|
  {
    if scales == [] then []
    else
      var head := if Kept(scales[0], threshold) then [symbols[0] * 256 + index(Clip(scales[0]))] else [];
      head + EncoderIndexes(index, symbols[1..], scales[1..], threshold)
  }

  function DecoderIndexes(index: ScaleIndex, scales: seq<real>, threshold: Option<real>): (indexes: seq<byte>)
    ensures |indexes| <= |scales|
  {
    if scales == [] then []
    else
      var head: seq<byte> := if Kept(scales[0], threshold) then [index(Clip(scales[0]))] else [];
      head + DecoderIndexes(index, scales[1..], threshold)
  }

  function KeptSymbols(symbols: seq<int8>, scales: seq<real>, threshold: Option<real>): seq<int8>
    requires |symbols| == |scales|
  {
    if scales == [] then []
    else (if Kept(scales[0], threshold) then [symbols[0]] else []) + KeptSymbols(symbols[1..], scales[1..], threshold)
  }

  function KeptCount(scales: seq<real>, threshold: Option<real>): nat {
    if scales == [] then 0 else (if Kept(scales[0], threshold) then 1 else 0) + KeptCount(scales[1..], threshold)
  }

  /** Puts compacted symbols back in place, zeros elsewhere. */
  function Scatter(compact: seq<int8>, scales: seq<real>, threshold: Option<real>): (output: seq<int8>)
    requires |compact| == KeptCount(scales, threshold)
    ensures |output| == |scales|
  {
    if scales == [] then []
    else if Kept(scales[0], threshold) then [compact[0]] + Scatter(compact[1..], scales[1..], threshold)
    else [0] + Scatter(compact, scales[1..], threshold)
  }

  /** What a decoded tensor must be: zero exactly where nothing was coded. */
  function Masked(symbols: seq<int8>, scales: seq<real>, threshold: Option<real>): seq<int8>
    requires |symbols| == |scales|
  {
    seq(|scales|, i requires 0 <= i < |scales| => if Kept(scales[i], threshold) then symbols[i] else 0)
  }

  lemma {:induction false} IndexesAgree(index: ScaleIndex, symbols: seq<int8>, scales: seq<real>, threshold: Option<real>)
    requires |symbols| == |scales|
    ensures var encoded := EncoderIndexes(index, symbols, scales, threshold);
            var decoder := DecoderIndexes(index, scales, threshold);
            var kept := KeptSymbols(symbols, scales, threshold);
            && |encoded| == |decoder| == |kept| == KeptCount(scales, threshold)
            && forall i :: 0 <= i < |encoded| ==> encoded[i] % 256 == decoder[i] && encoded[i] / 256 == kept[i]
  {
    if scales != [] { IndexesAgree(index, symbols[1..], scales[1..], threshold); }
  }

  lemma {:induction false} ScatterRestores(symbols: seq<int8>, scales: seq<real>, threshold: Option<real>)
    requires |symbols| == |scales|
    ensures |KeptSymbols(symbols, scales, threshold)| == KeptCount(scales, threshold)
    ensures Scatter(KeptSymbols(symbols, scales, threshold), scales, threshold) == Masked(symbols, scales, threshold)
  {
    if scales != [] {
      ScatterRestores(symbols[1..], scales[1..], threshold);
      var kept := KeptSymbols(symbols, scales, threshold);
      if Kept(scales[0], threshold) {
        assert kept[1..] == KeptSymbols(symbols[1..], scales[1..], threshold);
      } else {
        assert kept == KeptSymbols(symbols[1..], scales[1..], threshold);
      }
      var first := if Kept(scales[0], threshold) then symbols[0] else 0;
      assert Masked(symbols, scales, threshold) == [first] + Masked(symbols[1..], scales[1..], threshold);
    }
  }

  // ----- parts: one EncodeZ or EncodeY call, and the matching decoder call -----

  datatype Settings = Settings(twoParts: bool, zChannel: int, zGroup: CdfGroup, gaussian: CdfGroup, index: ScaleIndex)

  datatype Shape =
    | ZShape(total: nat, qp: int, height: int, width: int)
    | YShape(scales: seq<real>, threshold: Option<real>)

  datatype Part = Part(shape: Shape, symbols: seq<int8>)

  function Groups(settings: Settings): seq<CdfGroup> {
    [settings.zGroup, settings.gaussian]
  }

  /** A Z part has a spatial size, which the coders divide by. */
  predicate Spatial(shape: Shape) {
    shape.ZShape? ==> 0 < shape.height * shape.width
  }

  /** What the decoder checks of a Z shape; the encoder takes totals that are no multiple of the spatial size. */
  predicate ShapeOk(shape: Shape) {
    Spatial(shape) && (shape.ZShape? ==> shape.total % (shape.height * shape.width) == 0)
  }

  predicate PartOk(part: Part) {
    && Spatial(part.shape)
    && |part.symbols| == (if part.shape.ZShape? then part.shape.total else |part.shape.scales|)
  }

  /** How many of `count` symbols go to the first coder. */
  function Split(settings: Settings, count: nat): (n: nat)
    ensures n <= count
  {
    if settings.twoParts then count / 2 else count
  }

  function FirstTask(settings: Settings, part: Part): PendingTask
    requires PartOk(part)
  {
    match part.shape
    case ZShape(total, qp, height, width) =>
      TaskZ(part.symbols[..Split(settings, total)], 0, qp * settings.zChannel, height * width)
    case YShape(scales, threshold) =>
      var encoded := EncoderIndexes(settings.index, part.symbols, scales, threshold);
      TaskY(encoded[..Split(settings, |encoded|)], 1)
  }

  function SecondTask(settings: Settings, part: Part): PendingTask
    requires PartOk(part)
  {
    match part.shape
    case ZShape(total, qp, height, width) =>
      var split := Split(settings, total);
      TaskZ(part.symbols[split..], 0, qp * settings.zChannel + split / (height * width), height * width)
    case YShape(scales, threshold) =>
      var encoded := EncoderIndexes(settings.index, part.symbols, scales, threshold);
      TaskY(encoded[Split(settings, |encoded|)..], 1)
  }

  function FirstTasks(settings: Settings, parts: seq<Part>): (tasks: seq<PendingTask>)
    requires forall i :: 0 <= i < |parts| ==> PartOk(parts[i])
  {
    if parts == [] then [] else [FirstTask(settings, parts[0])] + FirstTasks(settings, parts[1..])
  }

  /** Nothing is handed to the second coder in one-part mode. */
  function SecondTasks(settings: Settings, parts: seq<Part>): (tasks: seq<PendingTask>)
    requires forall i :: 0 <= i < |parts| ==> PartOk(parts[i])
  {
    if parts == [] || !settings.twoParts then []
    else [SecondTask(settings, parts[0])] + SecondTasks(settings, parts[1..])
  }

  /** Every symbol of every part can be coded with the row it meets. */
  predicate PartsCodable(settings: Settings, parts: seq<Part>) {
    && (forall i :: 0 <= i < |parts| ==> PartOk(parts[i]))
    && TasksOk(Groups(settings), FirstTasks(settings, parts))
    && TasksOk(Groups(settings), SecondTasks(settings, parts))
  }

  function FirstItems(settings: Settings, parts: seq<Part>): (items: seq<Item>)
    requires PartsCodable(settings, parts)
    ensures CodableItems(items)
  {
    Items(Groups(settings), FirstTasks(settings, parts))
  }

  function SecondItems(settings: Settings, parts: seq<Part>): (items: seq<Item>)
    requires PartsCodable(settings, parts)
    ensures CodableItems(items)
  {
    Items(Groups(settings), SecondTasks(settings, parts))
  }

  /** The bytes EntropyEncoder::Flush returns. */
  function EncodedBytes(settings: Settings, parts: seq<Part>): seq<byte>
    requires PartsCodable(settings, parts)
  {
    if settings.twoParts then Joined(StreamOf(FirstItems(settings, parts)), StreamOf(SecondItems(settings, parts)))
    else StreamOf(FirstItems(settings, parts))
  }

  // ----- decoding one part -----

  function GroupFor(settings: Settings, shape: Shape): CdfGroup {
    if shape.ZShape? then settings.zGroup else settings.gaussian
  }

  function FirstIndexes(settings: Settings, shape: Shape): seq<int>
    requires Spatial(shape)
  {
    match shape
    case ZShape(total, qp, height, width) =>
      ZIndexes(Split(settings, total), qp * settings.zChannel, height * width)
    case YShape(scales, threshold) =>
      var all := DecoderIndexes(settings.index, scales, threshold);
      all[..Split(settings, |all|)]
  }

  function SecondIndexes(settings: Settings, shape: Shape): seq<int>
    requires Spatial(shape)
  {
    match shape
    case ZShape(total, qp, height, width) =>
      var split := Split(settings, total);
      ZIndexes(total - split, qp * settings.zChannel + split / (height * width), height * width)
    case YShape(scales, threshold) =>
      var all := DecoderIndexes(settings.index, scales, threshold);
      all[Split(settings, |all|)..]
  }

  predicate ShapeDecodable(settings: Settings, shape: Shape) {
    && Spatial(shape)
    && IndexesOk(GroupFor(settings, shape), FirstIndexes(settings, shape))
    && IndexesOk(GroupFor(settings, shape), SecondIndexes(settings, shape))
  }

  /** The rows the two decoders read for a part, in order. */
  function FirstRows(settings: Settings, shape: Shape): (rows: seq<Row>)
    requires ShapeDecodable(settings, shape)
    ensures WellFormedRows(rows)
  {
    RowsFor(GroupFor(settings, shape), FirstIndexes(settings, shape))
  }

  function SecondRows(settings: Settings, shape: Shape): (rows: seq<Row>)
    requires ShapeDecodable(settings, shape)
    ensures WellFormedRows(rows)
  {
    RowsFor(GroupFor(settings, shape), SecondIndexes(settings, shape))
  }

  function Placed(shape: Shape, compact: seq<int8>): seq<int8> {
    if shape.YShape? && |compact| == KeptCount(shape.scales, shape.threshold)
    then Scatter(compact, shape.scales, shape.threshold) else compact
  }

  /** The tensor a decoder must produce for a part. */
  function Expected(part: Part): seq<int8>
    requires PartOk(part)
  {
    if part.shape.ZShape? then part.symbols else Masked(part.symbols, part.shape.scales, part.shape.threshold)
  }

  // ----- round trip -----

  lemma TaskRows(groups: seq<CdfGroup>, task: PendingTask, indexes: seq<int>, symbols: seq<int>)
    requires TaskOk(groups, task)
    requires |indexes| == |task.symbols| == |symbols|
    requires forall i :: 0 <= i < |indexes| ==> indexes[i] == RowIndex(task, i) && symbols[i] == SymbolAt(task, i)
    ensures IndexesOk(groups[task.group], indexes)
    ensures RowsOf(TaskItems(groups, task)) == RowsFor(groups[task.group], indexes)
    ensures SymbolsOf(TaskItems(groups, task)) == symbols
  {
    forall i | 0 <= i < |indexes| ensures IndexOk(groups[task.group], indexes[i]) {
      assert EntryOk(groups[task.group], task, i);
    }
    forall i | 0 <= i < |indexes|
      ensures RowsOf(TaskItems(groups, task))[i] == RowsFor(groups[task.group], indexes)[i]
    {
      assert TaskItems(groups, task)[i] == TaskItem(groups, task, i);
    }
  }

  /** The symbols the two coders carry for a part, before the decoder puts them back in place. */
  function CompactSymbols(settings: Settings, part: Part): seq<int8>
    requires PartOk(part)
  {
    if part.shape.ZShape? then part.symbols
    else KeptSymbols(part.symbols, part.shape.scales, part.shape.threshold)
  }

  lemma PartRows(settings: Settings, part: Part)
    requires PartOk(part)
    requires TaskOk(Groups(settings), FirstTask(settings, part)) && TaskOk(Groups(settings), SecondTask(settings, part))
    ensures ShapeDecodable(settings, part.shape)
    ensures var compact := CompactSymbols(settings, part);
            var split := Split(settings, |compact|);
            var first := TaskItems(Groups(settings), FirstTask(settings, part));
            var second := TaskItems(Groups(settings), SecondTask(settings, part));
            && RowsOf(first) == FirstRows(settings, part.shape) && SymbolsOf(first) == compact[..split]
            && RowsOf(second) == SecondRows(settings, part.shape) && SymbolsOf(second) == compact[split..]
  {
    var compact := CompactSymbols(settings, part);
    var split := Split(settings, |compact|);
    if part.shape.YShape? {
      IndexesAgree(settings.index, part.symbols, part.shape.scales, part.shape.threshold);
    }
    TaskRows(Groups(settings), FirstTask(settings, part), FirstIndexes(settings, part.shape), compact[..split]);
    TaskRows(Groups(settings), SecondTask(settings, part), SecondIndexes(settings, part.shape), compact[split..]);
  }

  lemma PlacedIsExpected(settings: Settings, part: Part)
    requires PartOk(part)
    ensures Placed(part.shape, CompactSymbols(settings, part)) == Expected(part)
  {
    if part.shape.YShape? { ScatterRestores(part.symbols, part.shape.scales, part.shape.threshold); }
  }

  /** The tensor of one part and the two decoders after it. */
  function DecodePart(settings: Settings, shape: Shape, c0: Coder, c1: Coder): Option<(seq<int8>, Coder, Coder)>
    requires ShapeDecodable(settings, shape)
  {
    match DecodeRows(c0, FirstRows(settings, shape))
    case None => None
    case Some((wide0, d0)) =>
      match DecodeRows(c1, SecondRows(settings, shape))
      case None => None
      case Some((wide1, d1)) => Some((Placed(shape, ToInt8All(wide0) + ToInt8All(wide1)), d0, d1))
  }

  predicate ShapesDecodable(settings: Settings, shapes: seq<Shape>) {
    forall i :: 0 <= i < |shapes| ==> ShapeDecodable(settings, shapes[i])
  }

  function DecodeParts(settings: Settings, shapes: seq<Shape>, c0: Coder, c1: Coder)
    : Option<(seq<seq<int8>>, Coder, Coder)>
    requires ShapesDecodable(settings, shapes)
    decreases |shapes|
  {
    if shapes == [] then Some(([], c0, c1))
    else match DecodePart(settings, shapes[0], c0, c1)
      case None => None
      case Some((output, d0, d1)) =>
        match DecodeParts(settings, shapes[1..], d0, d1)
        case None => None
        case Some((outputs, e0, e1)) => Some(([output] + outputs, e0, e1))
  }

  function Shapes(parts: seq<Part>): (shapes: seq<Shape>)
    ensures |shapes| == |parts|
  {
    seq(|parts|, i requires 0 <= i < |parts| => parts[i].shape)
  }

  function ExpectedAll(parts: seq<Part>): (tensors: seq<seq<int8>>)
    requires forall i :: 0 <= i < |parts| ==> PartOk(parts[i])
    ensures |tensors| == |parts|
  {
    seq(|parts|, i requires 0 <= i < |parts| => Expected(parts[i]))
  }

  /** `c` is where a decoder stands when `items` are still ahead of it and `e` is behind them. */
  predicate StandsBefore(c: Coder, items: seq<Item>, e: Coder)
    requires CodableItems(items)
  {
    items != [] ==> c == EncodeItems(e, items)
  }

  /** Where that decoder stops: a decoder with nothing to read never moves. */
  function End(c: Coder, items: seq<Item>, e: Coder): Coder {
    if items == [] then c else e
  }

  lemma TakeItems(c: Coder, items: seq<Item>, rest: seq<Item>, e: Coder)
    requires CodableItems(items) && CodableItems(rest) && Normal(e)
    requires CodableItems(items + rest) && StandsBefore(c, items + rest, e)
    ensures DecodeRows(c, RowsOf(items)).Some?
    ensures var (symbols, d) := DecodeRows(c, RowsOf(items)).value;
            && symbols == SymbolsOf(items)
            && StandsBefore(d, rest, e) && End(d, rest, e) == End(c, items + rest, e)
  {
    EncodeItemsConcat(e, items, rest);
    EncodeItemsNormal(e, rest);
    if items == [] {
      assert items + rest == rest;
      assert RowsOf(items) == [] && SymbolsOf(items) == [];
    } else {
      DecodeUndoesEncodeItems(EncodeItems(e, rest), items);
    }
  }

  lemma SecondTaskOk(settings: Settings, part: Part)
    requires PartOk(part) && TaskOk(Groups(settings), FirstTask(settings, part))
    requires !settings.twoParts
    ensures TaskOk(Groups(settings), SecondTask(settings, part))
    ensures TaskItems(Groups(settings), SecondTask(settings, part)) == []
  {
  }

  lemma HeadCodable(settings: Settings, parts: seq<Part>)
    requires PartsCodable(settings, parts) && parts != []
    ensures PartsCodable(settings, parts[1..])
    ensures TaskOk(Groups(settings), FirstTask(settings, parts[0]))
    ensures TaskOk(Groups(settings), SecondTask(settings, parts[0]))
    ensures FirstItems(settings, parts)
         == TaskItems(Groups(settings), FirstTask(settings, parts[0])) + FirstItems(settings, parts[1..])
    ensures SecondItems(settings, parts)
         == TaskItems(Groups(settings), SecondTask(settings, parts[0])) + SecondItems(settings, parts[1..])
  {
    var first, second := FirstTasks(settings, parts), SecondTasks(settings, parts);
    assert first[0] == FirstTask(settings, parts[0]) && first[1..] == FirstTasks(settings, parts[1..]);
    if settings.twoParts {
      assert second[0] == SecondTask(settings, parts[0]) && second[1..] == SecondTasks(settings, parts[1..]);
    } else {
      SecondTaskOk(settings, parts[0]);
    }
  }

  lemma NarrowedHalves(symbols: seq<int8>, n: nat)
    requires n <= |symbols|
    ensures ToInt8All(symbols[..n]) + ToInt8All(symbols[n..]) == symbols
  {
  }

  lemma BothRowsRead(settings: Settings, shape: Shape, c0: Coder, c1: Coder)
    requires ShapeDecodable(settings, shape) && DecodePart(settings, shape, c0, c1).Some?
    ensures DecodeRows(c0, FirstRows(settings, shape)).Some? && DecodeRows(c1, SecondRows(settings, shape)).Some?
  {
  }

  lemma BothRows(settings: Settings, shape: Shape, c0: Coder, c1: Coder,
                 wide0: seq<int>, d0: Coder, wide1: seq<int>, d1: Coder)
    requires ShapeDecodable(settings, shape)
    requires DecodeRows(c0, FirstRows(settings, shape)) == Some((wide0, d0))
    requires DecodeRows(c1, SecondRows(settings, shape)) == Some((wide1, d1))
    ensures DecodePart(settings, shape, c0, c1) == Some((Placed(shape, ToInt8All(wide0) + ToInt8All(wide1)), d0, d1))
  {
  }

  /** One part, whatever follows it in the two streams. */
  lemma PartRoundTrip(settings: Settings, part: Part, rest0: seq<Item>, rest1: seq<Item>,
                      c0: Coder, c1: Coder, e0: Coder, e1: Coder)
    requires PartOk(part) && Normal(e0) && Normal(e1) && CodableItems(rest0) && CodableItems(rest1)
    requires TaskOk(Groups(settings), FirstTask(settings, part)) && TaskOk(Groups(settings), SecondTask(settings, part))
    requires StandsBefore(c0, TaskItems(Groups(settings), FirstTask(settings, part)) + rest0, e0)
    requires StandsBefore(c1, TaskItems(Groups(settings), SecondTask(settings, part)) + rest1, e1)
    ensures ShapeDecodable(settings, part.shape)
    ensures DecodePart(settings, part.shape, c0, c1).Some?
    ensures var (output, d0, d1) := DecodePart(settings, part.shape, c0, c1).value;
            && output == Expected(part)
            && StandsBefore(d0, rest0, e0) && StandsBefore(d1, rest1, e1)
            && End(d0, rest0, e0) == End(c0, TaskItems(Groups(settings), FirstTask(settings, part)) + rest0, e0)
            && End(d1, rest1, e1) == End(c1, TaskItems(Groups(settings), SecondTask(settings, part)) + rest1, e1)
  {
    hide StandsBefore, End, DecodePart, DecodeRows, Placed, Expected, TaskOk, Codable;
    var first, second := TaskItems(Groups(settings), FirstTask(settings, part)), TaskItems(Groups(settings), SecondTask(settings, part));
    var compact := CompactSymbols(settings, part);
    var split := Split(settings, |compact|);
    TakeItems(c0, first, rest0, e0);
    TakeItems(c1, second, rest1, e1);
    var (wide0, d0) := DecodeRows(c0, RowsOf(first)).value;
    var (wide1, d1) := DecodeRows(c1, RowsOf(second)).value;
    PartRows(settings, part);
    BothRows(settings, part.shape, c0, c1, wide0, d0, wide1, d1);
    assert wide0 == compact[..split] && wide1 == compact[split..];
    NarrowedHalves(compact, split);
    PlacedIsExpected(settings, part);
  }

  lemma DecodePartsStep(settings: Settings, shape: Shape, shapes: seq<Shape>, c0: Coder, c1: Coder)
    requires ShapeDecodable(settings, shape) && ShapesDecodable(settings, shapes)
    requires DecodePart(settings, shape, c0, c1).Some?
    requires var (_, d0, d1) := DecodePart(settings, shape, c0, c1).value; DecodeParts(settings, shapes, d0, d1).Some?
    ensures ShapesDecodable(settings, [shape] + shapes)
    ensures var (output, d0, d1) := DecodePart(settings, shape, c0, c1).value;
            var (outputs, e0, e1) := DecodeParts(settings, shapes, d0, d1).value;
            DecodeParts(settings, [shape] + shapes, c0, c1) == Some(([output] + outputs, e0, e1))
  {
    var all := [shape] + shapes;
    assert all[0] == shape && all[1..] == shapes;
  }

  /** From the place where all parts lie ahead, both decoders together return the tensor of every part
      and stop where the encoders started. */
  lemma {:induction false} PartsRoundTrip(settings: Settings, parts: seq<Part>, c0: Coder, c1: Coder, e0: Coder, e1: Coder)
    requires PartsCodable(settings, parts) && Normal(e0) && Normal(e1)
    requires StandsBefore(c0, FirstItems(settings, parts), e0) && StandsBefore(c1, SecondItems(settings, parts), e1)
    ensures ShapesDecodable(settings, Shapes(parts))
    ensures DecodeParts(settings, Shapes(parts), c0, c1)
         == Some((ExpectedAll(parts), End(c0, FirstItems(settings, parts), e0), End(c1, SecondItems(settings, parts), e1)))
    decreases |parts|
  {
    if parts != [] {
      HeadCodable(settings, parts);
      PartRoundTrip(settings, parts[0], FirstItems(settings, parts[1..]), SecondItems(settings, parts[1..]), c0, c1, e0, e1);
      var (output, d0, d1) := DecodePart(settings, parts[0].shape, c0, c1).value;
      PartsRoundTrip(settings, parts[1..], d0, d1, e0, e1);
      HeadShapes(parts);
      DecodePartsStep(settings, parts[0].shape, Shapes(parts[1..]), c0, c1);
    }
  }

  lemma HeadShapes(parts: seq<Part>)
    requires parts != [] && forall i :: 0 <= i < |parts| ==> PartOk(parts[i])
    ensures Shapes(parts) == [parts[0].shape] + Shapes(parts[1..])
    ensures Shapes(parts)[1..] == Shapes(parts[1..])
    ensures ExpectedAll(parts) == [Expected(parts[0])] + ExpectedAll(parts[1..])
  {
  }

  /** Something was coded. */
  predicate AnySymbol(settings: Settings, parts: seq<Part>)
    requires PartsCodable(settings, parts)
  {
    FirstItems(settings, parts) != [] || SecondItems(settings, parts) != []
  }

  /** The four bytes each decoder reads when it is set up exist exactly when something was coded. */
  lemma BytesExistExactlyWhenCoded(settings: Settings, parts: seq<Part>)
    requires PartsCodable(settings, parts)
    ensures AnySymbol(settings, parts) <==> |EncodedBytes(settings, parts)| >= 4
  {
    JoinedHoldsBoth(StreamOf(FirstItems(settings, parts)), StreamOf(SecondItems(settings, parts)));
  }

  lemma FlushBefore(c: Coder, tail: seq<byte>)
    requires Normal(c)
    ensures Normal(Coder(c.state, c.bytes + tail))
    ensures InitState(FlushState(c) + tail) == Some(Coder(c.state, c.bytes + tail))
  {
    var all := Coder(c.state, c.bytes + tail);
    InitUndoesFlush(all);
    assert FlushState(c) + tail == FlushState(all);
  }

  lemma StandsAtStream(bytes: seq<byte>, items: seq<Item>)
    requires CodableItems(items) && |bytes| >= 4 && StreamOf(items) <= bytes
    ensures InitState(bytes).Some?
    ensures StandsBefore(InitState(bytes).value, items, Coder(LOWER, bytes[|StreamOf(items)|..]))
  {
    hide FlushState, Codable;
    if items != [] {
      var tail := bytes[|StreamOf(items)|..];
      assert bytes == StreamOf(items) + tail;
      EncodeItemsFrame(Start, tail, items);
      EncodeItemsNormal(Start, items);
      assert Start.bytes + tail == tail;
      FlushBefore(EncodeItems(Start, items), tail);
    }
  }

  /** The codec round trip, one coder or two: for every list of Z and Y parts with at least one coded
      symbol, decoding the encoded bytes gives every tensor back, with zeros exactly where the clipped
      scale does not exceed the threshold. */
  lemma CodecRoundTrip(settings: Settings, parts: seq<Part>)
    requires PartsCodable(settings, parts) && AnySymbol(settings, parts)
    ensures ShapesDecodable(settings, Shapes(parts))
    ensures var bytes := EncodedBytes(settings, parts);
            && InitState(bytes).Some? && InitState(Reverse(bytes)).Some?
            && var decoded := DecodeParts(settings, Shapes(parts), InitState(bytes).value, InitState(Reverse(bytes)).value);
               decoded.Some? && decoded.value.0 == ExpectedAll(parts)
  {
    var bytes := EncodedBytes(settings, parts);
    var first, second := FirstItems(settings, parts), SecondItems(settings, parts);
    BytesExistExactlyWhenCoded(settings, parts);
    JoinedHoldsBoth(StreamOf(first), StreamOf(second));
    StandsAtStream(bytes, first);
    StandsAtStream(Reverse(bytes), second);
    PartsRoundTrip(settings, parts, InitState(bytes).value, InitState(Reverse(bytes)).value,
                   Coder(LOWER, bytes[|StreamOf(first)|..]), Coder(LOWER, Reverse(bytes)[|StreamOf(second)|..]));
  }
}
