/** RansEncoderCore and RansDecoderCore: the in-place coder over a scratch buffer that is filled
    backwards, the pending task list, and the decoder's cursor over a stream. */
module RansCore {
  import opened Options
  import opened Bytes
  import opened RansByte
  import opened RansSymbol
  import opened RansStream

  // ----- pending tasks -----

  /** A Y task carries (symbol << 8) + row index in each entry; a Z task finds its row from the
      position of the symbol. */
  datatype PendingTask =
    | TaskY(symbols: seq<int>, group: nat)
    | TaskZ(symbols: seq<int>, group: nat, startOffset: int, perChannelSize: int)

  function RowIndex(task: PendingTask, i: nat): int
    requires i < |task.symbols|
    requires task.TaskZ? ==> 0 < task.perChannelSize
  {
    match task
    case TaskY(symbols, _) => symbols[i] % 256
    case TaskZ(_, _, startOffset, perChannelSize) => i / perChannelSize + startOffset
  }

  function SymbolAt(task: PendingTask, i: nat): int
    requires i < |task.symbols|
  {
    match task
    case TaskY(symbols, _) => symbols[i] / 256
    case TaskZ(symbols, _, _, _) => symbols[i]
  }

  /** The rows a task names exist and every symbol can be coded with its row. */
  predicate TaskOk(groups: seq<CdfGroup>, task: PendingTask) {
    && task.group < |groups|
    && Consistent(groups[task.group])
    && (task.TaskZ? ==> 0 < task.perChannelSize)
    && forall i :: 0 <= i < |task.symbols| ==> EntryOk(groups[task.group], task, i)
  }

  predicate EntryOk(group: CdfGroup, task: PendingTask, i: nat)
    requires Consistent(group) && i < |task.symbols|
    requires task.TaskZ? ==> 0 < task.perChannelSize
  {
    && 0 <= RowIndex(task, i) < |group.cdfs|
    && Codable(RowAt(group, RowIndex(task, i)), SymbolAt(task, i))
  }

  predicate TasksOk(groups: seq<CdfGroup>, tasks: seq<PendingTask>) {
    forall t :: 0 <= t < |tasks| ==> TaskOk(groups, tasks[t])
  }

  function TaskItem(groups: seq<CdfGroup>, task: PendingTask, i: nat): (item: Item)
    requires TaskOk(groups, task) && i < |task.symbols|
    ensures Codable(item.row, item.symbol)
  {
    assert EntryOk(groups[task.group], task, i);
    Item(RowAt(groups[task.group], RowIndex(task, i)), SymbolAt(task, i))
  }

  function TaskItems(groups: seq<CdfGroup>, task: PendingTask): (items: seq<Item>)
    requires TaskOk(groups, task)
    ensures |items| == |task.symbols| && CodableItems(items)
  {
    seq(|task.symbols|, i requires 0 <= i < |task.symbols| => TaskItem(groups, task, i))
  }

  /** All items of a task list, in decoding order. */
  function Items(groups: seq<CdfGroup>, tasks: seq<PendingTask>): (items: seq<Item>)
    requires TasksOk(groups, tasks)
    ensures CodableItems(items)
  {
    if tasks == [] then [] else TaskItems(groups, tasks[0]) + Items(groups, tasks[1..])
  }

  lemma {:induction false} ItemsConcat(groups: seq<CdfGroup>, left: seq<PendingTask>, right: seq<PendingTask>)
    requires TasksOk(groups, left) && TasksOk(groups, right)
    ensures TasksOk(groups, left + right)
    ensures Items(groups, left + right) == Items(groups, left) + Items(groups, right)
  {
    if left == [] {
      assert left + right == right;
    } else {
      assert (left + right)[1..] == left[1..] + right;
      ItemsConcat(groups, left[1..], right);
    }
  }

  // ----- in-place primitives: `ptr` is where the next byte goes just before -----

  function Tail(a: array<byte>, ptr: nat, state: nat): Coder
    requires ptr <= a.Length
    reads a
  {
    Coder(state, a[ptr..])
  }

  lemma {:induction false} RenormGrows(c: Coder, limit: nat)
    requires 0 < limit
    ensures |c.bytes| <= |Renorm(c, limit).bytes|
    decreases c.state
  {
    if c.state >= limit { RenormGrows(Coder(c.state / 256, [c.state % 256] + c.bytes), limit); }
  }

  method RansEncRenorm(a: array<byte>, ptr0: nat, state0: nat, limit: nat) returns (ptr: nat, state: nat)
    requires ptr0 <= a.Length && 0 < limit
    requires |Renorm(Tail(a, ptr0, state0), limit).bytes| <= a.Length
    modifies a
    ensures ptr <= a.Length
    ensures Tail(a, ptr, state) == Renorm(old(Tail(a, ptr0, state0)), limit)
  {
    ptr, state := ptr0, state0;
    while state >= limit
      invariant ptr <= a.Length
      invariant Renorm(Tail(a, ptr, state), limit) == Renorm(old(Tail(a, ptr0, state0)), limit)
      decreases state
    {
      ghost var rest := a[ptr..];
      RenormGrows(Coder(state / 256, [state % 256] + rest), limit);
      ptr := ptr - 1;
      a[ptr] := state % 256;
      assert a[ptr..] == [state % 256] + rest;
      state := state / 256;
    }
  }

  method RansEncPut(a: array<byte>, ptr0: nat, state0: nat, start: nat, freq: nat) returns (ptr: nat, state: nat)
    requires ptr0 <= a.Length && 0 < freq
    requires |Put(Tail(a, ptr0, state0), start, freq).bytes| <= a.Length
    modifies a
    ensures ptr <= a.Length
    ensures Tail(a, ptr, state) == Put(old(Tail(a, ptr0, state0)), start, freq)
  {
    ptr, state := RansEncRenorm(a, ptr0, state0, freq * RENORM);
    state := (state / freq) * SCALE + state % freq + start;
  }

  method RansEncPutBits(a: array<byte>, ptr0: nat, state0: nat, value: nat) returns (ptr: nat, state: nat)
    requires ptr0 <= a.Length
    requires |PutBits(Tail(a, ptr0, state0), value).bytes| <= a.Length
    modifies a
    ensures ptr <= a.Length
    ensures Tail(a, ptr, state) == PutBits(old(Tail(a, ptr0, state0)), value)
  {
    ptr, state := RansEncRenorm(a, ptr0, state0, BIT_LIMIT);
    state := state * 4 + value;
  }

  method RansEncFlush(a: array<byte>, ptr0: nat, state: nat) returns (ptr: nat)
    requires 4 <= ptr0 <= a.Length
    modifies a
    ensures ptr == ptr0 - 4
    ensures a[ptr..] == FlushState(old(Tail(a, ptr0, state)))
  {
    ptr := ptr0 - 4;
    a[ptr] := state % 256;
    a[ptr + 1] := state / 0x100 % 256;
    a[ptr + 2] := state / 0x1_0000 % 256;
    a[ptr + 3] := state / 0x100_0000 % 256;
    assert a[ptr..] == a[ptr..ptr0] + a[ptr0..];
  }

  // ----- bypass bins -----

  /** raw >> (i * kBypassPrecision) */
  function Shifted(raw: nat, i: nat): nat {
    if i == 0 then raw else Shifted(raw, i - 1) / 4
  }

  method CountDigits(raw: nat) returns (count: nat)
    ensures count == DigitCount(raw)
  {
    count := 0;
    while Shifted(raw, count) != 0
      invariant DigitCount(raw) == count + DigitCount(Shifted(raw, count))
      decreases DigitCount(raw) - count
    {
      count := count + 1;
    }
  }

  /** The digit count in runs of at most three. */
  method UnaryInto(bins: array<bin>, total: nat) returns (count: nat)
    requires |Unary(total)| <= bins.Length
    modifies bins
    ensures count <= bins.Length && bins[..count] == Unary(total)
  {
    count := 0;
    var remaining := total;
    while remaining >= 3
      invariant 0 <= remaining && count + |Unary(remaining)| == |Unary(total)|
      invariant bins[..count] + Unary(remaining) == Unary(total)
    {
      ghost var before := bins[..count];
      bins[count] := 3;
      count := count + 1;
      assert bins[..count] == before + [3];
      assert before + ([3] + Unary(remaining - 3)) == (before + [3]) + Unary(remaining - 3);
      remaining := remaining - 3;
    }
    ghost var before := bins[..count];
    bins[count] := remaining;
    count := count + 1;
    assert bins[..count] == before + [remaining];
  }

  lemma NextDigit(done: seq<bin>, rest: nat)
    requires Digits(rest) != []
    ensures done + Digits(rest) == (done + [rest % 4]) + Digits(rest / 4)
    ensures |Digits(rest)| == 1 + |Digits(rest / 4)|
  {
    assert done + ([rest % 4] + Digits(rest / 4)) == (done + [rest % 4]) + Digits(rest / 4);
  }

  /** The digits of an escape value, least significant first, from slot `from` on. */
  method DigitsInto(bins: array<bin>, from: nat, raw: nat, total: nat)
    requires total == |Digits(raw)| && from + total <= bins.Length
    modifies bins
    ensures bins[..from + total] == old(bins[..from]) + Digits(raw)
  {
    ghost var target := bins[..from] + Digits(raw);
    for i := 0 to total
      invariant |Digits(Shifted(raw, i))| == total - i
      invariant bins[..from + i] + Digits(Shifted(raw, i)) == target
    {
      ghost var done := bins[..from + i];
      NextDigit(done, Shifted(raw, i));
      var digit := Shifted(raw, i) % 4;
      bins[from + i] := digit;
      assert bins[..from + i + 1] == done + [digit];
    }
  }

  /** Fills the 32-entry bin buffer of the source. */
  method BuildBins(raw: nat) returns (bins: array<bin>, count: nat)
    requires raw < RAW_LIMIT
    ensures fresh(bins) && count <= bins.Length == 32
    ensures bins[..count] == Bins(raw)
  {
    BinCount(raw);
    DigitsLength(raw);
    bins := new bin[32](_ => 0);
    var bypassCount := CountDigits(raw);
    count := UnaryInto(bins, bypassCount);
    DigitsInto(bins, count, raw, bypassCount);
    count := count + bypassCount;
  }

  lemma {:induction false} DigitsLength(raw: nat)
    ensures |Digits(raw)| == DigitCount(raw)
  {
    if raw != 0 { DigitsLength(raw / 4); }
  }

  lemma {:induction false} PutBinsGrows(c: Coder, bins: seq<bin>, i: nat)
    requires i <= |bins|
    ensures |PutBins(c, bins[i..]).bytes| <= |PutBins(c, bins).bytes|
    decreases i
  {
    if i > 0 {
      RenormGrows(PutBins(c, bins[i..]), BIT_LIMIT);
      assert bins[i - 1..][1..] == bins[i..];
      PutBinsGrows(c, bins, i - 1);
    }
  }

  /** Writes the first `count` bins, last one first. */
  method PutBinsInPlace(a: array<byte>, ptr0: nat, state0: nat, bins: array<bin>, count: nat)
    returns (ptr: nat, state: nat)
    requires ptr0 <= a.Length && count <= bins.Length && a as object != bins
    requires |PutBins(Tail(a, ptr0, state0), bins[..count]).bytes| <= a.Length
    modifies a
    ensures ptr <= a.Length
    ensures Tail(a, ptr, state) == PutBins(old(Tail(a, ptr0, state0)), old(bins[..count]))
  {
    ptr, state := ptr0, state0;
    ghost var c, all := Tail(a, ptr0, state0), bins[..count];
    for i := count downto 0
      invariant ptr <= a.Length && bins[..count] == all
      invariant Tail(a, ptr, state) == PutBins(c, all[i..])
    {
      assert all[i..][1..] == all[i + 1..];
      PutBinsGrows(c, all, i);
      ptr, state := RansEncPutBits(a, ptr, state, bins[i]);
    }
    assert all[0..] == all;
  }

  lemma EntryIsExact(row: Row, symbol: int, table: seq<TableEntry>)
    requires Codable(row, symbol) && TableOf(table, row.cdf)
    ensures 0 <= CodedValue(row, symbol) < row.size - 1
    ensures var v := CodedValue(row, symbol);
            table[v] == TableEntry(row.cdf[v], row.cdf[v + 1] - row.cdf[v])
  {
    CodedValueRange(row, symbol);
    assert table[CodedValue(row, symbol)] == EntryAt(row.cdf, CodedValue(row, symbol));
  }

  /** RansEncoderCore::EncodeOneSymbol on the scratch buffer computes EncodeSymbol. */
  method EncodeOneSymbol(a: array<byte>, ptr0: nat, state0: nat, symbol: int, ghost row: Row,
                         cdfSize: int, offset: int, table: seq<TableEntry>)
    returns (ptr: nat, state: nat)
    requires ptr0 <= a.Length && Normal(Tail(a, ptr0, state0))
    requires Codable(row, symbol) && row.size == cdfSize && row.offset == offset && TableOf(table, row.cdf)
    requires |EncodeSymbol(Tail(a, ptr0, state0), row, symbol).bytes| <= a.Length
    modifies a
    ensures ptr <= a.Length
    ensures Tail(a, ptr, state) == EncodeSymbol(old(Tail(a, ptr0, state0)), row, symbol)
  {
    ptr, state := ptr0, state0;
    ghost var c := Tail(a, ptr, state);
    EntryIsExact(row, symbol, table);
    RenormGrows(Escaped(c, row, symbol), (row.cdf[CodedValue(row, symbol) + 1] - row.cdf[CodedValue(row, symbol)]) * RENORM);

    var maxValue := cdfSize - 2;
    var value := symbol - offset;
    var raw := 0;
    if value < 0 {
      raw := -2 * value - 1;
      value := maxValue;
    } else if value >= maxValue {
      raw := 2 * (value - maxValue);
      value := maxValue;
    }
    if value == maxValue {
      var bins, count := BuildBins(raw);
      ptr, state := PutBinsInPlace(a, ptr, state, bins, count);
    }
    assert Tail(a, ptr, state) == Escaped(c, row, symbol);
    ptr, state := RansEncPut(a, ptr, state, table[value].start, table[value].range);
  }

  // ----- the encoder -----

  lemma ItemsGrow(c: Coder, items: seq<Item>, i: nat)
    requires Normal(c) && CodableItems(items) && i <= |items|
    ensures |EncodeItems(c, items[i..]).bytes| <= |c.bytes| + 8 * (|items| - i)
    ensures Normal(EncodeItems(c, items[i..]))
  {
    EncodeItemsBytes(c, items[i..]);
    EncodeItemsNormal(c, items[i..]);
  }

  /** EncodeYInternal and EncodeZInternal: the symbols of one task, last to first. */
  method EncodeTask(a: array<byte>, ptr0: nat, state0: nat, groups: seq<CdfGroup>, task: PendingTask)
    returns (ptr: nat, state: nat)
    requires ptr0 <= a.Length && Normal(Tail(a, ptr0, state0))
    requires TaskOk(groups, task)
    requires a.Length - ptr0 + 8 * |task.symbols| <= a.Length
    modifies a
    ensures ptr <= a.Length
    ensures Tail(a, ptr, state) == EncodeItems(old(Tail(a, ptr0, state0)), TaskItems(groups, task))
  {
    ptr, state := ptr0, state0;
    ghost var c, items := Tail(a, ptr0, state0), TaskItems(groups, task);
    var group := groups[task.group];
    assert items[|task.symbols|..] == [];
    for i := |task.symbols| downto 0
      invariant ptr <= a.Length
      invariant Tail(a, ptr, state) == EncodeItems(c, items[i..])
    {
      ItemsGrow(c, items, i);
      ItemsGrow(c, items, i + 1);
      assert items[i..][1..] == items[i + 1..] && items[i..][0] == items[i];
      assert items[i] == TaskItem(groups, task, i);
      assert EntryOk(group, task, i);
      var index := RowIndex(task, i);
      ptr, state := EncodeOneSymbol(a, ptr, state, SymbolAt(task, i), RowAt(group, index),
                                    group.lengths[index], group.offsets[index], group.symbols[index]);
    }
    assert items[0..] == items;
  }

  function SymbolTotal(tasks: seq<PendingTask>): nat {
    if tasks == [] then 0 else |tasks[0].symbols| + SymbolTotal(tasks[1..])
  }

  lemma {:induction false} SymbolTotalIsItems(groups: seq<CdfGroup>, tasks: seq<PendingTask>)
    requires TasksOk(groups, tasks)
    ensures SymbolTotal(tasks) == |Items(groups, tasks)|
  {
    if tasks != [] { SymbolTotalIsItems(groups, tasks[1..]); }
  }

  lemma {:induction false} SymbolTotalSnoc(tasks: seq<PendingTask>, task: PendingTask)
    ensures SymbolTotal(tasks + [task]) == SymbolTotal(tasks) + |task.symbols|
  {
    if tasks == [] {
      assert [task][1..] == [];
    } else {
      assert (tasks + [task])[1..] == tasks[1..] + [task];
      SymbolTotalSnoc(tasks[1..], task);
    }
  }

  class RansEncoderCore {
    var groups: seq<CdfGroup>
    var pending: seq<PendingTask>
    var stream: seq<byte>

    constructor ()
      ensures groups == [] && pending == [] && stream == []
    {
      groups, pending, stream := [], [], [];
    }

    method AddCdf(group: CdfGroup) returns (index: nat)
      modifies this`groups
      ensures groups == old(groups) + [group] && index == |old(groups)|
    {
      groups := groups + [group];
      index := |groups| - 1;
    }

    method Reset()
      modifies this`pending, this`stream
      ensures pending == [] && stream == []
    {
      pending, stream := [], [];
    }

    /** All four EncodeY and EncodeZ overloads append one task. */
    method Enqueue(task: PendingTask)
      modifies this`pending
      ensures pending == old(pending) + [task]
    {
      pending := pending + [task];
    }

    method CountPending() returns (total: nat)
      ensures total == SymbolTotal(pending)
    {
      total := 0;
      for i := 0 to |pending|
        invariant total == SymbolTotal(pending[..i])
      {
        assert pending[..i + 1] == pending[..i] + [pending[i]];
        SymbolTotalSnoc(pending[..i], pending[i]);
        total := total + |pending[i].symbols|;
      }
      assert pending[..|pending|] == pending;
    }

    /** Codes the pending tasks, last one first, into an empty scratch area. */
    method EncodePending(scratch: array<byte>) returns (ptr: nat, state: nat)
      requires TasksOk(groups, pending)
      requires scratch.Length == 8 * SymbolTotal(pending) + 1024
      modifies scratch
      ensures 1024 <= ptr <= scratch.Length
      ensures Tail(scratch, ptr, state) == EncodeItems(Start, Items(groups, pending))
    {
      state := LOWER;
      ptr := scratch.Length;
      assert scratch[ptr..] == [] && pending[|pending|..] == [];
      for i := |pending| downto 0
        invariant ptr <= scratch.Length
        invariant Tail(scratch, ptr, state) == EncodeItems(Start, Items(groups, pending[i..]))
      {
        ghost var rest := pending[i + 1..];
        assert pending[i..][1..] == rest;
        ItemsFit(groups, rest);
        SuffixTotal(pending, i);
        EncodeItemsConcat(Start, TaskItems(groups, pending[i]), Items(groups, rest));
        ptr, state := EncodeTask(scratch, ptr, state, groups, pending[i]);
      }
      assert pending[0..] == pending;
      ItemsFit(groups, pending);
    }

    /** The scratch area holds 8 bytes a symbol and 1024 more; the written part becomes the stream.
        No symbols at all leave an empty stream. */
    method Flush()
      requires TasksOk(groups, pending)
      requires SymbolTotal(pending) < 0x8000_0000
      modifies this`stream
      ensures stream == StreamOf(Items(groups, pending))
    {
      var total := CountPending();
      SymbolTotalIsItems(groups, pending);
      if total == 0 {
        stream := [];
        return;
      }
      var scratch := new byte[total * 8 + 1024](_ => 0);
      var ptr, state := EncodePending(scratch);
      ptr := RansEncFlush(scratch, ptr, state);
      stream := scratch[ptr..];
    }
  }

  lemma ItemsFit(groups: seq<CdfGroup>, tasks: seq<PendingTask>)
    requires TasksOk(groups, tasks)
    ensures |EncodeItems(Start, Items(groups, tasks)).bytes| <= 8 * SymbolTotal(tasks)
    ensures Normal(EncodeItems(Start, Items(groups, tasks)))
  {
    EncodeItemsNormal(Start, Items(groups, tasks));
    EncodeItemsBytes(Start, Items(groups, tasks));
    SymbolTotalIsItems(groups, tasks);
  }

  lemma {:induction false} SuffixTotal(tasks: seq<PendingTask>, i: nat)
    requires i < |tasks|
    ensures |tasks[i].symbols| + SymbolTotal(tasks[i + 1..]) <= SymbolTotal(tasks)
    decreases i
  {
    if i > 0 {
      assert tasks[1..][i - 1 + 1..] == tasks[i + 1..];
      SuffixTotal(tasks[1..], i - 1);
    }
  }

  // ----- the decoder -----

  /** static_cast<int8_t> */
  function ToInt8(x: int): (y: int8)
    ensures -128 <= x < 128 ==> y == x
  {
    (x + 128) % 256 - 128
  }

  function ToInt8All(symbols: seq<int>): (narrow: seq<int8>)
    ensures |narrow| == |symbols|
  {
    seq(|symbols|, i requires 0 <= i < |symbols| => ToInt8(symbols[i]))
  }

  class RansDecoderCore {
    var groups: seq<CdfGroup>
    var stream: seq<byte>
    var ptr: nat
    var state: nat

    constructor ()
      ensures groups == [] && stream == [] && ptr == 0
    {
      groups, stream, ptr, state := [], [], 0, 0;
    }

    predicate Valid()
      reads this
    {
      ptr <= |stream|
    }

    /** The state and the bytes not yet read. */
    function Cursor(): Coder
      requires Valid()
      reads this
    {
      Coder(state, stream[ptr..])
    }

    method AddCdf(group: CdfGroup) returns (index: nat)
      modifies this`groups
      ensures groups == old(groups) + [group] && index == |old(groups)|
    {
      groups := groups + [group];
      index := |groups| - 1;
    }

    /** SetStream and SetStreamView: the source reads four bytes unconditionally. */
    method SetStream(bytes: seq<byte>)
      requires |bytes| >= 4
      modifies this`stream, this`ptr, this`state
      ensures Valid() && stream == bytes
      ensures InitState(bytes) == Some(Cursor())
    {
      stream := bytes;
      state := Le32(bytes[0], bytes[1], bytes[2], bytes[3]);
      ptr := 4;
    }

    method RansDecAdvance(start: nat, freq: nat)
      requires Valid() && start <= state % SCALE
      requires Advance(Cursor(), start, freq).Some?
      modifies this`ptr, this`state
      ensures Valid() && Advance(old(Cursor()), start, freq) == Some(Cursor())
    {
      state := freq * (state / SCALE) + state % SCALE - start;
      while state < LOWER
        invariant Valid()
        invariant Refill(Cursor()) == Advance(old(Cursor()), start, freq)
        decreases |stream| - ptr
      {
        assert stream[ptr..][1..] == stream[ptr + 1..];
        state := state * 256 + stream[ptr];
        ptr := ptr + 1;
      }
    }

    method RansDecGetBits() returns (value: bin)
      requires Valid() && GetBits(Cursor()).Some?
      modifies this`ptr, this`state
      ensures Valid() && GetBits(old(Cursor())) == Some((value as nat, Cursor()))
    {
      value := state % 4;
      state := state / 4;
      if state < LOWER {
        assert stream[ptr..][1..] == stream[ptr + 1..];
        state := state * 256 + stream[ptr];
        ptr := ptr + 1;
      }
    }

    method DecodeCount() returns (count: nat)
      requires Valid() && GetUnary(Cursor()).Some?
      modifies this`ptr, this`state
      ensures Valid() && GetUnary(old(Cursor())) == Some((count, Cursor()))
    {
      ghost var unary := GetUnary(Cursor());
      var bin := RansDecGetBits();
      count := bin;
      while bin == 3
        invariant Valid()
        invariant bin == 3 ==> GetUnary(Cursor()).Some?
        invariant unary == if bin == 3 then AddCount(count, GetUnary(Cursor())) else Some((count, Cursor()))
        decreases |stream| - ptr, state, bin
      {
        bin := RansDecGetBits();
        count := count + bin;
      }
    }

    method DecodeDigits(count: nat) returns (raw: nat)
      requires Valid() && GetDigits(Cursor(), count).Some?
      modifies this`ptr, this`state
      ensures Valid() && GetDigits(old(Cursor()), count) == Some((raw, Cursor()))
    {
      raw := 0;
      var weight: nat := 1;
      ghost var digits := GetDigits(Cursor(), count);
      for i := 0 to count
        invariant Valid()
        invariant digits == AddDigits(raw, weight, GetDigits(Cursor(), count - i))
      {
        ghost var here := Cursor();
        var bin := RansDecGetBits();
        DigitStep(raw, weight, here, bin, Cursor(), count - i);
        raw := raw + bin * weight;
        weight := weight * 4;
      }
    }

    /** The bypass branch of DecodeOneSymbol. */
    method DecodeRaw() returns (raw: nat)
      requires Valid() && GetRaw(Cursor()).Some?
      modifies this`ptr, this`state
      ensures Valid() && GetRaw(old(Cursor())) == Some((raw, Cursor()))
    {
      var count := DecodeCount();
      raw := DecodeDigits(count);
    }

    /** RansDecoderCore::DecodeOneSymbol computes DecodeSymbol, narrowed to eight bits. */
    method DecodeOneSymbol(cdf: seq<int>, cdfSize: int, offset: int) returns (symbol: int8)
      requires Valid() && WellFormedRow(Row(cdf, cdfSize, offset))
      requires DecodeSymbol(Cursor(), Row(cdf, cdfSize, offset)).Some?
      modifies this`ptr, this`state
      ensures Valid()
      ensures var (wide, cursor) := DecodeSymbol(old(Cursor()), Row(cdf, cdfSize, offset)).value;
              symbol == ToInt8(wide) && Cursor() == cursor
    {
      ghost var row := Row(cdf, cdfSize, offset);
      ghost var before := Cursor();
      var maxValue := cdfSize - 2;
      var cumulative := state % SCALE;
      var index := 1;
      ghost var s := Search(row, cumulative, 0);
      while cdf[index] <= cumulative
        invariant 1 <= index <= s + 1 && cdf[index - 1] <= cumulative
        invariant s == Search(row, cumulative, index - 1)
        decreases cdfSize - index
      {
        index := index + 1;
      }
      index := index - 1;
      CdfMonotone(row, 0, index);
      assert DecodeEntry(before, row).Some?;
      RansDecAdvance(cdf[index], cdf[index + 1] - cdf[index]);
      assert DecodeEntry(before, row) == Some((s, Cursor()));
      var value := index;
      if value == maxValue {
        var raw := DecodeRaw();
        value := raw / 2;
        if raw % 2 != 0 {
          value := -value - 1;
        } else {
          value := value + maxValue;
        }
      }
      symbol := ToInt8(value + offset);
    }

    /** One turn of that loop. */
    method DecodeAt(group: CdfGroup, index: int, ghost rows: seq<Row>, output: array<int8>, slot: nat)
      returns (ghost wide: int)
      requires Valid() && Consistent(group) && IndexOk(group, index) && slot < output.Length
      requires WellFormedRows(rows) && rows != [] && rows[0] == RowAt(group, index)
      requires DecodeRows(Cursor(), rows).Some?
      modifies this`ptr, this`state, output
      ensures Valid() && DecodeRows(Cursor(), rows[1..]).Some?
      ensures DecodeRows(old(Cursor()), rows) == Prepend([wide], DecodeRows(Cursor(), rows[1..]))
      ensures output[..] == old(output[..])[slot := ToInt8(wide)]
    {
      wide := DecodeSymbol(Cursor(), rows[0]).value.0;
      var symbol := DecodeOneSymbol(group.cdfs[index], group.lengths[index], group.offsets[index]);
      output[slot] := symbol;
    }

    /** The loop shared by DecodeYInto and DecodeZInto: one symbol for each row index. */
    method DecodeLoop(group: CdfGroup, indexes: seq<int>, output: array<int8>, outputBegin: nat)
      requires Valid() && IndexesOk(group, indexes)
      requires outputBegin + |indexes| <= output.Length
      requires DecodeRows(Cursor(), RowsFor(group, indexes)).Some?
      modifies this`ptr, this`state, output
      ensures Valid()
      ensures var (wide, cursor) := DecodeRows(old(Cursor()), RowsFor(group, indexes)).value;
              && Cursor() == cursor && |wide| == |indexes|
              && output[..] == Overwritten(old(output[..]), outputBegin, ToInt8All(wide))
    {
      hide DecodeRows, Overwritten;
      ghost var rows, start, was := RowsFor(group, indexes), Cursor(), output[..];
      ghost var done: seq<int> := [];
      DecodedNothing(rows, start, was, outputBegin);
      for i := 0 to |indexes|
        invariant Valid() && |done| == i
        invariant Decoded(rows, start, was, outputBegin, done, Cursor(), output[..])
      {
        ghost var here, now := Cursor(), output[..];
        assert IndexOk(group, indexes[i]);
        ghost var wide := DecodeAt(group, indexes[i], rows[i..], output, outputBegin + i);
        DecodedOne(rows, start, was, outputBegin, done, here, now, wide, Cursor());
        done := done + [wide];
      }
      DecodedAll(rows, start, was, outputBegin, done, Cursor(), output[..]);
    }

    /** Fails exactly when one of the two ranges does not fit. */
    method DecodeYInto(indexes: seq<byte>, begin: nat, count: nat, group: nat, output: array<int8>, outputBegin: nat)
      returns (ok: bool)
      requires Valid() && group < |groups| && Consistent(groups[group])
      requires var used := if begin + count <= |indexes| && outputBegin + count <= output.Length
                           then indexes[begin..begin + count] else [];
               IndexesOk(groups[group], used) && DecodeRows(Cursor(), RowsFor(groups[group], used)).Some?
      modifies this`ptr, this`state, output
      ensures Valid() && ok == (begin + count <= |indexes| && outputBegin + count <= output.Length)
      ensures !ok ==> Cursor() == old(Cursor()) && output[..] == old(output[..])
      ensures ok ==>
                var (wide, cursor) := DecodeRows(old(Cursor()), RowsFor(groups[group], indexes[begin..begin + count])).value;
                && Cursor() == cursor && |wide| == count
                && output[..] == Overwritten(old(output[..]), outputBegin, ToInt8All(wide))
    {
      ok := begin <= |indexes| && count <= |indexes| - begin
            && outputBegin <= output.Length && count <= output.Length - outputBegin;
      if ok {
        DecodeLoop(groups[group], indexes[begin..begin + count], output, outputBegin);
      }
    }

    method DecodeZInto(total: nat, group: nat, startOffset: int, perChannelSize: int,
                       output: array<int8>, outputBegin: nat)
      returns (ok: bool)
      requires Valid() && group < |groups| && Consistent(groups[group]) && 0 < perChannelSize
      requires outputBegin + total <= output.Length ==>
                 IndexesOk(groups[group], ZIndexes(total, startOffset, perChannelSize))
      requires outputBegin + total <= output.Length ==>
                 DecodeRows(Cursor(), RowsFor(groups[group], ZIndexes(total, startOffset, perChannelSize))).Some?
      modifies this`ptr, this`state, output
      ensures Valid() && ok == (outputBegin + total <= output.Length)
      ensures !ok ==> Cursor() == old(Cursor()) && output[..] == old(output[..])
      ensures ok ==>
                var rows := RowsFor(groups[group], ZIndexes(total, startOffset, perChannelSize));
                var (wide, cursor) := DecodeRows(old(Cursor()), rows).value;
                && Cursor() == cursor && |wide| == total
                && output[..] == Overwritten(old(output[..]), outputBegin, ToInt8All(wide))
    {
      ok := outputBegin <= output.Length && total <= output.Length - outputBegin;
      if ok {
        DecodeLoop(groups[group], ZIndexes(total, startOffset, perChannelSize), output, outputBegin);
      }
    }
  }

  /** The row of every position of a Z task. */
  function ZIndexes(total: nat, startOffset: int, perChannelSize: int): (indexes: seq<int>)
    requires 0 < perChannelSize
    ensures |indexes| == total
  {
    seq(total, i => i / perChannelSize + startOffset)
  }

  predicate IndexesOk(group: CdfGroup, indexes: seq<int>) {
    && Consistent(group)
    && forall i :: 0 <= i < |indexes| ==> IndexOk(group, indexes[i])
  }

  predicate IndexOk(group: CdfGroup, index: int)
    requires Consistent(group)
  {
    0 <= index < |group.cdfs| && WellFormedRow(RowAt(group, index))
  }

  function RowsFor(group: CdfGroup, indexes: seq<int>): (rows: seq<Row>)
    requires IndexesOk(group, indexes)
    ensures |rows| == |indexes| && WellFormedRows(rows)
  {
    assert forall i :: 0 <= i < |indexes| ==> IndexOk(group, indexes[i]);
    seq(|indexes|, i requires 0 <= i < |indexes| => RowAt(group, indexes[i]))
  }

  function Overwritten(was: seq<int8>, begin: nat, values: seq<int8>): (now: seq<int8>)
    requires begin + |values| <= |was|
    ensures |now| == |was|
  {
    was[..begin] + values + was[begin + |values|..]
  }

  /** After |done| rows the decoder stands at `c`, and their symbols have been written to the output. */
  ghost predicate Decoded(rows: seq<Row>, start: Coder, was: seq<int8>, begin: nat, done: seq<int>, c: Coder, now: seq<int8>)
    requires WellFormedRows(rows)
  {
    && |done| <= |rows| && begin + |rows| <= |was|
    && DecodeRows(c, rows[|done|..]).Some?
    && DecodeRows(start, rows) == Prepend(done, DecodeRows(c, rows[|done|..]))
    && now == Overwritten(was, begin, ToInt8All(done))
  }

  lemma DecodedNothing(rows: seq<Row>, start: Coder, was: seq<int8>, begin: nat)
    requires WellFormedRows(rows) && DecodeRows(start, rows).Some? && begin + |rows| <= |was|
    ensures Decoded(rows, start, was, begin, [], start, was)
  {
    assert rows[0..] == rows;
    PrependNothing(DecodeRows(start, rows));
  }

  lemma DecodedAll(rows: seq<Row>, start: Coder, was: seq<int8>, begin: nat, done: seq<int>, c: Coder, now: seq<int8>)
    requires WellFormedRows(rows) && |done| == |rows| && Decoded(rows, start, was, begin, done, c, now)
    ensures DecodeRows(start, rows) == Some((done, c)) && now == Overwritten(was, begin, ToInt8All(done))
  {
    assert rows[|done|..] == [];
    assert done + [] == done;
  }

  lemma DecodedOne(rows: seq<Row>, start: Coder, was: seq<int8>, begin: nat, done: seq<int>, c: Coder, now: seq<int8>,
                   wide: int, d: Coder)
    requires WellFormedRows(rows) && |done| < |rows|
    requires Decoded(rows, start, was, begin, done, c, now)
    requires DecodeRows(d, rows[|done|..][1..]).Some?
    requires DecodeRows(c, rows[|done|..]) == Prepend([wide], DecodeRows(d, rows[|done|..][1..]))
    ensures Decoded(rows, start, was, begin, done + [wide], d, now[begin + |done| := ToInt8(wide)])
  {
    assert rows[|done|..][1..] == rows[|done + [wide]|..];
    PrependTwice(done, [wide], DecodeRows(d, rows[|done| + 1..]));
    OverwriteNext(was, begin, done, wide);
  }

  lemma OverwriteNext(was: seq<int8>, begin: nat, done: seq<int>, wide: int)
    requires begin + |done| < |was|
    ensures Overwritten(was, begin, ToInt8All(done + [wide]))
         == Overwritten(was, begin, ToInt8All(done))[begin + |done| := ToInt8(wide)]
  {
    assert ToInt8All(done + [wide]) == ToInt8All(done) + [ToInt8(wide)];
  }

  function AddCount(count: nat, rest: Option<(nat, Coder)>): Option<(nat, Coder)> {
    match rest
    case None => None
    case Some((more, c)) => Some((count + more, c))
  }

  function AddDigits(raw: nat, weight: nat, rest: Option<(nat, Coder)>): Option<(nat, Coder)> {
    match rest
    case None => None
    case Some((more, c)) => Some((raw + weight * more, c))
  }

  lemma DigitStep(raw: nat, weight: nat, c: Coder, bin: bin, d: Coder, count: nat)
    requires 0 < count && GetBits(c) == Some((bin as nat, d))
    ensures AddDigits(raw, weight, GetDigits(c, count))
         == AddDigits(raw + bin * weight, weight * 4, GetDigits(d, count - 1))
  {
    var later := GetDigits(d, count - 1);
    assert GetDigits(c, count) == if later.None? then None else Some((bin + 4 * later.value.0, later.value.1));
    hide GetBits, GetDigits;
    if later.Some? { DigitWeight(raw, weight, bin, later.value.0); }
  }

  lemma DigitWeight(raw: nat, weight: nat, bin: nat, rest: nat)
    ensures raw + weight * (bin + 4 * rest) == raw + bin * weight + weight * 4 * rest
  {
  }
}
