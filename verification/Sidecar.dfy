/** Where CDF tables come from: make_cdf_arrays builds the rows, MakeCdfGroup loads them. */
module Sidecar {
  import opened Options
  import opened Arith
  import opened RansByte
  import opened RansSymbol
  import opened RansStream

  // ----- make_cdf_arrays -----

  function Sum(pmf: seq<int>): int {
    if pmf == [] then 0 else Sum(pmf[..|pmf| - 1]) + pmf[|pmf| - 1]
  }

  /** A leading zero and the running sums. */
  function Cumulative(pmf: seq<int>): (cdf: seq<int>)
    ensures |cdf| == |pmf| + 1
  {
    seq(|pmf| + 1, i requires 0 <= i <= |pmf| => Sum(pmf[..i]))
  }

  function Total(lengths: seq<int>): int {
    if lengths == [] then 0 else Total(lengths[..|lengths| - 1]) + lengths[|lengths| - 1]
  }

  /** A slice bound: negative ones count from the end, and all are cut to the table. */
  function Bound(size: nat, i: int): (bound: nat)
    ensures bound <= size
    ensures 0 <= i <= size ==> bound == i
  {
    if i < 0 then (if i + size < 0 then 0 else i + size) else if i > size then size else i
  }

  /** table[from : to] */
  function Cut(table: seq<int>, from: int, to: int): (slice: seq<int>)
    ensures 0 <= from <= to <= |table| ==> slice == table[from..to]
    ensures -|table| <= from <= to < 0 ==> slice == table[|table| + from..|table| + to]
  {
    var low, high := Bound(|table|, from), Bound(|table|, to);
    if low <= high then table[low..high] else []
  }

  /** The slice of the table that belongs to a row. */
  function RowPmf(lengths: seq<int>, table: seq<int>, row: nat): seq<int>
    requires row < |lengths|
  {
    Cut(table, Total(lengths[..row]), Total(lengths[..row]) + lengths[row])
  }

  /** The row the source stores: the running sums, padded with zeros to the common width. */
  predicate StoredRow(cdf: seq<int>, pmf: seq<int>, width: nat) {
    |cdf| == width && |pmf| < width && cdf[..|pmf| + 1] == Cumulative(pmf) && Sum(pmf) == SCALE
  }

  /** The rows stored so far. */
  predicate StoredRows(cdf: seq<seq<int>>, lengths: seq<int>, table: seq<int>, width: nat) {
    |cdf| <= |lengths| && forall r :: 0 <= r < |cdf| ==> StoredRow(cdf[r], RowPmf(lengths, table, r), width)
  }

  /** One more than the longest row. */
  function Width(lengths: seq<int>): int
    requires lengths != []
  {
    var last := lengths[|lengths| - 1] + 1;
    if |lengths| == 1 then last else if Width(lengths[..|lengths| - 1]) < last then last else Width(lengths[..|lengths| - 1])
  }

  /** The inputs that make a table: there is a row, every row sums to 65536 and has room, and the rows use up
      the table. */
  predicate Tabulated(lengths: seq<int>, table: seq<int>) {
    && lengths != [] && Total(lengths) == |table|
    && forall r :: 0 <= r < |lengths| ==>
         Sum(RowPmf(lengths, table, r)) == SCALE && |RowPmf(lengths, table, r)| < Width(lengths)
  }

  lemma {:induction false} WidthAbove(lengths: seq<int>, r: nat)
    requires r < |lengths|
    ensures lengths[r] < Width(lengths)
    decreases |lengths|
  {
    if r < |lengths| - 1 { WidthAbove(lengths[..|lengths| - 1], r); }
  }

  lemma {:induction false} TotalGrows(lengths: seq<int>, r: nat)
    requires r < |lengths| && forall i :: 0 <= i < |lengths| ==> 0 <= lengths[i]
    ensures 0 <= Total(lengths[..r]) <= Total(lengths[..r]) + lengths[r] <= Total(lengths)
    decreases |lengths|
  {
    var last := |lengths| - 1;
    if r < last {
      TotalGrows(lengths[..last], r);
      assert lengths[..last][..r] == lengths[..r];
    } else {
      TotalNatural(lengths[..last]);
    }
  }

  lemma {:induction false} TotalNatural(lengths: seq<int>)
    requires forall i :: 0 <= i < |lengths| ==> 0 <= lengths[i]
    ensures 0 <= Total(lengths)
  {
    if lengths != [] { TotalNatural(lengths[..|lengths| - 1]); }
  }

  /** For lengths as they are meant, the rows are consecutive pieces of the table, each as long as it says. */
  lemma TabulatedMeans(lengths: seq<int>, table: seq<int>)
    requires forall i :: 0 <= i < |lengths| ==> 0 <= lengths[i]
    ensures Tabulated(lengths, table) <==>
            && lengths != [] && Total(lengths) == |table|
            && forall r :: 0 <= r < |lengths| ==> Sum(RowPmf(lengths, table, r)) == SCALE
    ensures Tabulated(lengths, table) ==>
              forall r :: 0 <= r < |lengths| ==>
                && 0 <= Total(lengths[..r]) <= Total(lengths[..r]) + lengths[r] <= |table|
                && RowPmf(lengths, table, r) == table[Total(lengths[..r])..Total(lengths[..r]) + lengths[r]]
  {
    hide Sum, Width, Total;
    if lengths != [] && Total(lengths) == |table| {
      forall r | 0 <= r < |lengths|
        ensures 0 <= Total(lengths[..r]) <= Total(lengths[..r]) + lengths[r] <= |table|
        ensures RowPmf(lengths, table, r) == table[Total(lengths[..r])..Total(lengths[..r]) + lengths[r]]
        ensures |RowPmf(lengths, table, r)| < Width(lengths)
      {
        TotalGrows(lengths, r);
        WidthAbove(lengths, r);
      }
    }
  }

  lemma StoredRowsNext(cdf: seq<seq<int>>, lengths: seq<int>, table: seq<int>, width: nat, row: seq<int>)
    requires |cdf| < |lengths| && StoredRows(cdf, lengths, table, width)
    requires StoredRow(row, RowPmf(lengths, table, |cdf|), width)
    ensures StoredRows(cdf + [row], lengths, table, width)
  {
    hide StoredRow, RowPmf;
  }

  lemma TotalNone(lengths: seq<int>)
    ensures Total(lengths[..0]) == 0
  {
  }

  lemma TotalNext(lengths: seq<int>, row: nat)
    requires row < |lengths|
    ensures Total(lengths[..row + 1]) == Total(lengths[..row]) + lengths[row]
  {
    assert lengths[..row + 1][..row] == lengths[..row];
  }

  method WidthOf(lengths: seq<int>) returns (width: int)
    requires lengths != []
    ensures width == Width(lengths)
  {
    width := lengths[0] + 1;
    for i := 1 to |lengths|
      invariant width == Width(lengths[..i])
    {
      assert lengths[..i + 1][..i] == lengths[..i];
      if width < lengths[i] + 1 { width := lengths[i] + 1; }
    }
    assert lengths[..|lengths|] == lengths;
  }

  lemma SumSlice(pmf: seq<int>, n: nat)
    requires n < |pmf|
    ensures Sum(pmf[..n + 1]) == Sum(pmf[..n]) + pmf[n]
  {
    assert pmf[..n + 1][..n] == pmf[..n];
  }

  method RunningSums(pmf: seq<int>) returns (values: seq<int>)
    ensures values == Cumulative(pmf)
  {
    values := [0];
    var sum := 0;
    for i := 0 to |pmf|
      invariant sum == Sum(pmf[..i])
      invariant |values| == i + 1 && forall j :: 0 <= j <= i ==> values[j] == Sum(pmf[..j])
    {
      SumSlice(pmf, i);
      sum := sum + pmf[i];
      values := values + [sum];
    }
  }

  /** Fails when the row does not sum to 65536 or does not fit the width. */
  method StoreRow(pmf: seq<int>, width: nat) returns (row: Option<seq<int>>)
    ensures row.Some? ==> StoredRow(row.value, pmf, width)
    ensures row.Some? <==> Sum(pmf) == SCALE && |pmf| < width
  {
    var values := RunningSums(pmf);
    assert pmf[..|pmf|] == pmf;
    if values[|values| - 1] != SCALE { return None; }
    if |values| > width { return None; }
    return Some(values + seq(width - |values|, _ => 0));
  }

  /** Fails exactly when a row does not sum to 65536 or has no room, or the rows do not use up the table. */
  method StoreRows(lengths: seq<int>, table: seq<int>, width: nat) returns (cdf: Option<seq<seq<int>>>)
    requires lengths != [] && width == Width(lengths)
    ensures cdf.Some? <==> Tabulated(lengths, table)
    ensures cdf.Some? ==> |cdf.value| == |lengths| && StoredRows(cdf.value, lengths, table, width)
  {
    hide StoredRow, Sum, Total, Width, Cut;
    var rows: seq<seq<int>> := [];
    var cursor := 0;
    TotalNone(lengths);
    for row := 0 to |lengths|
      invariant cursor == Total(lengths[..row]) && |rows| == row && StoredRows(rows, lengths, table, width)
      invariant forall r :: 0 <= r < row ==> Sum(RowPmf(lengths, table, r)) == SCALE && |RowPmf(lengths, table, r)| < width
    {
      TotalNext(lengths, row);
      assert RowPmf(lengths, table, row) == Cut(table, cursor, cursor + lengths[row]);
      var stored := StoreRow(Cut(table, cursor, cursor + lengths[row]), width);
      if stored.None? { return None; }
      StoredRowsNext(rows, lengths, table, width, stored.value);
      rows := rows + [stored.value];
      cursor := cursor + lengths[row];
    }
    assert lengths[..|lengths|] == lengths;
    if cursor != |table| { return None; }
    return Some(rows);
  }

  /** The rows, their lengths and the negated offsets; every row is as wide as the longest one needs. */
  method MakeCdfArrays(lengths: seq<int>, pmfOffsets: seq<int>, table: seq<int>)
    returns (result: Option<(seq<seq<int>>, seq<int>, seq<int>)>)
    ensures result.Some? <==> Tabulated(lengths, table)
    ensures result.Some? ==>
              var (cdf, cdfLengths, offsets) := result.value;
              && |cdf| == |cdfLengths| == |lengths| && |offsets| == |pmfOffsets|
              && 0 <= Width(lengths) && StoredRows(cdf, lengths, table, Width(lengths))
              && (forall r :: 0 <= r < |lengths| ==> cdfLengths[r] == lengths[r] + 1)
              && (forall r :: 0 <= r < |offsets| ==> offsets[r] == -pmfOffsets[r])
  {
    hide Total, Sum, Width, RowPmf;
    var offsets := seq(|pmfOffsets|, i requires 0 <= i < |pmfOffsets| => -pmfOffsets[i]);
    if lengths == [] { return None; }
    var cdfLengths := seq(|lengths|, i requires 0 <= i < |lengths| => lengths[i] + 1);
    var width := WidthOf(lengths);
    if width < 0 {
      assert |RowPmf(lengths, table, 0)| >= width;
      return None;
    }
    var cdf := StoreRows(lengths, table, width);
    if cdf.None? { return None; }
    result := Some((cdf.value, cdfLengths, offsets));
  }

  /** A stored row is a well-formed CDF row when no probability is negative, and a symbol inside the
      table is codable exactly when its own probability is between 1 and 65535. */
  lemma StoredRowIsWellFormed(cdf: seq<int>, pmf: seq<int>, width: nat, offset: int)
    requires StoredRow(cdf, pmf, width)
    requires forall i :: 0 <= i < |pmf| ==> 0 <= pmf[i]
    ensures var row := Row(cdf, |pmf| + 1, offset);
            && WellFormedRow(row)
            && forall v :: 0 <= v < |pmf| - 1 ==> (Codable(row, v + offset) <==> 1 <= pmf[v] < SCALE)
  {
    var row := Row(cdf, |pmf| + 1, offset);
    var all := Cumulative(pmf);
    assert pmf[..|pmf|] == pmf;
    forall i | 0 <= i < |pmf| ensures cdf[i + 1] == cdf[i] + pmf[i] {
      SumSlice(pmf, i);
      assert cdf[i] == all[i] && cdf[i + 1] == all[i + 1];
    }
    assert cdf[0] == all[0] == Sum(pmf[..0]) == 0;
    assert cdf[|pmf|] == all[|pmf|];
  }

  // ----- MakeCdfGroup -----

  predicate ShapeAccepted(cdfs: seq<int>, shape: seq<int>, lengths: seq<int>, offsets: seq<int>) {
    && |shape| == 2 && shape[0] >= 0 && shape[1] >= 0
    && shape[0] * shape[1] == |cdfs| && shape[0] == |lengths| && shape[0] == |offsets|
  }

  method MakeTable(cdf: seq<int>) returns (table: seq<TableEntry>)
    ensures TableOf(table, cdf)
  {
    table := seq(|cdf|, _ => TableEntry(0, 0));
    for col := 0 to if |cdf| == 0 then 0 else |cdf| - 1
      invariant |table| == |cdf|
      invariant forall i :: 0 <= i < col ==> table[i] == EntryAt(cdf, i)
    {
      var start := cdf[col];
      var range := cdf[col + 1] - cdf[col];
      table := table[col := TableEntry(start % SCALE, range % SCALE)];
    }
  }

  lemma RowBounds(row: nat, rows: nat, cols: nat)
    requires row < rows
    ensures 0 <= row * cols <= row * cols + cols <= rows * cols
  {
    assert (row + 1) * cols == row * cols + cols;
    MulMonotone(row + 1, rows, cols);
  }

  method MakeCdfGroup(cdfs: seq<int>, shape: seq<int>, lengths: seq<int>, offsets: seq<int>)
    returns (result: Option<CdfGroup>)
    ensures result.Some? <==> ShapeAccepted(cdfs, shape, lengths, offsets)
    ensures result.Some? ==>
              var group := result.value;
              && Consistent(group) && group.lengths == lengths && group.offsets == offsets
              && forall r :: 0 <= r < shape[0] ==>
                   && 0 <= r * shape[1] <= r * shape[1] + shape[1] <= |cdfs|
                   && group.cdfs[r] == cdfs[r * shape[1]..r * shape[1] + shape[1]]
  {
    if |shape| != 2 { return None; }
    var rows, cols := shape[0], shape[1];
    if rows < 0 || cols < 0 { return None; }
    if rows * cols != |cdfs| || rows != |lengths| || rows != |offsets| { return None; }
    var grid: seq<seq<int>> := [];
    var symbols: seq<seq<TableEntry>> := [];
    for row := 0 to rows
      invariant |grid| == |symbols| == row
      invariant forall r :: 0 <= r < row ==> TableOf(symbols[r], grid[r])
      invariant forall r :: 0 <= r < row ==>
                  && 0 <= r * cols <= r * cols + cols <= |cdfs|
                  && grid[r] == cdfs[r * cols..r * cols + cols]
    {
      RowBounds(row, rows, cols);
      var line := cdfs[row * cols..row * cols + cols];
      var table := MakeTable(line);
      grid := grid + [line];
      symbols := symbols + [table];
    }
    result := Some(CdfGroup(grid, lengths, offsets, symbols));
  }
}
