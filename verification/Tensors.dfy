/** Values that flow through an ONNX graph, the operators the rewrite looks at, and the three fused
    operators as their kernels compute them (real arithmetic).  Everything else is a parameter. */
module Tensors {
  import opened Arith

  /** Missing is an optional input left out; Failed is what an operator yields for inputs it rejects. */
  datatype Value =
    | Tensor(shape: seq<nat>, data: seq<real>)
    | Ints(values: seq<int>)
    | Missing
    | Failed

  datatype Op =
    | Mul | Add | Sigmoid | Slice
    | Conv(attributes: nat) | Other(kind: nat)
    | PostSigmoidChunkAdd | PostSigmoidMul | ScaledSiLUMul

  function Product(shape: seq<nat>): nat {
    if shape == [] then 1 else shape[0] * Product(shape[1..])
  }

  predicate IsTensor(v: Value) {
    v.Tensor? && |v.data| == Product(v.shape)
  }

  /** The interpretation of what the rewrite leaves alone: the sigmoid function itself, and every
      operator, or broadcasting case of Mul and Add, that is not spelled out here. */
  datatype Semantics = Semantics(sigmoid: real -> real, other: (Op, seq<Value>) -> seq<Value>)

  function At(data: seq<real>, i: int): real {
    if 0 <= i < |data| then data[i] else 0.0
  }

  function Products(a: seq<real>, b: seq<real>): (c: seq<real>)
    ensures |c| == |a|
  {
    seq(|a|, i requires 0 <= i < |a| => a[i] * At(b, i))
  }

  function Sums(a: seq<real>, b: seq<real>): (c: seq<real>)
    ensures |c| == |a|
  {
    seq(|a|, i requires 0 <= i < |a| => a[i] + At(b, i))
  }

  /** Multiplying by a one-element tensor of rank r: the shape is padded with ones up to rank r. */
  function Padded(shape: seq<nat>, rank: nat): (padded: seq<nat>)
    ensures rank <= |shape| ==> padded == shape
    ensures rank > |shape| ==> |padded| == rank
  {
    if rank <= |shape| then shape else seq(rank - |shape|, _ => 1) + shape
  }

  function Scaled(v: Value, factor: real, rank: nat): Value
    requires v.Tensor?
  {
    Tensor(Padded(v.shape, rank), seq(|v.data|, i requires 0 <= i < |v.data| => v.data[i] * factor))
  }

  function First(values: seq<Value>): Value {
    if values == [] then Failed else values[0]
  }

  function MulValue(sem: Semantics, a: Value, b: Value): Value {
    if a.Tensor? && b.Tensor? && a.shape == b.shape then Tensor(a.shape, Products(a.data, b.data))
    else if a.Tensor? && b.Tensor? && |b.data| == 1 then Scaled(a, b.data[0], |b.shape|)
    else if a.Tensor? && b.Tensor? && |a.data| == 1 then Scaled(b, a.data[0], |a.shape|)
    else First(sem.other(Mul, [a, b]))
  }

  function AddValue(sem: Semantics, a: Value, b: Value): Value {
    if a.Tensor? && b.Tensor? && a.shape == b.shape then Tensor(a.shape, Sums(a.data, b.data))
    else First(sem.other(Add, [a, b]))
  }

  function SigmoidValue(sem: Semantics, a: Value): Value {
    if a.Tensor? then Tensor(a.shape, seq(|a.data|, i requires 0 <= i < |a.data| => sem.sigmoid(a.data[i])))
    else Failed
  }

  // ----- Slice -----

  datatype SliceBounds = SliceBounds(start: int, end: int, axis: int, step: int) | NotOneAxis

  /** The bounds of a slice over one axis; axes and steps default to 0.. and 1. */
  function Bounds(starts: seq<int>, ends: seq<int>, axes: seq<int>, steps: seq<int>): SliceBounds {
    if |starts| == 1 && |ends| == 1 && |axes| == 1 && |steps| == 1
    then SliceBounds(starts[0], ends[0], axes[0], steps[0]) else NotOneAxis
  }

  function Iota(n: nat): seq<int> {
    seq(n, i => i)
  }

  function Ones(n: nat): seq<int> {
    seq(n, _ => 1)
  }

  function InputAt(inputs: seq<Value>, i: nat): Value {
    if i < |inputs| then inputs[i] else Missing
  }

  function RuntimeBounds(inputs: seq<Value>): SliceBounds {
    var starts, ends, axes, steps := InputAt(inputs, 1), InputAt(inputs, 2), InputAt(inputs, 3), InputAt(inputs, 4);
    if starts.Ints? && ends.Ints? && (axes.Ints? || axes.Missing?) && (steps.Ints? || steps.Missing?)
    then Bounds(starts.values, ends.values,
                if axes.Ints? then axes.values else Iota(|starts.values|),
                if steps.Ints? then steps.values else Ones(|starts.values|))
    else NotOneAxis
  }

  /** Channels start, start + step, ... below end of a tensor [n, c, ...]: row-major data. */
  function SliceChannels(v: Value, start: nat, end: nat, step: nat): (r: Value)
    requires v.Tensor? && 2 <= |v.shape| && start <= end <= v.shape[1] && 0 < step
    ensures r.Tensor?
  {
    var inner := Product(v.shape[2..]);
    var count := (end - start + step - 1) / step;
    Tensor([v.shape[0], count] + v.shape[2..],
           seq(v.shape[0] * (count * inner), k requires 0 <= k < v.shape[0] * (count * inner) =>
             At(v.data, SourceIndex(k, count, inner, v.shape[1], start, step))))
  }

  /** Where element k of the slice comes from. */
  function SourceIndex(k: nat, count: nat, inner: nat, channels: nat, start: nat, step: nat): int {
    if count * inner == 0 || inner == 0 then 0
    else
      var n, rest := k / (count * inner), k % (count * inner);
      (n * channels + start + step * (rest / inner)) * inner + rest % inner
  }

  function SliceValue(sem: Semantics, inputs: seq<Value>): Value {
    var source := InputAt(inputs, 0);
    match RuntimeBounds(inputs)
    case NotOneAxis => First(sem.other(Slice, inputs))
    case SliceBounds(start, end, axis, step) =>
      if source.Tensor? && 2 <= |source.shape| && axis == 1 && 0 <= start <= end <= source.shape[1] && 0 < step
      then SliceChannels(source, start, end, step)
      else First(sem.other(Slice, inputs))
  }

  // ----- the fused kernels -----

  const MAX_ELEMENTS: nat := 0xFFFF_FFFF

  /** PostSigmoidChunkAdd: equal shapes of rank 4 with an even, positive channel count.  The kernel adds
      the two halves of the flattened product. */
  function ChunkAddKernel(x: Value, s: Value): Value {
    if x.Tensor? && s.Tensor? && x.shape == s.shape && |x.shape| == 4 && x.shape[1] % 2 == 0
       && 0 < |x.data| / 2 <= MAX_ELEMENTS
    then
      var total := |x.data| / 2;
      var gated := Products(x.data, s.data);
      Tensor(x.shape[1 := x.shape[1] / 2], Sums(gated[..total], gated[total..]))
    else Failed
  }

  function MulKernel(x: Value, s: Value): Value {
    if x.Tensor? && s.Tensor? && x.shape == s.shape && |x.shape| == 4 && 0 < |x.data| <= MAX_ELEMENTS
    then Tensor(x.shape, Products(x.data, s.data))
    else Failed
  }

  /** ScaledSiLUMul: x * sigmoid(4 x), in either compute mode. */
  function SiLUKernel(sem: Semantics, x: Value): Value {
    if x.Tensor? && |x.shape| == 4 && 0 < |x.data| <= MAX_ELEMENTS
    then Tensor(x.shape, seq(|x.data|, i requires 0 <= i < |x.data| => x.data[i] * sem.sigmoid(x.data[i] * 4.0)))
    else Failed
  }

  // ----- what the kernels replace -----

  predicate Image(v: Value) {
    IsTensor(v) && |v.shape| == 4 && 0 < |v.data|
  }

  /** The unfused chunk-add: the two channel halves of the gated tensor, added. */
  function ChunkAddReference(sem: Semantics, gated: Value, c: nat): Value
    requires gated.Tensor? && 2 <= |gated.shape| && 2 * c <= gated.shape[1]
  {
    AddValue(sem, SliceChannels(gated, 0, c, 1), SliceChannels(gated, c, 2 * c, 1))
  }

  lemma ProductOfFour(shape: seq<nat>)
    requires |shape| == 4
    ensures Product(shape[2..]) == shape[2] * shape[3]
    ensures Product(shape) == shape[0] * (shape[1] * (shape[2] * shape[3]))
  {
    assert shape[2..][1..] == shape[3..] && shape[3..][1..] == [];
    assert Product(shape[3..]) == shape[3];
    assert shape[1..][1..] == shape[2..];
  }

  /** In a batch of one, element k of a channel slice lies at a fixed distance in the flat data. */
  lemma SourceIndexInBatchOne(k: nat, count: nat, inner: nat, channels: nat, start: nat)
    requires k < count * inner
    ensures SourceIndex(k, count, inner, channels, start, 1) == start * inner + k
  {
    DivMod(0, k, count * inner);
    assert inner != 0;
    var c := k / inner;
    assert (start + c) * inner + k % inner == start * inner + (c * inner + k % inner);
  }

  /** In a batch of one, a channel slice is a contiguous piece of the data. */
  lemma ChannelSlice(v: Value, start: nat, c: nat)
    requires IsTensor(v) && |v.shape| == 4 && v.shape[0] == 1 && start + c <= v.shape[1]
    ensures var inner := v.shape[2] * v.shape[3];
            && 0 <= start * inner <= start * inner + c * inner <= |v.data|
            && SliceChannels(v, start, start + c, 1)
               == Tensor([1, c] + v.shape[2..], v.data[start * inner..start * inner + c * inner])
  {
    var inner := v.shape[2] * v.shape[3];
    ProductOfFour(v.shape);
    MulMonotone(start + c, v.shape[1], inner);
    assert (start + c) * inner == start * inner + c * inner;
    var r := SliceChannels(v, start, start + c, 1);
    assert |r.data| == c * inner;
    forall k | 0 <= k < c * inner ensures r.data[k] == v.data[start * inner + k] {
      SourceIndexInBatchOne(k, c, inner, v.shape[1], start);
    }
  }

  /** The chunk-add kernel computes the unfused chunk-add on every batch of one. */
  lemma ChunkAddFuses(sem: Semantics, x: Value, s: Value, c: nat)
    requires Image(x) && Image(s) && x.shape == s.shape && x.shape[0] == 1 && x.shape[1] == 2 * c
    requires |x.data| / 2 <= MAX_ELEMENTS
    ensures ChunkAddKernel(x, s) == ChunkAddReference(sem, MulValue(sem, x, s), c)
  {
    var gated := MulValue(sem, x, s);
    var inner := x.shape[2] * x.shape[3];
    ProductOfFour(x.shape);
    ChannelSlice(gated, 0, c);
    ChannelSlice(gated, c, c);
    assert |gated.data| / 2 == c * inner by { assert (2 * c) * inner == 2 * (c * inner); }
    assert [1, c] + x.shape[2..] == x.shape[1 := c];
    assert gated.data[c * inner..c * inner + c * inner] == gated.data[c * inner..];
  }

  /** A tensor that is 1 at one place and 0 elsewhere. */
  function Spike(shape: seq<nat>, at: nat): (v: Value)
    ensures IsTensor(v) && v.shape == shape
  {
    Tensor(shape, seq(Product(shape), i => if i == at then 1.0 else 0.0))
  }

  function Flat(shape: seq<nat>): (v: Value)
    ensures IsTensor(v) && v.shape == shape
  {
    Tensor(shape, seq(Product(shape), _ => 1.0))
  }

  /** The first element of a channel slice. */
  lemma SliceHead(v: Value, start: nat, c: nat)
    requires v.Tensor? && |v.shape| == 4 && start + c <= v.shape[1] && 0 < c
    requires 0 < v.shape[0] && 0 < v.shape[2] * v.shape[3]
    ensures var r := SliceChannels(v, start, start + c, 1);
            r.data != [] && r.data[0] == At(v.data, start * (v.shape[2] * v.shape[3]))
  {
    var inner := v.shape[2] * v.shape[3];
    assert Product(v.shape[2..]) == inner by {
      assert v.shape[2..][1..] == v.shape[3..] && v.shape[3..][1..] == [];
      assert Product(v.shape[3..]) == v.shape[3];
    }
    MulMonotone(1, c, inner);
    MulMonotone(1, v.shape[0], c * inner);
    SourceIndexInBatchOne(0, c, inner, v.shape[1], start);
  }

  lemma PositiveProduct(a: nat, b: nat)
    ensures 0 < a * b ==> 0 < a && 0 < b
  {
  }

  /** The second operand of every fused node: the sigmoid of the scaled source. */
  function GateOf(sem: Semantics, x: Value, beta: Value): Value {
    SigmoidValue(sem, MulValue(sem, x, beta))
  }

  /** The gated tensor, element by element. */
  lemma GateData(sem: Semantics, x: Value, beta: Value)
    requires Image(x) && OneElement(beta) && |beta.shape| <= 4
    ensures Image(GateOf(sem, x, beta)) && GateOf(sem, x, beta).shape == x.shape
    ensures forall i :: 0 <= i < |x.data| ==> GateOf(sem, x, beta).data[i] == sem.sigmoid(x.data[i] * beta.data[0])
  {
    MulByBeta(sem, x, beta);
    var scaled, gate := MulValue(sem, x, beta), GateOf(sem, x, beta);
    forall i | 0 <= i < |x.data| ensures gate.data[i] == sem.sigmoid(x.data[i] * beta.data[0]) {
      assert scaled.data[i] == x.data[i] * beta.data[0];
    }
  }

  lemma GatedSource(sem: Semantics, x: Value, beta: Value)
    requires Image(x) && OneElement(beta) && |beta.shape| <= 4
    ensures Image(MulValue(sem, x, GateOf(sem, x, beta))) && MulValue(sem, x, GateOf(sem, x, beta)).shape == x.shape
  {
    hide GateOf;
    GateData(sem, x, beta);
  }

  /** A spike stays a spike behind its gate. */
  lemma GatedSpike(sem: Semantics, shape: seq<nat>, at: nat, beta: Value)
    requires |shape| == 4 && at < Product(shape) && OneElement(beta) && |beta.shape| <= 4
    ensures var x := Spike(shape, at);
            var gated := MulValue(sem, x, GateOf(sem, x, beta));
            && Image(gated) && gated.shape == shape
            && forall i :: 0 <= i < |gated.data| ==> gated.data[i] == if i == at then sem.sigmoid(beta.data[0]) else 0.0
  {
    var x := Spike(shape, at);
    GateData(sem, x, beta);
    var gate := GateOf(sem, x, beta);
    forall i | 0 <= i < |x.data|
      ensures Products(x.data, gate.data)[i] == if i == at then sem.sigmoid(beta.data[0]) else 0.0
    {
      UnitAndZero(beta.data[0]);
      UnitAndZero(sem.sigmoid(x.data[i] * beta.data[0]));
    }
  }

  lemma UnitAndZero(r: real)
    ensures 1.0 * r == r && 0.0 * r == 0.0
  {
  }

  /** The value of the nodes that the chunk-add replaces, for a source x ... */
  function Unfused(sem: Semantics, x: Value, beta: Value, c: nat): Value
    requires Image(x) && OneElement(beta) && |beta.shape| <= 4 && x.shape[1] == 2 * c
  {
    GateData(sem, x, beta);
    ChunkAddReference(sem, MulValue(sem, x, GateOf(sem, x, beta)), c)
  }

  /** ... and of the node that is put in. */
  function Fused(sem: Semantics, x: Value, beta: Value): Value {
    ChunkAddKernel(x, GateOf(sem, x, beta))
  }

  lemma UnfusedHead(sem: Semantics, x: Value, beta: Value, c: nat)
    requires Image(x) && OneElement(beta) && |beta.shape| <= 4 && x.shape[1] == 2 * c && 0 < c
    ensures var gated, r := MulValue(sem, x, GateOf(sem, x, beta)), Unfused(sem, x, beta, c);
            && r.Tensor? && r.data != [] && gated.Tensor?
            && r.data[0] == At(gated.data, 0) + At(gated.data, c * (x.shape[2] * x.shape[3]))
  {
    GateData(sem, x, beta);
    var gated := MulValue(sem, x, GateOf(sem, x, beta));
    ProductOfFour(x.shape);
    PositiveProduct(x.shape[0], x.shape[1] * (x.shape[2] * x.shape[3]));
    PositiveProduct(x.shape[1], x.shape[2] * x.shape[3]);
    SliceHead(gated, 0, c);
    SliceHead(gated, c, c);
  }

  lemma FusedHead(sem: Semantics, x: Value, beta: Value)
    requires Image(x) && OneElement(beta) && |beta.shape| <= 4 && Fused(sem, x, beta).Tensor?
    ensures var gated, r := MulValue(sem, x, GateOf(sem, x, beta)), Fused(sem, x, beta);
            gated.Tensor? && r.data != [] && r.data[0] == At(gated.data, 0) + At(gated.data, |x.data| / 2)
  {
    hide GateOf;
    GateData(sem, x, beta);
  }

  /** In every larger batch there is a source on which the kernel differs from the nodes it replaces: it takes
      its second summand from the second half of the whole batch instead of from the second half of the
      channels. */
  lemma ChunkAddNeedsBatchOne(sem: Semantics, shape: seq<nat>, c: nat, beta: Value)
    requires |shape| == 4 && shape[1] == 2 * c && 2 <= shape[0] && 0 < Product(shape)
    requires OneElement(beta) && |beta.shape| <= 4 && sem.sigmoid(beta.data[0]) != 0.0
    ensures var x := Spike(shape, c * (shape[2] * shape[3]));
            Image(x) && Fused(sem, x, beta) != Unfused(sem, x, beta, c)
  {
    hide GateOf, MulValue, OneElement, Fused, Unfused;
    var inner, n := shape[2] * shape[3], shape[0];
    ProductOfFour(shape);
    SpikeGeometry(n, c, inner);
    var x := Spike(shape, c * inner);
    GatedSpike(sem, shape, c * inner, beta);
    UnfusedHead(sem, x, beta, c);
    if Fused(sem, x, beta).Tensor? { FusedHead(sem, x, beta); }
  }

  /** For a given shape the fused node has the value of the nodes it replaces, on every source, exactly when
      the batch is one. */
  lemma ChunkAddExactlyForBatchOne(sem: Semantics, shape: seq<nat>, c: nat, beta: Value)
    requires |shape| == 4 && shape[1] == 2 * c && 0 < Product(shape) && Product(shape) / 2 <= MAX_ELEMENTS
    requires OneElement(beta) && |beta.shape| <= 4 && sem.sigmoid(beta.data[0]) != 0.0
    ensures shape[0] == 1 <==>
            forall x :: Image(x) && x.shape == shape ==> Fused(sem, x, beta) == Unfused(sem, x, beta, c)
  {
    hide GateOf, ChunkAddKernel, ChunkAddReference, Product, MulValue, OneElement;
    if shape[0] == 1 {
      forall x | Image(x) && x.shape == shape ensures Fused(sem, x, beta) == Unfused(sem, x, beta, c) {
        GateData(sem, x, beta);
        ChunkAddFuses(sem, x, GateOf(sem, x, beta), c);
      }
    } else {
      NoBatch(shape);
      ChunkAddNeedsBatchOne(sem, shape, c, beta);
    }
  }

  lemma NoBatch(shape: seq<nat>)
    requires |shape| == 4 && 0 < Product(shape)
    ensures 0 < shape[0]
  {
    ProductOfFour(shape);
  }

  lemma FewerSteps(c: nat, step: nat)
    requires 2 <= c && 2 <= step
    ensures (c + step - 1) / step < c
  {
    assert c * step == c + c * (step - 1);
    MulMonotone(2, c, step - 1);
    MulMonotone(c, (c + step - 1) / step, step);
  }

  /** A single channel is all a slice of length one takes, whatever its step. */
  lemma OneChannelAnyStep(v: Value, start: nat, step: nat)
    requires v.Tensor? && |v.shape| == 4 && start + 1 <= v.shape[1] && 0 < step
    ensures SliceChannels(v, start, start + 1, step) == SliceChannels(v, start, start + 1, 1)
  {
    hide Product;
    var inner := Product(v.shape[2..]);
    assert (1 + step - 1) / step == 1;
    var a, b := SliceChannels(v, start, start + 1, step), SliceChannels(v, start, start + 1, 1);
    forall k | 0 <= k < v.shape[0] * (1 * inner) ensures a.data[k] == b.data[k] {
      if inner != 0 {
        assert k % (1 * inner) / inner == 0;
        assert step * 0 == 0;
      }
    }
  }

  /** The matcher takes a steps input that is no constant for 1.  If the run-time value is another step,
      the kernel still computes the unfused chunk-add exactly when there is one channel per half. */
  lemma ChunkAddExactlyForUnitSteps(sem: Semantics, x: Value, s: Value, c: nat, step: nat)
    requires Image(x) && Image(s) && x.shape == s.shape && x.shape[0] == 1 && x.shape[1] == 2 * c && 0 < c
    requires |x.data| / 2 <= MAX_ELEMENTS && 0 < step
    ensures var gated := MulValue(sem, x, s);
            ChunkAddKernel(x, s)
            == AddValue(sem, SliceChannels(gated, 0, c, step), SliceChannels(gated, c, 2 * c, step))
            <==> step == 1 || c == 1
  {
    var gated := MulValue(sem, x, s);
    ChunkAddFuses(sem, x, s, c);
    if c == 1 {
      OneChannelAnyStep(gated, 0, step);
      OneChannelAnyStep(gated, 1, step);
    } else if step > 1 {
      FewerSteps(c, step);
      assert AddValue(sem, SliceChannels(gated, 0, c, step), SliceChannels(gated, c, 2 * c, step)).shape[1] < c;
      ChannelSlice(gated, 0, c);
      ChannelSlice(gated, c, c);
      assert ChunkAddReference(sem, gated, c).shape[1] == c;
    }
  }

  lemma SpikeGeometry(n: nat, c: nat, inner: nat)
    requires 2 <= n && 0 < n * (2 * c * inner)
    ensures 0 < c && 0 < inner && 0 < c * inner < n * (2 * c * inner) / 2 < n * (2 * c * inner)
  {
    PositiveProduct(n, 2 * c * inner);
    PositiveProduct(2 * c, inner);
    assert 2 * c * inner == 2 * (c * inner);
    assert n * (2 * (c * inner)) == 2 * (n * (c * inner));
    MulMonotone(2, n, c * inner);
    MulMonotone(1, c, inner);
  }

  /** The unfused scaled SiLU: x * sigmoid(beta * x), beta a one-element tensor. */
  function SiLUReference(sem: Semantics, x: Value, beta: Value): Value {
    MulValue(sem, x, SigmoidValue(sem, MulValue(sem, x, beta)))
  }

  predicate OneElement(v: Value) {
    IsTensor(v) && |v.data| == 1
  }

  lemma {:induction false} ProductOne(shape: seq<nat>)
    requires Product(shape) == 1
    ensures forall i :: 0 <= i < |shape| ==> shape[i] == 1
  {
    if shape != [] {
      assert shape[0] == 1 && Product(shape[1..]) == 1;
      ProductOne(shape[1..]);
      assert forall i :: 1 <= i < |shape| ==> shape[i] == shape[1..][i - 1];
    }
  }

  /** Multiplication by a one-element tensor of rank at most 4, from either side. */
  lemma MulByBeta(sem: Semantics, x: Value, beta: Value)
    requires Image(x) && OneElement(beta) && |beta.shape| <= 4
    ensures MulValue(sem, x, beta) == Scaled(x, beta.data[0], 0)
    ensures MulValue(sem, beta, x) == Scaled(x, beta.data[0], 0)
  {
    ProductOne(beta.shape);
    if x.shape == beta.shape {
      ProductsCommute(x.data, beta.data);
      assert |x.data| == 1;
      assert Products(x.data, beta.data)[0] == Scaled(x, beta.data[0], 0).data[0];
      assert Products(x.data, beta.data) == Scaled(x, beta.data[0], 0).data;
    } else if |x.data| == 1 {
      ProductOne(x.shape);
      assert Padded(beta.shape, |x.shape|) == x.shape;
      RealCommutes(x.data[0], beta.data[0]);
      assert Scaled(beta, x.data[0], |x.shape|).data[0] == Scaled(x, beta.data[0], 0).data[0];
      assert Scaled(beta, x.data[0], |x.shape|).data == Scaled(x, beta.data[0], 0).data;
    }
  }

  lemma RealCommutes(a: real, b: real)
    ensures a * b == b * a
  {
  }

  lemma ProductsCommute(a: seq<real>, b: seq<real>)
    requires |a| == |b|
    ensures Products(a, b) == Products(b, a)
  {
    forall i | 0 <= i < |a| ensures Products(a, b)[i] == Products(b, a)[i] {
      RealCommutes(a[i], b[i]);
    }
  }

  lemma MulCommutes(sem: Semantics, a: Value, b: Value)
    requires a.Tensor? && b.Tensor? && a.shape == b.shape && |a.data| == |b.data|
    ensures MulValue(sem, a, b) == MulValue(sem, b, a)
  {
    ProductsCommute(a.data, b.data);
  }

  lemma SiLUFuses(sem: Semantics, x: Value, beta: Value)
    requires Image(x) && |x.data| <= MAX_ELEMENTS && OneElement(beta) && |beta.shape| <= 4 && beta.data[0] == 4.0
    ensures SiLUKernel(sem, x) == SiLUReference(sem, x, beta)
  {
    MulByBeta(sem, x, beta);
    var scaled := MulValue(sem, x, beta);
    assert SigmoidValue(sem, scaled).shape == x.shape;
    var gate := SigmoidValue(sem, scaled);
    forall i | 0 <= i < |x.data| ensures SiLUKernel(sem, x).data[i] == Products(x.data, gate.data)[i] {
      assert scaled.data[i] == x.data[i] * 4.0;
      assert gate.data[i] == sem.sigmoid(scaled.data[i]);
    }
    assert SiLUKernel(sem, x).data == Products(x.data, gate.data);
  }

  predicate Injective(f: real -> real, a: real, b: real) {
    f(a) == f(b) ==> a == b
  }

  /** The kernel's factor is 4 exactly, while the match accepts everything within 1e-6 of 4: with any
      other factor the value differs where x = 1. */
  lemma SiLUNeedsFour(sem: Semantics, shape: seq<nat>, beta: Value)
    requires |shape| == 4 && 0 < Product(shape) <= MAX_ELEMENTS && OneElement(beta) && |beta.shape| <= 4
    requires Injective(sem.sigmoid, beta.data[0], 4.0)
    ensures SiLUKernel(sem, Flat(shape)) == SiLUReference(sem, Flat(shape), beta) <==> beta.data[0] == 4.0
  {
    var x := Flat(shape);
    MulByBeta(sem, x, beta);
    GateData(sem, x, beta);
    assert SiLUKernel(sem, x).data[0] == sem.sigmoid(4.0);
    assert SiLUReference(sem, x, beta).data[0] == sem.sigmoid(beta.data[0]);
    if beta.data[0] == 4.0 { SiLUFuses(sem, x, beta); }
  }

  /** For a given shape the scaled SiLU is right on every source exactly when the factor is 4. */
  lemma SiLUExactlyForFour(sem: Semantics, shape: seq<nat>, beta: Value)
    requires |shape| == 4 && 0 < Product(shape) <= MAX_ELEMENTS && OneElement(beta) && |beta.shape| <= 4
    requires Injective(sem.sigmoid, beta.data[0], 4.0)
    ensures (forall x :: Image(x) && x.shape == shape ==> SiLUKernel(sem, x) == SiLUReference(sem, x, beta))
            <==> beta.data[0] == 4.0
  {
    hide SiLUKernel, SiLUReference;
    SiLUNeedsFour(sem, shape, beta);
    assert Image(Flat(shape));
    if beta.data[0] == 4.0 {
      forall x | Image(x) && x.shape == shape ensures SiLUKernel(sem, x) == SiLUReference(sem, x, beta) {
        SiLUFuses(sem, x, beta);
      }
    }
  }

  /** A one-element factor of rank above 4 raises the rank of the product, which no kernel accepts. */
  lemma HighRankBetaFails(sem: Semantics, x: Value, beta: Value)
    requires Image(x) && OneElement(beta) && |beta.shape| > 4
    ensures ChunkAddKernel(x, SigmoidValue(sem, MulValue(sem, x, beta))) == Failed
    ensures MulKernel(x, SigmoidValue(sem, MulValue(sem, x, beta))) == Failed
  {
    var scaled := MulValue(sem, x, beta);
    assert scaled == Scaled(x, beta.data[0], |beta.shape|);
  }

  /** Broadcasting never lowers the rank. */
  predicate KeepsRank(sem: Semantics, a: Value, b: Value)
    requires a.Tensor? && b.Tensor?
  {
    var r := First(sem.other(Mul, [a, b]));
    r.Tensor? ==> |a.shape| <= |r.shape| && |b.shape| <= |r.shape|
  }

  /** The scaled SiLU does accept the source itself, but its result keeps rank 4, and the nodes it replaces
      give a higher rank. */
  lemma HighRankBetaChangesRank(sem: Semantics, x: Value, beta: Value)
    requires Image(x) && |x.data| <= MAX_ELEMENTS && OneElement(beta) && |beta.shape| > 4
    requires GateOf(sem, x, beta).Tensor? && KeepsRank(sem, x, GateOf(sem, x, beta))
    ensures SiLUKernel(sem, x).Tensor? && |SiLUKernel(sem, x).shape| == 4
    ensures SiLUReference(sem, x, beta).Tensor? ==> |SiLUReference(sem, x, beta).shape| > 4
    ensures SiLUKernel(sem, x) != SiLUReference(sem, x, beta)
  {
    assert MulValue(sem, x, beta) == Scaled(x, beta.data[0], |beta.shape|);
  }
}
