/** The rewrite preserves the meaning of a graph. */
module OnnxPreserve {
  import opened Options
  import opened Tensors
  import opened OnnxGraph
  import opened OnnxRewrite

  function Base(g: Graph): set<Name> {
    g.initializers.Keys + g.inputs
  }

  predicate Interpreted(op: Op) {
    op == Mul || op == Add || op == Sigmoid || op == Slice
  }

  /** What onnx.checker guarantees before the rewrite runs: single assignment, topological order, and
      one named output for each of the operators the patterns speak of. */
  ghost predicate WellFormed(g: Graph) {
    && "" !in Base(g) && "" !in g.shapes
    && Ordered(Base(g), g.nodes)
    && (forall i :: 0 <= i < |g.nodes| && Interpreted(g.nodes[i].op) ==> SingleOutput(g.nodes[i]))
    && g.outputs <= Base(g) + AllOutputs(g.nodes)
  }

  predicate SingleOutput(node: Node) {
    |node.outputs| == 1 && node.outputs[0] != ""
  }

  predicate TwoFactors(names: seq<Name>, a: Name, b: Name) {
    names == [a, b] || names == [b, a]
  }

  function MatchOf(g: Graph, mode: Mode, i: nat): Option<Match>
    requires i < |g.nodes|
  {
    MatchAt(g, ProducerMap(g.nodes), ConsumerMap(g.nodes), mode, i)
  }

  /** What a recognised gate means, in terms of the nodes alone. */
  ghost predicate GateShape(g: Graph, gate: Gate) {
    && gate.mul < |g.nodes| && gate.sigmoid < |g.nodes| && gate.preMul < |g.nodes|
    && g.nodes[gate.sigmoid].op == Sigmoid && g.nodes[gate.preMul].op == Mul
    && TwoFactors(g.nodes[gate.mul].inputs, Output(g, gate.sigmoid), gate.source)
    && g.nodes[gate.sigmoid].inputs == [Output(g, gate.preMul)]
    && TwoFactors(g.nodes[gate.preMul].inputs, gate.beta, gate.source)
    && ScalarValue(g, gate.beta).Some? && IsCloseToFour(ScalarValue(g, gate.beta).value)
    && (forall j :: 0 <= j < |g.nodes| && gate.source in OutputSet(g.nodes[j]) ==> g.nodes[j].op != Sigmoid)
  }

  lemma ProducedByOp(g: Graph, name: Name, op: Op, i: nat)
    requires WellFormed(g) && Interpreted(op)
    requires ProducerOf(g, ProducerMap(g.nodes), name, op) == Some(i)
    ensures i < |g.nodes| && g.nodes[i].op == op && Output(g, i) == name && g.nodes[i].outputs == [name]
  {
    ProducerMapSound(g.nodes, name);
  }

  lemma {:induction false} ProducerMapComplete(nodes: seq<Node>, j: nat, name: Name)
    requires j < |nodes| && name in OutputSet(nodes[j])
    ensures name in ProducerMap(nodes)
    decreases |nodes|
  {
    var last := |nodes| - 1;
    AddOutputsHolds(ProducerMap(nodes[..last]), nodes[last].outputs, last, name);
    if j < last { ProducerMapComplete(nodes[..last], j, name); }
  }

  /** Single assignment: a name has one producer. */
  lemma OneProducer(g: Graph, i: nat, j: nat, name: Name)
    requires WellFormed(g) && i < |g.nodes| && j < |g.nodes|
    requires name in OutputSet(g.nodes[i]) && name in OutputSet(g.nodes[j])
    ensures i == j
  {
    if i < j { LaterIsNew(g, i, j, name); }
    if j < i { LaterIsNew(g, j, i, name); }
  }

  lemma LaterIsNew(g: Graph, i: nat, j: nat, name: Name)
    requires WellFormed(g) && i < j < |g.nodes| && name in OutputSet(g.nodes[i])
    ensures name !in OutputSet(g.nodes[j])
  {
    OrderedAt(Base(g), g.nodes, j);
    assert name in OutputSet(g.nodes[..j][i]);
    AllOutputsContains(g.nodes[..j], name);
  }

  lemma NotFromSigmoid(g: Graph, name: Name)
    requires WellFormed(g) && ProducerOf(g, ProducerMap(g.nodes), name, Sigmoid).None?
    ensures forall j :: 0 <= j < |g.nodes| && name in OutputSet(g.nodes[j]) ==> g.nodes[j].op != Sigmoid
  {
    forall j | 0 <= j < |g.nodes| && name in OutputSet(g.nodes[j]) ensures g.nodes[j].op != Sigmoid {
      ProducerMapComplete(g.nodes, j, name);
      ProducerMapSound(g.nodes, name);
      OneProducer(g, j, ProducerMap(g.nodes)[name], name);
    }
  }

  lemma GateMatched(g: Graph, mul: nat, gate: Gate)
    requires WellFormed(g) && mul < |g.nodes|
    requires MatchGate(g, ProducerMap(g.nodes), mul) == Some(gate)
    ensures gate.mul == mul && GateShape(g, gate)
  {
    var produced := ProducerMap(g.nodes);
    var names := g.nodes[mul].inputs;
    assert names == [names[0], names[1]];
    if ProducerOf(g, produced, names[0], Sigmoid).Some? {
      ProducedByOp(g, names[0], Sigmoid, gate.sigmoid);
    } else {
      ProducedByOp(g, names[1], Sigmoid, gate.sigmoid);
    }
    NotFromSigmoid(g, gate.source);
    var inner := g.nodes[gate.sigmoid].inputs;
    assert inner == [inner[0]];
    ProducedByOp(g, inner[0], Mul, gate.preMul);
    var factors := g.nodes[gate.preMul].inputs;
    assert factors == [factors[0], factors[1]];
  }

  /** What a match means, in terms of the nodes and their readers alone. */
  ghost predicate MatchShape(g: Graph, mode: Mode, m: Match) {
    && GateShape(g, m.gate) && m.replaced < |g.nodes|
    && SingleOutput(g.nodes[m.replaced]) && Output(g, m.replaced) !in g.outputs
    && SingleOutput(g.nodes[m.gate.sigmoid]) && SingleOutput(g.nodes[m.gate.preMul]) && SingleOutput(g.nodes[m.gate.mul])
    && ImageShape(g, m.gate.source) == Some(m.shape)
    && if mode == ChunkAdd then ChunkShape(g, m)
       else
         && m.gate.mul == m.replaced && g.nodes[m.replaced].op == Mul
         && Output(g, m.gate.preMul) !in g.outputs && Output(g, m.gate.sigmoid) !in g.outputs
         && ReadOnlyBy(g, Output(g, m.gate.preMul), {m.gate.sigmoid})
         && ReadOnlyBy(g, Output(g, m.gate.sigmoid), {m.replaced})
         && ReadByConvs(g, Output(g, m.replaced))
  }

  ghost predicate ReadByConvs(g: Graph, name: Name) {
    forall j :: 0 <= j < |g.nodes| && name in g.nodes[j].inputs ==> g.nodes[j].op.Conv?
  }

  ghost predicate ReadOnlyBy(g: Graph, name: Name, readers: set<nat>) {
    forall j :: 0 <= j < |g.nodes| && name in g.nodes[j].inputs ==> j in readers
  }

  ghost predicate ChunkShape(g: Graph, m: Match)
    requires m.replaced < |g.nodes| && m.gate.mul < |g.nodes|
  {
    && |m.slices| == 2 && m.slices[0] < |g.nodes| && m.slices[1] < |g.nodes|
    && g.nodes[m.replaced].op == Add && g.nodes[m.gate.mul].op == Mul
    && var a, b := g.nodes[m.slices[0]], g.nodes[m.slices[1]];
       && a.op == Slice && b.op == Slice && SingleOutput(a) && SingleOutput(b)
       && g.nodes[m.replaced].inputs == [Output(g, m.slices[0]), Output(g, m.slices[1])]
       && a.inputs != [] && b.inputs != []
       && a.inputs[0] == Output(g, m.gate.mul) && b.inputs[0] == Output(g, m.gate.mul)
       && |m.shape| == 4 && Halves(MatchSlice(g, a), MatchSlice(g, b), m.shape[1])
       && Output(g, m.gate.mul) !in g.outputs
       && Output(g, m.slices[0]) !in g.outputs && Output(g, m.slices[1]) !in g.outputs
       && ReadOnlyBy(g, Output(g, m.gate.mul), {m.slices[0], m.slices[1]})
       && ReadOnlyBy(g, Output(g, m.slices[0]), {m.replaced}) && ReadOnlyBy(g, Output(g, m.slices[1]), {m.replaced})
  }

  lemma ReadersListed(g: Graph, name: Name, readers: set<nat>)
    requires forall j :: j in ConsumersOf(ConsumerMap(g.nodes), name) ==> j in readers
    ensures ReadOnlyBy(g, name, readers)
  {
    forall j | 0 <= j < |g.nodes| && name in g.nodes[j].inputs ensures j in readers {
      ConsumerMapComplete(g.nodes, j, name);
    }
  }

  lemma MatchMulMeans(g: Graph, mode: Mode, i: nat, m: Match)
    requires WellFormed(g) && i < |g.nodes| && mode != ChunkAdd
    requires MatchMul(g, ProducerMap(g.nodes), ConsumerMap(g.nodes), i) == Some(m)
    ensures m.replaced == i && MatchShape(g, mode, m)
  {
    GateMatched(g, i, m.gate);
    ReadersListed(g, Output(g, m.gate.preMul), {m.gate.sigmoid});
    ReadersListed(g, Output(g, m.gate.sigmoid), {i});
    ConvReader(g, Output(g, i));
  }

  lemma ConvReader(g: Graph, name: Name)
    requires var readers := ConsumersOf(ConsumerMap(g.nodes), name);
             |readers| == 1 && readers[0] < |g.nodes| && g.nodes[readers[0]].op.Conv?
    ensures ReadByConvs(g, name)
  {
    forall j | 0 <= j < |g.nodes| && name in g.nodes[j].inputs ensures g.nodes[j].op.Conv? {
      ConsumerMapComplete(g.nodes, j, name);
    }
  }

  lemma OnlyReader(g: Graph, i: nat, name: Name)
    requires i < |g.nodes| && name in g.nodes[i].inputs && OnlyConsumer(ConsumerMap(g.nodes), name)
    ensures ReadOnlyBy(g, name, {i})
  {
    ConsumerMapComplete(g.nodes, i, name);
    ReadersListed(g, name, {i});
  }

  lemma ReadersAreSet(g: Graph, name: Name, readers: set<nat>)
    requires (set c | c in ConsumersOf(ConsumerMap(g.nodes), name)) == readers
    ensures ReadOnlyBy(g, name, readers)
  {
    forall j | j in ConsumersOf(ConsumerMap(g.nodes), name) ensures j in readers {
      assert j in set c | c in ConsumersOf(ConsumerMap(g.nodes), name);
    }
    ReadersListed(g, name, readers);
  }

  lemma MatchSlicesMeans(g: Graph, i: nat, sa: nat, sb: nat, m: Match)
    requires WellFormed(g) && i < |g.nodes| && sa < |g.nodes| && sb < |g.nodes|
    requires g.nodes[i].op == Add && g.nodes[sa].op == Slice && g.nodes[sb].op == Slice
    requires g.nodes[i].inputs == [Output(g, sa), Output(g, sb)] && Output(g, i) !in g.outputs
    requires MatchSlices(g, ProducerMap(g.nodes), ConsumerMap(g.nodes), i, sa, sb) == Some(m)
    ensures m.replaced == i && MatchShape(g, ChunkAdd, m)
  {
    ProducedByOp(g, g.nodes[sa].inputs[0], Mul, m.gate.mul);
    GateMatched(g, m.gate.mul, m.gate);
    OnlyReader(g, i, Output(g, sa));
    OnlyReader(g, i, Output(g, sb));
    ReadersAreSet(g, Output(g, m.gate.mul), {sa, sb});
  }

  lemma MatchMeans(g: Graph, mode: Mode, i: nat, m: Match)
    requires WellFormed(g) && i < |g.nodes| && MatchOf(g, mode, i) == Some(m)
    ensures m.replaced == i && MatchShape(g, mode, m)
  {
    if mode == ChunkAdd {
      var names := g.nodes[i].inputs;
      assert names == [names[0], names[1]];
      var produced := ProducerMap(g.nodes);
      var sa, sb := ProducerOf(g, produced, names[0], Slice).value, ProducerOf(g, produced, names[1], Slice).value;
      ProducedByOp(g, names[0], Slice, sa);
      ProducedByOp(g, names[1], Slice, sb);
      MatchSlicesMeans(g, i, sa, sb, m);
    } else {
      MatchMulMeans(g, mode, i, m);
    }
  }

  // ----- when a match is safe -----

  predicate StaticSteps(g: Graph, node: Node) {
    |node.inputs| < 5 || node.inputs[4] == "" || IntList(g, node.inputs[4]).Some?
  }

  /** What a caller must check of a match before it is replaced: the factor is a constant of rank at
      most 4; the tensor is not empty and not too large; for the chunk-add, the batch is one and no
      slice takes its steps from a run-time value; for the scaled SiLU, the factor is 4 exactly. */
  predicate Safe(g: Graph, mode: Mode, m: Match) {
    && m.gate.beta in g.initializers && OneElement(g.initializers[m.gate.beta])
    && |g.initializers[m.gate.beta].shape| <= 4
    && |m.shape| == 4 && 0 < Product(m.shape)
    && match mode
       case ChunkAdd =>
         && m.shape[0] == 1 && Product(m.shape) / 2 <= MAX_ELEMENTS
         && forall s :: s in m.slices && s < |g.nodes| ==> StaticSteps(g, g.nodes[s])
       case SigmoidMul => Product(m.shape) <= MAX_ELEMENTS
       case ScaledSiLU => Product(m.shape) <= MAX_ELEMENTS && g.initializers[m.gate.beta].data[0] == 4.0
  }

  /** A valuation of all names of the graph that satisfies every node, gives constants their value and
      agrees with shape inference. */
  ghost predicate Valuation(g: Graph, sem: Semantics, v: Env) {
    && v.Keys == Base(g) + AllOutputs(g.nodes)
    && Extends(v, g.initializers)
    && (forall i :: 0 <= i < |g.nodes| ==> Satisfies(sem, v, g.nodes[i]))
    && (forall name :: name in g.shapes && name in v ==> IsTensor(v[name]) && v[name].shape == g.shapes[name])
  }

  lemma NodeValue(g: Graph, sem: Semantics, v: Env, i: nat)
    requires Valuation(g, sem, v) && i < |g.nodes| && SingleOutput(g.nodes[i])
    ensures Lookup(v, Output(g, i)) == Result(sem, g.nodes[i], Inputs(v, g.nodes[i].inputs), 0)
  {
    assert Satisfies(sem, v, g.nodes[i]);
  }

  lemma SourceValue(g: Graph, sem: Semantics, v: Env, i: nat, name: Name, shape: seq<nat>)
    requires WellFormed(g) && Valuation(g, sem, v) && i < |g.nodes| && name in g.nodes[i].inputs
    requires ImageShape(g, name) == Some(shape) && 0 < Product(shape)
    ensures Image(Lookup(v, name)) && Lookup(v, name).shape == shape
  {
    OrderedAt(Base(g), g.nodes, i);
    assert name in KnownBefore(Base(g), g.nodes, i);
    KnownIsDefined(g, i, name);
  }

  lemma KnownIsDefined(g: Graph, i: nat, name: Name)
    requires i <= |g.nodes| && name in KnownBefore(Base(g), g.nodes, i)
    ensures name in Base(g) + AllOutputs(g.nodes)
  {
    AllOutputsContains(g.nodes[..i], name);
    AllOutputsContains(g.nodes, name);
    if j :| 0 <= j < |g.nodes[..i]| && name in OutputSet(g.nodes[..i][j]) {
      assert name in OutputSet(g.nodes[j]);
    }
  }

  lemma BetaValue(g: Graph, sem: Semantics, v: Env, mode: Mode, m: Match)
    requires WellFormed(g) && Valuation(g, sem, v) && Safe(g, mode, m)
    ensures Lookup(v, m.gate.beta) == g.initializers[m.gate.beta]
  {
  }

  /** The values at a recognised gate: the sigmoid of the scaled source, and their product. */
  lemma GateValues(g: Graph, sem: Semantics, v: Env, mode: Mode, m: Match)
    requires WellFormed(g) && Valuation(g, sem, v) && MatchShape(g, mode, m) && Safe(g, mode, m)
    requires g.nodes[m.gate.mul].op == Mul
    ensures var x, beta := Lookup(v, m.gate.source), g.initializers[m.gate.beta];
            && Image(x) && x.shape == m.shape
            && Lookup(v, Output(g, m.gate.sigmoid)) == SigmoidValue(sem, MulValue(sem, x, beta))
            && Lookup(v, Output(g, m.gate.mul)) == SiLUReference(sem, x, beta)
  {
    hide WellFormed, ChunkShape, ReadOnlyBy, ReadByConvs, IsCloseToFour, Satisfies;
    var gate := m.gate;
    var x, beta := Lookup(v, gate.source), g.initializers[gate.beta];
    SourceValue(g, sem, v, gate.mul, gate.source, m.shape);
    BetaValue(g, sem, v, mode, m);
    NodeValue(g, sem, v, gate.preMul);
    NodeValue(g, sem, v, gate.sigmoid);
    NodeValue(g, sem, v, gate.mul);
    MulByBeta(sem, x, beta);
    MulCommutes(sem, x, SigmoidValue(sem, MulValue(sem, x, beta)));
  }

  /** At run time a matched slice has the bounds that were matched. */
  lemma SliceBoundsAtRuntime(g: Graph, sem: Semantics, v: Env, i: nat)
    requires WellFormed(g) && Valuation(g, sem, v) && i < |g.nodes| && StaticSteps(g, g.nodes[i])
    requires MatchSlice(g, g.nodes[i]).SliceBounds? && MatchSlice(g, g.nodes[i]).axis == 1
    ensures RuntimeBounds(Inputs(v, g.nodes[i].inputs)) == MatchSlice(g, g.nodes[i])
  {
    var names := g.nodes[i].inputs;
    var inputs := Inputs(v, names);
    forall k | 0 <= k < |names| && IntList(g, names[k]).Some?
      ensures inputs[k] == Ints(IntList(g, names[k]).value)
    {
      assert names[k] in g.initializers;
    }
    assert inputs[1] == Ints(IntList(g, names[1]).value) && inputs[2] == Ints(IntList(g, names[2]).value);
    if OptionalList(g, g.nodes[i], 3).Some? {
      assert InputAt(inputs, 3) == Ints(OptionalList(g, g.nodes[i], 3).value);
    }
    if OptionalList(g, g.nodes[i], 4).Some? {
      assert InputAt(inputs, 4) == Ints(OptionalList(g, g.nodes[i], 4).value);
    } else {
      assert InputAt(inputs, 4) == Missing;
    }
  }

  lemma AddCommutes(sem: Semantics, a: Value, b: Value)
    requires a.Tensor? && b.Tensor? && a.shape == b.shape && |a.data| == |b.data|
    ensures AddValue(sem, a, b) == AddValue(sem, b, a)
  {
    assert Sums(a.data, b.data) == Sums(b.data, a.data);
  }

  lemma SliceNodeValue(g: Graph, sem: Semantics, v: Env, i: nat, gated: Value)
    requires WellFormed(g) && Valuation(g, sem, v) && i < |g.nodes| && StaticSteps(g, g.nodes[i])
    requires g.nodes[i].op == Slice && SingleOutput(g.nodes[i]) && g.nodes[i].inputs != []
    requires Lookup(v, g.nodes[i].inputs[0]) == gated && Image(gated)
    requires var b := MatchSlice(g, g.nodes[i]);
             b.SliceBounds? && b.axis == 1 && b.step == 1 && 0 <= b.start <= b.end <= gated.shape[1]
    ensures var b := MatchSlice(g, g.nodes[i]);
            Lookup(v, Output(g, i)) == SliceChannels(gated, b.start, b.end, 1)
  {
    NodeValue(g, sem, v, i);
    SliceBoundsAtRuntime(g, sem, v, i);
  }

  lemma GatedImage(sem: Semantics, x: Value, beta: Value)
    requires Image(x) && OneElement(beta) && |beta.shape| <= 4
    ensures var s := SigmoidValue(sem, MulValue(sem, x, beta));
            && Image(s) && s.shape == x.shape
            && Image(SiLUReference(sem, x, beta)) && SiLUReference(sem, x, beta).shape == x.shape
  {
    MulByBeta(sem, x, beta);
  }

  /** Adding the two halves, in whichever order the graph adds them. */
  lemma HalvesAdd(sem: Semantics, gated: Value, a: SliceBounds, b: SliceBounds)
    requires Image(gated) && gated.shape[0] == 1 && Halves(a, b, gated.shape[1])
    requires 0 <= a.start <= a.end <= gated.shape[1] && 0 <= b.start <= b.end <= gated.shape[1]
    ensures AddValue(sem, SliceChannels(gated, a.start, a.end, 1), SliceChannels(gated, b.start, b.end, 1))
         == ChunkAddReference(sem, gated, gated.shape[1] / 2)
  {
    var c := gated.shape[1] / 2;
    ChannelSlice(gated, 0, c);
    ChannelSlice(gated, c, c);
    AddCommutes(sem, SliceChannels(gated, 0, c, 1), SliceChannels(gated, c, 2 * c, 1));
  }

  lemma HalvesInRange(a: SliceBounds, b: SliceBounds, channels: nat)
    requires Halves(a, b, channels)
    ensures a.axis == b.axis == 1 && a.step == b.step == 1
    ensures 0 <= a.start <= a.end <= channels && 0 <= b.start <= b.end <= channels && channels == 2 * (channels / 2)
  {
  }

  /** The unfused value of a chunk-add match. */
  lemma ChunkOriginal(g: Graph, sem: Semantics, v: Env, m: Match)
    requires WellFormed(g) && Valuation(g, sem, v) && MatchShape(g, ChunkAdd, m) && Safe(g, ChunkAdd, m)
    requires Image(Lookup(v, Output(g, m.gate.mul))) && Lookup(v, Output(g, m.gate.mul)).shape == m.shape
    ensures Lookup(v, Output(g, m.replaced))
         == ChunkAddReference(sem, Lookup(v, Output(g, m.gate.mul)), m.shape[1] / 2)
  {
    var gated := Lookup(v, Output(g, m.gate.mul));
    var sa, sb := m.slices[0], m.slices[1];
    assert sa in m.slices && sb in m.slices;
    var a, b := MatchSlice(g, g.nodes[sa]), MatchSlice(g, g.nodes[sb]);
    HalvesInRange(a, b, m.shape[1]);
    SliceNodeValue(g, sem, v, sa, gated);
    SliceNodeValue(g, sem, v, sb, gated);
    NodeValue(g, sem, v, m.replaced);
    HalvesAdd(sem, gated, a, b);
  }

  lemma ChunkValue(g: Graph, sem: Semantics, v: Env, m: Match)
    requires WellFormed(g) && Valuation(g, sem, v) && MatchShape(g, ChunkAdd, m) && Safe(g, ChunkAdd, m)
    ensures Lookup(v, Output(g, m.replaced))
         == ChunkAddKernel(Lookup(v, m.gate.source), Lookup(v, Output(g, m.gate.sigmoid)))
  {
    GateValues(g, sem, v, ChunkAdd, m);
    var x, beta := Lookup(v, m.gate.source), g.initializers[m.gate.beta];
    var s := Lookup(v, Output(g, m.gate.sigmoid));
    GatedImage(sem, x, beta);
    ChunkOriginal(g, sem, v, m);
    HalvesInRange(MatchSlice(g, g.nodes[m.slices[0]]), MatchSlice(g, g.nodes[m.slices[1]]), m.shape[1]);
    ChunkAddFuses(sem, x, s, m.shape[1] / 2);
  }

  lemma MulValueFused(g: Graph, sem: Semantics, v: Env, m: Match)
    requires WellFormed(g) && Valuation(g, sem, v) && MatchShape(g, SigmoidMul, m) && Safe(g, SigmoidMul, m)
    ensures Lookup(v, Output(g, m.replaced))
         == MulKernel(Lookup(v, m.gate.source), Lookup(v, Output(g, m.gate.sigmoid)))
  {
    GateValues(g, sem, v, SigmoidMul, m);
    GatedImage(sem, Lookup(v, m.gate.source), g.initializers[m.gate.beta]);
  }

  lemma SiLUValueFused(g: Graph, sem: Semantics, v: Env, m: Match)
    requires WellFormed(g) && Valuation(g, sem, v) && MatchShape(g, ScaledSiLU, m) && Safe(g, ScaledSiLU, m)
    ensures Lookup(v, Output(g, m.replaced)) == SiLUKernel(sem, Lookup(v, m.gate.source))
  {
    GateValues(g, sem, v, ScaledSiLU, m);
    SiLUFuses(sem, Lookup(v, m.gate.source), g.initializers[m.gate.beta]);
  }

  lemma TwoInputs(v: Env, a: Name, b: Name)
    ensures InputAt(Inputs(v, [a, b]), 0) == Lookup(v, a) && InputAt(Inputs(v, [a, b]), 1) == Lookup(v, b)
    ensures InputAt(Inputs(v, [a]), 0) == Lookup(v, a)
  {
  }

  lemma OneOutputSatisfied(sem: Semantics, v: Env, node: Node, out: Name)
    requires node.outputs == [out] && out in v
    requires out != "" ==> v[out] == Result(sem, node, Inputs(v, node.inputs), 0)
    ensures Satisfies(sem, v, node)
  {
  }

  lemma BinaryKernelSatisfied(sem: Semantics, v: Env, a: Name, b: Name, out: Name)
    requires out in v && out != ""
    ensures v[out] == ChunkAddKernel(Lookup(v, a), Lookup(v, b)) ==>
              Satisfies(sem, v, Node(PostSigmoidChunkAdd, [a, b], [out]))
    ensures v[out] == MulKernel(Lookup(v, a), Lookup(v, b)) ==> Satisfies(sem, v, Node(PostSigmoidMul, [a, b], [out]))
    ensures v[out] == SiLUKernel(sem, Lookup(v, a)) ==> Satisfies(sem, v, Node(ScaledSiLUMul, [a], [out]))
  {
    TwoInputs(v, a, b);
    if v[out] == ChunkAddKernel(Lookup(v, a), Lookup(v, b)) {
      OneOutputSatisfied(sem, v, Node(PostSigmoidChunkAdd, [a, b], [out]), out);
    }
    if v[out] == MulKernel(Lookup(v, a), Lookup(v, b)) {
      OneOutputSatisfied(sem, v, Node(PostSigmoidMul, [a, b], [out]), out);
    }
    if v[out] == SiLUKernel(sem, Lookup(v, a)) {
      OneOutputSatisfied(sem, v, Node(ScaledSiLUMul, [a], [out]), out);
    }
  }

  lemma ReplacedIsValued(g: Graph, sem: Semantics, v: Env, i: nat)
    requires Valuation(g, sem, v) && i < |g.nodes| && SingleOutput(g.nodes[i])
    ensures Output(g, i) != "" && Output(g, i) in v && Lookup(v, Output(g, i)) == v[Output(g, i)]
  {
    assert Satisfies(sem, v, g.nodes[i]);
  }

  lemma ChunkNodeSatisfied(g: Graph, sem: Semantics, v: Env, m: Match)
    requires WellFormed(g) && Valuation(g, sem, v) && MatchShape(g, ChunkAdd, m) && Safe(g, ChunkAdd, m)
    ensures Satisfies(sem, v, FusedNode(g, ChunkAdd, m))
  {
    ReplacedIsValued(g, sem, v, m.replaced);
    ChunkValue(g, sem, v, m);
    BinaryKernelSatisfied(sem, v, m.gate.source, Output(g, m.gate.sigmoid), Output(g, m.replaced));
  }

  lemma MulNodeSatisfied(g: Graph, sem: Semantics, v: Env, m: Match)
    requires WellFormed(g) && Valuation(g, sem, v) && MatchShape(g, SigmoidMul, m) && Safe(g, SigmoidMul, m)
    ensures Satisfies(sem, v, FusedNode(g, SigmoidMul, m))
  {
    ReplacedIsValued(g, sem, v, m.replaced);
    MulValueFused(g, sem, v, m);
    BinaryKernelSatisfied(sem, v, m.gate.source, Output(g, m.gate.sigmoid), Output(g, m.replaced));
  }

  lemma SiLUNodeSatisfied(g: Graph, sem: Semantics, v: Env, m: Match)
    requires WellFormed(g) && Valuation(g, sem, v) && MatchShape(g, ScaledSiLU, m) && Safe(g, ScaledSiLU, m)
    ensures Satisfies(sem, v, FusedNode(g, ScaledSiLU, m))
  {
    ReplacedIsValued(g, sem, v, m.replaced);
    SiLUValueFused(g, sem, v, m);
    BinaryKernelSatisfied(sem, v, m.gate.source, "", Output(g, m.replaced));
  }

  /** The fused node has, in every valuation, the value of the node it replaces. */
  lemma FusedValue(g: Graph, sem: Semantics, v: Env, mode: Mode, m: Match)
    requires WellFormed(g) && Valuation(g, sem, v) && MatchShape(g, mode, m) && Safe(g, mode, m)
    ensures Satisfies(sem, v, FusedNode(g, mode, m))
  {
    match mode
    case ChunkAdd => ChunkNodeSatisfied(g, sem, v, m);
    case SigmoidMul => MulNodeSatisfied(g, sem, v, m);
    case ScaledSiLU => SiLUNodeSatisfied(g, sem, v, m);
  }
}
