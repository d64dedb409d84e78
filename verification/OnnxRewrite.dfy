/** rewrite_wsiluchunkadd_onnx.py: finding the three fusable patterns and replacing them. */
module OnnxRewrite {
  import opened Options
  import opened Tensors
  import opened OnnxGraph

  datatype Mode = ChunkAdd | SigmoidMul | ScaledSiLU

  /** A model: nodes, constants, run-time inputs, result names, and what shape inference found out. */
  datatype Graph = Graph(
    nodes: seq<Node>, initializers: map<Name, Value>, inputs: set<Name>, outputs: set<Name>,
    shapes: map<Name, seq<nat>>, dtypes: map<Name, nat>)

  const FLOAT: nat := 1
  const FLOAT16: nat := 10

  // ----- producer and consumer maps; nodes are identified by position -----

  type Producers = map<Name, nat>
  type Consumers = map<Name, seq<nat>>

  function AddOutputs(produced: Producers, names: seq<Name>, i: nat): Producers {
    if names == [] then produced
    else
      var rest := AddOutputs(produced, names[..|names| - 1], i);
      if names[|names| - 1] == "" then rest else rest[names[|names| - 1] := i]
  }

  function ProducerMap(nodes: seq<Node>): Producers {
    if nodes == [] then map[]
    else AddOutputs(ProducerMap(nodes[..|nodes| - 1]), nodes[|nodes| - 1].outputs, |nodes| - 1)
  }

  function ConsumersOf(consumes: Consumers, name: Name): seq<nat> {
    if name in consumes then consumes[name] else []
  }

  function AddInputs(consumes: Consumers, names: seq<Name>, i: nat): Consumers {
    if names == [] then consumes
    else
      var rest := AddInputs(consumes, names[..|names| - 1], i);
      rest[names[|names| - 1] := ConsumersOf(rest, names[|names| - 1]) + [i]]
  }

  function ConsumerMap(nodes: seq<Node>): Consumers {
    if nodes == [] then map[]
    else AddInputs(ConsumerMap(nodes[..|nodes| - 1]), nodes[|nodes| - 1].inputs, |nodes| - 1)
  }

  method NodeOutputMap(nodes: seq<Node>) returns (produced: Producers)
    ensures produced == ProducerMap(nodes)
  {
    produced := map[];
    for i := 0 to |nodes|
      invariant produced == ProducerMap(nodes[..i])
    {
      assert nodes[..i + 1][..i] == nodes[..i];
      ghost var before := produced;
      var names := nodes[i].outputs;
      for k := 0 to |names|
        invariant produced == AddOutputs(before, names[..k], i)
      {
        assert names[..k + 1][..k] == names[..k];
        if names[k] != "" { produced := produced[names[k] := i]; }
      }
      assert names[..|names|] == names;
    }
    assert nodes[..|nodes|] == nodes;
  }

  method BuildConsumerMap(nodes: seq<Node>) returns (consumes: Consumers)
    ensures consumes == ConsumerMap(nodes)
  {
    consumes := map[];
    for i := 0 to |nodes|
      invariant consumes == ConsumerMap(nodes[..i])
    {
      assert nodes[..i + 1][..i] == nodes[..i];
      ghost var before := consumes;
      var names := nodes[i].inputs;
      for k := 0 to |names|
        invariant consumes == AddInputs(before, names[..k], i)
      {
        assert names[..k + 1][..k] == names[..k];
        consumes := consumes[names[k] := ConsumersOf(consumes, names[k]) + [i]];
      }
      assert names[..|names|] == names;
    }
    assert nodes[..|nodes|] == nodes;
  }

  lemma {:induction false} AddOutputsHolds(produced: Producers, names: seq<Name>, i: nat, name: Name)
    ensures name in AddOutputs(produced, names, i) <==> name in produced || (name != "" && name in names)
    ensures name in AddOutputs(produced, names, i) ==>
              AddOutputs(produced, names, i)[name] == if name != "" && name in names then i else produced[name]
  {
    if names != [] {
      AddOutputsHolds(produced, names[..|names| - 1], i, name);
      assert names == names[..|names| - 1] + [names[|names| - 1]];
    }
  }

  /** A name in the producer map is an output of the node it points to. */
  lemma {:induction false} ProducerMapSound(nodes: seq<Node>, name: Name)
    requires name in ProducerMap(nodes)
    ensures name != "" && ProducerMap(nodes)[name] < |nodes|
    ensures name in nodes[ProducerMap(nodes)[name]].outputs
  {
    AddOutputsHolds(ProducerMap(nodes[..|nodes| - 1]), nodes[|nodes| - 1].outputs, |nodes| - 1, name);
    if !(name != "" && name in nodes[|nodes| - 1].outputs) { ProducerMapSound(nodes[..|nodes| - 1], name); }
  }

  lemma {:induction false} AddInputsHolds(consumes: Consumers, names: seq<Name>, i: nat, name: Name)
    ensures ConsumersOf(consumes, name) <= ConsumersOf(AddInputs(consumes, names, i), name)
    ensures name in names ==> i in ConsumersOf(AddInputs(consumes, names, i), name)
  {
    if names != [] {
      AddInputsHolds(consumes, names[..|names| - 1], i, name);
      assert names == names[..|names| - 1] + [names[|names| - 1]];
    }
  }

  /** Every reader of a name is listed among its consumers. */
  lemma {:induction false} ConsumerMapComplete(nodes: seq<Node>, i: nat, name: Name)
    requires i < |nodes| && name in nodes[i].inputs
    ensures i in ConsumersOf(ConsumerMap(nodes), name)
    decreases |nodes|
  {
    var last := |nodes| - 1;
    AddInputsHolds(ConsumerMap(nodes[..last]), nodes[last].inputs, last, name);
    if i < last { ConsumerMapComplete(nodes[..last], i, name); }
  }

  // ----- pattern matching -----

  function IntList(g: Graph, name: Name): Option<seq<int>> {
    if name in g.initializers && g.initializers[name].Ints? then Some(g.initializers[name].values) else None
  }

  function ScalarValue(g: Graph, name: Name): Option<real> {
    if name !in g.initializers then None
    else match g.initializers[name]
      case Tensor(_, data) => if |data| == 1 then Some(data[0]) else None
      case Ints(values) => if |values| == 1 then Some(values[0] as real) else None
      case _ => None
  }

  function OptionalList(g: Graph, node: Node, i: nat): Option<seq<int>> {
    if i < |node.inputs| && node.inputs[i] != "" then IntList(g, node.inputs[i]) else None
  }

  /** match_slice: an axes or steps input that is not a constant counts as left out. */
  function MatchSlice(g: Graph, node: Node): SliceBounds {
    if node.op != Slice || |node.inputs| < 3 then NotOneAxis
    else
      var starts, ends := IntList(g, node.inputs[1]), IntList(g, node.inputs[2]);
      var axes, steps := OptionalList(g, node, 3), OptionalList(g, node, 4);
      if starts.None? || ends.None? then NotOneAxis
      else Bounds(starts.value, ends.value,
                  if axes.Some? then axes.value else Iota(|starts.value|),
                  if steps.Some? then steps.value else Ones(|starts.value|))
  }

  function ProducerOf(g: Graph, produced: Producers, name: Name, op: Op): Option<nat> {
    if name in produced && produced[name] < |g.nodes| && g.nodes[produced[name]].op == op
    then Some(produced[name]) else None
  }

  /** Of two factors, the one a Sigmoid produces and the name of the other. */
  function SigmoidFactor(g: Graph, produced: Producers, inputs: seq<Name>): Option<(nat, Name)> {
    if |inputs| != 2 then None
    else
      var a, b := ProducerOf(g, produced, inputs[0], Sigmoid), ProducerOf(g, produced, inputs[1], Sigmoid);
      if a.Some? && b.None? then Some((a.value, inputs[1]))
      else if a.None? && b.Some? then Some((b.value, inputs[0]))
      else None
  }

  /** Of two factors, the name of the constant scalar and the name of the other. */
  function BetaFactor(g: Graph, inputs: seq<Name>): Option<(Name, Name)> {
    if |inputs| != 2 then None
    else
      var a, b := ScalarValue(g, inputs[0]), ScalarValue(g, inputs[1]);
      if a.Some? && b.None? then Some((inputs[0], inputs[1]))
      else if a.None? && b.Some? then Some((inputs[1], inputs[0]))
      else None
  }

  predicate IsCloseToFour(beta: real) {
    -0.000001 <= beta - 4.0 <= 0.000001
  }

  /** x * sigmoid(beta * x), found from the outer multiplication. */
  datatype Gate = Gate(mul: nat, sigmoid: nat, preMul: nat, source: Name, beta: Name)

  function MatchGate(g: Graph, produced: Producers, mul: nat): Option<Gate>
    requires mul < |g.nodes|
  {
    match SigmoidFactor(g, produced, g.nodes[mul].inputs)
    case None => None
    case Some((sigmoid, source)) =>
      if |g.nodes[sigmoid].inputs| != 1 then None
      else match ProducerOf(g, produced, g.nodes[sigmoid].inputs[0], Mul)
        case None => None
        case Some(preMul) =>
          match BetaFactor(g, g.nodes[preMul].inputs)
          case None => None
          case Some((beta, preSource)) =>
            if preSource == source && ScalarValue(g, beta).Some? && IsCloseToFour(ScalarValue(g, beta).value)
            then Some(Gate(mul, sigmoid, preMul, source, beta)) else None
  }

  function ImageShape(g: Graph, name: Name): Option<seq<nat>> {
    if name in g.shapes && |g.shapes[name]| == 4 then Some(g.shapes[name]) else None
  }

  function Output(g: Graph, i: nat): Name
    requires i < |g.nodes|
  {
    if g.nodes[i].outputs == [] then "" else g.nodes[i].outputs[0]
  }

  predicate OnlyConsumer(consumes: Consumers, name: Name) {
    |ConsumersOf(consumes, name)| == 1
  }

  function Sorted(a: SliceBounds, b: SliceBounds): (SliceBounds, SliceBounds)
    requires a.SliceBounds? && b.SliceBounds?
  {
    if b.start < a.start then (b, a) else (a, b)
  }

  /** Two slices that cut channels [0, c) and [c, 2c). */
  predicate Halves(a: SliceBounds, b: SliceBounds, channels: nat) {
    && a.SliceBounds? && b.SliceBounds?
    && var (low, high) := Sorted(a, b);
       && low.axis == 1 && high.axis == 1 && low.step == 1 && high.step == 1
       && low.start == 0 && low.end == high.start && high.end == 2 * low.end
       && channels == high.end
  }

  datatype Match = Match(gate: Gate, replaced: nat, slices: seq<nat>, shape: seq<nat>)

  /** match_add_pattern */
  function MatchAdd(g: Graph, produced: Producers, consumes: Consumers, i: nat): Option<Match>
    requires i < |g.nodes|
  {
    var add := g.nodes[i];
    if add.op != Add || |add.inputs| != 2 || |add.outputs| != 1 || add.outputs[0] in g.outputs then None
    else
      var sa, sb := ProducerOf(g, produced, add.inputs[0], Slice), ProducerOf(g, produced, add.inputs[1], Slice);
      if sa.None? || sb.None? then None
      else MatchSlices(g, produced, consumes, i, sa.value, sb.value)
  }

  function MatchSlices(g: Graph, produced: Producers, consumes: Consumers, i: nat, sa: nat, sb: nat): Option<Match>
    requires i < |g.nodes| && sa < |g.nodes| && sb < |g.nodes|
  {
    var a, b := g.nodes[sa], g.nodes[sb];
    if |a.inputs| == 0 || |b.inputs| == 0 || a.inputs[0] != b.inputs[0] then None
    else match ProducerOf(g, produced, a.inputs[0], Mul)
      case None => None
      case Some(gated) =>
        match MatchGate(g, produced, gated)
        case None => None
        case Some(gate) =>
          match ImageShape(g, gate.source)
          case None => None
          case Some(shape) =>
            if && Halves(MatchSlice(g, a), MatchSlice(g, b), shape[1])
               && Output(g, gate.preMul) !in g.outputs && Output(g, gate.sigmoid) !in g.outputs
               && Output(g, gated) !in g.outputs && Output(g, sa) !in g.outputs && Output(g, sb) !in g.outputs
               && OnlyConsumer(consumes, Output(g, sa)) && OnlyConsumer(consumes, Output(g, sb))
               && (set c | c in ConsumersOf(consumes, Output(g, gated))) == {sa, sb}
            then Some(Match(gate, i, [sa, sb], shape)) else None
  }

  /** match_post_sigmoid_mul_pattern */
  function MatchMul(g: Graph, produced: Producers, consumes: Consumers, i: nat): Option<Match>
    requires i < |g.nodes|
  {
    var mul := g.nodes[i];
    if mul.op != Mul || |mul.inputs| != 2 || |mul.outputs| != 1 || mul.outputs[0] in g.outputs then None
    else match MatchGate(g, produced, i)
      case None => None
      case Some(gate) =>
        match ImageShape(g, gate.source)
        case None => None
        case Some(shape) =>
          var readers := ConsumersOf(consumes, mul.outputs[0]);
          if && (gate.source in g.dtypes ==> g.dtypes[gate.source] in {FLOAT16, FLOAT})
             && Output(g, gate.preMul) !in g.outputs && Output(g, gate.sigmoid) !in g.outputs
             && ConsumersOf(consumes, Output(g, gate.preMul)) == [gate.sigmoid]
             && ConsumersOf(consumes, Output(g, gate.sigmoid)) == [i]
             && |readers| == 1 && readers[0] < |g.nodes| && g.nodes[readers[0]].op.Conv?
          then Some(Match(gate, i, [], shape)) else None
  }

  function MatchAt(g: Graph, produced: Producers, consumes: Consumers, mode: Mode, i: nat): Option<Match>
    requires i < |g.nodes|
  {
    if mode == ChunkAdd then MatchAdd(g, produced, consumes, i) else MatchMul(g, produced, consumes, i)
  }

  // ----- rewriting -----

  function FusedNode(g: Graph, mode: Mode, m: Match): Node
    requires m.replaced < |g.nodes| && m.gate.sigmoid < |g.nodes|
  {
    match mode
    case ChunkAdd => Node(PostSigmoidChunkAdd, [m.gate.source, Output(g, m.gate.sigmoid)], [Output(g, m.replaced)])
    case SigmoidMul => Node(PostSigmoidMul, [m.gate.source, Output(g, m.gate.sigmoid)], [Output(g, m.replaced)])
    case ScaledSiLU => Node(ScaledSiLUMul, [m.gate.source], [Output(g, m.replaced)])
  }

  function MatchedIds(mode: Mode, m: Match): set<nat> {
    match mode
    case ChunkAdd => {m.replaced, m.gate.mul} + set s | s in m.slices
    case SigmoidMul => {m.replaced}
    case ScaledSiLU => {m.gate.preMul, m.gate.sigmoid, m.replaced}
  }

  /** What the two dictionaries of rewrite_model hold: the match that replaces a node, and all node
      positions that take part in a match. */
  datatype Plan = Plan(replacement: map<nat, Match>, ids: set<nat>)

  function Rewritten(g: Graph, mode: Mode, plan: Plan, n: nat): seq<Node>
    requires n <= |g.nodes|
    requires AllPlanOk(g, plan)
  {
    if n == 0 then []
    else
      var rest := Rewritten(g, mode, plan, n - 1);
      if n - 1 in plan.replacement then rest + [FusedNode(g, mode, plan.replacement[n - 1])]
      else if n - 1 in plan.ids then rest
      else rest + [g.nodes[n - 1]]
  }

  predicate AllPlanOk(g: Graph, plan: Plan) {
    forall i :: i in plan.replacement ==> PlanOk(g, plan.replacement[i])
  }

  predicate PlanOk(g: Graph, m: Match) {
    m.replaced < |g.nodes| && m.gate.sigmoid < |g.nodes|
  }
}
