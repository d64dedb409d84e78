/** Graphs that the matcher accepts and that the rewrite changes: what Safe asks of a match is needed. */
module OnnxBoundary {
  import opened Options
  import opened Tensors
  import opened OnnxGraph
  import opened OnnxRewrite
  import opened OnnxPreserve
  import opened OnnxCorrect
  import opened OnnxModel
  import opened NumberedGraphs

  // ----- the chunk-add pattern, with run-time steps -----

  const CHUNK_OPS: seq<Op> := [Mul, Sigmoid, Mul, Slice, Slice, Add, Add]

  const CHUNK_READS: seq<seq<nat>> := [[0, 8], [1], [0, 2], [3, 9, 10, 12, 13], [3, 10, 11, 12, 13], [4, 5], [6, 6]]

  function Beta(beta: real): (v: Value)
    ensures OneElement(v) && |v.shape| <= 4 && v.data[0] == beta
  {
    Tensor([], [beta])
  }

  function ChunkConstants(c: nat, beta: real): Env {
    map[Wire(8) := Beta(beta), Wire(9) := Ints([0]), Wire(10) := Ints([c]), Wire(11) := Ints([2 * c]), Wire(12) := Ints([1])]
  }

  /** z = y + y, y = the sum of the channel halves of x * sigmoid(beta * x); wire 0 is x, wire 13 the steps of
      both slices, wire 7 is z. */
  function ChunkGraph(shape: seq<nat>, c: nat, beta: real): Graph {
    Graph(NodesOf(CHUNK_OPS, CHUNK_READS), ChunkConstants(c, beta), {Wire(0), Wire(13)}, {Wire(7)},
          map[Wire(0) := shape], map[])
  }

  lemma ChunkNode(shape: seq<nat>, c: nat, beta: real, i: nat)
    requires i < 7
    ensures |ChunkGraph(shape, c, beta).nodes| == 7
    ensures ChunkGraph(shape, c, beta).nodes[i] == NodeAt(CHUNK_OPS[i], CHUNK_READS[i], i)
  {
  }

  lemma ChunkBase(shape: seq<nat>, c: nat, beta: real, n: nat)
    ensures Wire(n) in Base(ChunkGraph(shape, c, beta)) <==> n in {0, 8, 9, 10, 11, 12, 13}
    ensures Wire(n) in ChunkConstants(c, beta) <==> n in {8, 9, 10, 11, 12}
  {
  }

  lemma ChunkNumbered(shape: seq<nat>, c: nat, beta: real)
    ensures var g := ChunkGraph(shape, c, beta); Numbered(g.nodes, Base(g), CHUNK_READS)
  {
    hide Wire, ChunkConstants;
    var g := ChunkGraph(shape, c, beta);
    forall n: nat ensures Wire(n) in Base(g) <==> n in {0, 8, 9, 10, 11, 12, 13} { ChunkBase(shape, c, beta, n); }
  }

  lemma ChunkWellFormed(shape: seq<nat>, c: nat, beta: real)
    ensures WellFormed(ChunkGraph(shape, c, beta))
  {
    hide Ordered, Numbered, AllOutputs;
    var g := ChunkGraph(shape, c, beta);
    ChunkNumbered(shape, c, beta);
    NumberedOrdered(g.nodes, Base(g), CHUNK_READS);
    ChunkNode(shape, c, beta, 6);
    DefinedBy(g.nodes, 6, 7);
    forall i | 0 <= i < 7 ensures SingleOutput(g.nodes[i]) { ChunkNode(shape, c, beta, i); }
  }

  // ----- the matcher accepts it -----

  function ChunkGate(): Gate {
    Gate(2, 1, 0, Wire(0), Wire(8))
  }

  function ChunkMatch(shape: seq<nat>): Match {
    Match(ChunkGate(), 5, [3, 4], shape)
  }

  lemma ChunkProducers(g: Graph, shape: seq<nat>, c: nat, beta: real)
    requires g == ChunkGraph(shape, c, beta)
    ensures var p := ProducerMap(g.nodes);
            && ProducerOf(g, p, Wire(0), Sigmoid) == None && ProducerOf(g, p, Wire(2), Sigmoid) == Some(1)
            && ProducerOf(g, p, Wire(1), Mul) == Some(0) && ProducerOf(g, p, Wire(3), Mul) == Some(2)
            && ProducerOf(g, p, Wire(4), Slice) == Some(3) && ProducerOf(g, p, Wire(5), Slice) == Some(4)
  {
    hide Wire, ProducerMap, Numbered, ChunkConstants;
    ChunkNumbered(shape, c, beta);
    NumberedProducers(g.nodes, Base(g), CHUNK_READS, 0);
    NumberedProducers(g.nodes, Base(g), CHUNK_READS, 1);
    NumberedProducers(g.nodes, Base(g), CHUNK_READS, 2);
    NumberedProducers(g.nodes, Base(g), CHUNK_READS, 3);
    NumberedProducers(g.nodes, Base(g), CHUNK_READS, 4);
    NumberedProducers(g.nodes, Base(g), CHUNK_READS, 5);
  }

  lemma ChunkScalars(g: Graph, shape: seq<nat>, c: nat, beta: real)
    requires g == ChunkGraph(shape, c, beta)
    ensures ScalarValue(g, Wire(0)) == None && ScalarValue(g, Wire(8)) == Some(beta)
    ensures IntList(g, Wire(9)) == Some([0]) && IntList(g, Wire(10)) == Some([c as int]) && IntList(g, Wire(11)) == Some([2 * c])
    ensures IntList(g, Wire(12)) == Some([1]) && IntList(g, Wire(13)) == None
  {
  }

  lemma ChunkGated(g: Graph, shape: seq<nat>, c: nat, beta: real)
    requires g == ChunkGraph(shape, c, beta) && IsCloseToFour(beta)
    ensures MatchGate(g, ProducerMap(g.nodes), 2) == Some(ChunkGate())
  {
    hide Wire, ProducerMap, ProducerOf, ScalarValue;
    ChunkProducers(g, shape, c, beta);
    ChunkScalars(g, shape, c, beta);
    ChunkNode(shape, c, beta, 0);
    ChunkNode(shape, c, beta, 1);
    ChunkNode(shape, c, beta, 2);
  }

  lemma ChunkSliced(g: Graph, shape: seq<nat>, c: nat, beta: real)
    requires g == ChunkGraph(shape, c, beta)
    ensures MatchSlice(g, g.nodes[3]) == SliceBounds(0, c, 1, 1)
    ensures MatchSlice(g, g.nodes[4]) == SliceBounds(c, 2 * c, 1, 1)
  {
    hide Wire, IntList;
    ChunkScalars(g, shape, c, beta);
    ChunkNode(shape, c, beta, 3);
    ChunkNode(shape, c, beta, 4);
    WiresNamed(13);
  }

  lemma WiresNamed(n: nat)
    ensures Wire(n) != ""
  {
  }

  lemma ChunkConsumers(g: Graph, shape: seq<nat>, c: nat, beta: real)
    requires g == ChunkGraph(shape, c, beta)
    ensures var readers := ConsumerMap(g.nodes);
            && ConsumersOf(readers, Wire(4)) == [5] && ConsumersOf(readers, Wire(5)) == [5]
            && ConsumersOf(readers, Wire(3)) == [3, 4]
  {
    hide Wire, Readers;
    ConsumersAre(g.nodes, CHUNK_READS, 3);
    ConsumersAre(g.nodes, CHUNK_READS, 4);
    ConsumersAre(g.nodes, CHUNK_READS, 5);
    ReadersOnce(CHUNK_READS, 4, 5, 0);
    ReadersOnce(CHUNK_READS, 5, 5, 1);
    GatedReaders();
  }

  lemma GatedReaders()
    ensures Readers(CHUNK_READS, 3) == [3, 4]
  {
    var front := CHUNK_READS[..4];
    ReadersOnce(front, 3, 3, 0);
    assert CHUNK_READS[..5][..4] == front && CHUNK_READS[..6][..5] == CHUNK_READS[..5];
    assert CHUNK_READS[..7] == CHUNK_READS && CHUNK_READS[..7][..6] == CHUNK_READS[..6];
    TimesOnce(CHUNK_READS[4], 3, 4, 0);
    TimesNone(CHUNK_READS[5], 3, 5);
    TimesNone(CHUNK_READS[6], 3, 6);
    hide Times;
    assert Readers(CHUNK_READS[..5], 3) == Readers(front, 3) + Times(CHUNK_READS[4], 3, 4);
    assert Readers(CHUNK_READS[..6], 3) == Readers(CHUNK_READS[..5], 3) + Times(CHUNK_READS[5], 3, 5);
  }

  /** The matcher finds the pattern, at its Add and nowhere else. */
  lemma ChunkMatched(shape: seq<nat>, c: nat, beta: real)
    requires |shape| == 4 && shape[1] == 2 * c && IsCloseToFour(beta)
    ensures var g := ChunkGraph(shape, c, beta);
            && MatchOf(g, ChunkAdd, 5) == Some(ChunkMatch(shape))
            && forall i :: 0 <= i < 7 && i != 5 ==> MatchOf(g, ChunkAdd, i) == None
  {
    hide Wire, ProducerMap, ConsumerMap, ProducerOf, MatchGate, MatchSlice, ConsumersOf;
    var g := ChunkGraph(shape, c, beta);
    ChunkProducers(g, shape, c, beta);
    ChunkGated(g, shape, c, beta);
    ChunkSliced(g, shape, c, beta);
    ChunkConsumers(g, shape, c, beta);
    WiresApart();
  }

  /** Wire 7, the only graph output, is another name than the inner ones. */
  lemma WiresApart()
    ensures forall n: nat :: n != 7 ==> Wire(n) != Wire(7)
  {
  }

  // ----- what the rewrite makes of it -----

  function ChunkFused(): Node {
    Node(PostSigmoidChunkAdd, Wires([0, 2]), [Wire(6)])
  }

  function ChunkAfter(shape: seq<nat>, c: nat, beta: real): seq<Node> {
    var nodes := ChunkGraph(shape, c, beta).nodes; [nodes[0], nodes[1], ChunkFused(), nodes[6]]
  }

  lemma ChunkPlanned(g: Graph, shape: seq<nat>, plan: Plan)
    requires |g.nodes| == 7 && AllPlanOk(g, plan)
    requires plan == Plan(map[5 := ChunkMatch(shape)], MatchedIds(ChunkAdd, ChunkMatch(shape)))
    ensures PlanOk(g, ChunkMatch(shape))
    ensures Rewritten(g, ChunkAdd, plan, 7) == [g.nodes[0], g.nodes[1], FusedNode(g, ChunkAdd, ChunkMatch(shape)), g.nodes[6]]
  {
    hide FusedNode, Rewritten;
    assert plan.ids == {2, 3, 4, 5};
    assert Rewritten(g, ChunkAdd, plan, 0) == [] by { RewrittenNone(g, ChunkAdd, plan); }
    RewrittenStep(g, ChunkAdd, plan, 0);
    RewrittenStep(g, ChunkAdd, plan, 1);
    RewrittenStep(g, ChunkAdd, plan, 2);
    RewrittenStep(g, ChunkAdd, plan, 3);
    RewrittenStep(g, ChunkAdd, plan, 4);
    RewrittenStep(g, ChunkAdd, plan, 5);
    RewrittenStep(g, ChunkAdd, plan, 6);
  }

  lemma RewrittenNone(g: Graph, mode: Mode, plan: Plan)
    requires AllPlanOk(g, plan)
    ensures Rewritten(g, mode, plan, 0) == []
  {
  }

  lemma ChunkRewritten(shape: seq<nat>, c: nat, beta: real)
    requires |shape| == 4 && shape[1] == 2 * c && IsCloseToFour(beta)
    ensures Taken(ChunkGraph(shape, c, beta), ChunkAdd, None, None) == [ChunkMatch(shape)]
    ensures TakenNodes(ChunkGraph(shape, c, beta), ChunkAdd, None, None) == ChunkAfter(shape, c, beta)
  {
    hide MatchOf, Rewritten, Taken, PlanOf, ProducerMap, ConsumerMap;
    var g := ChunkGraph(shape, c, beta);
    ChunkMatched(shape, c, beta);
    OneTaken(g, ChunkAdd, 5);
    TakenPlanOk(g, ChunkAdd, None, None);
    ChunkPlanned(g, shape, PlanOf(ChunkAdd, Taken(g, ChunkAdd, None, None)));
    ChunkFusedIs(g, shape, c, beta);
  }

  lemma ChunkFusedIs(g: Graph, shape: seq<nat>, c: nat, beta: real)
    requires g == ChunkGraph(shape, c, beta)
    ensures FusedNode(g, ChunkAdd, ChunkMatch(shape)) == ChunkFused()
  {
    ChunkNode(shape, c, beta, 1);
    ChunkNode(shape, c, beta, 5);
  }

  // ----- what the two graphs compute -----

  /** A run: the source and the steps. */
  function ChunkStart(x: Value, c: nat, beta: real, step: int): Env {
    ChunkConstants(c, beta) + map[Wire(0) := x, Wire(13) := Ints([step])]
  }

  /** All wires, given the value y of wire 6. */
  function ChunkValues(sem: Semantics, x: Value, c: nat, beta: real, step: nat, y: Value): (values: seq<Value>)
    requires 0 < step && Image(x) && x.shape[1] == 2 * c
    ensures |values| == 14
  {
    GateData(sem, x, Beta(beta));
    var gated := MulValue(sem, x, GateOf(sem, x, Beta(beta)));
    [x, MulValue(sem, x, Beta(beta)), GateOf(sem, x, Beta(beta)), gated,
     SliceChannels(gated, 0, c, step), SliceChannels(gated, c, 2 * c, step), y, AddValue(sem, y, y),
     Beta(beta), Ints([0]), Ints([c]), Ints([2 * c]), Ints([1]), Ints([step])]
  }

  /** Wire 6 before the rewrite. */
  function Sliced(sem: Semantics, x: Value, c: nat, beta: real, step: nat): Value
    requires 0 < step && Image(x) && x.shape[1] == 2 * c
  {
    var values := ChunkValues(sem, x, c, beta, step, Missing); AddValue(sem, values[4], values[5])
  }

  lemma ChunkSlices(sem: Semantics, gated: Value, c: nat, step: nat)
    requires gated.Tensor? && |gated.shape| == 4 && gated.shape[1] == 2 * c && 0 < step
    ensures SliceValue(sem, [gated, Ints([0]), Ints([c]), Ints([1]), Ints([step])]) == SliceChannels(gated, 0, c, step)
    ensures SliceValue(sem, [gated, Ints([c]), Ints([2 * c]), Ints([1]), Ints([step])]) == SliceChannels(gated, c, 2 * c, step)
  {
    hide SliceChannels;
  }

  /** The first five nodes have their values whatever wire 6 is. */
  lemma ChunkFront(sem: Semantics, x: Value, c: nat, beta: real, step: nat, y: Value, i: nat)
    requires 0 < step && Image(x) && x.shape[1] == 2 * c && i < 7 && i != 5
    ensures Satisfies(sem, Assign(ChunkValues(sem, x, c, beta, step, y)), NodeAt(CHUNK_OPS[i], CHUNK_READS[i], i))
  {
    hide Satisfies, Assign, Wires, MulValue, SigmoidValue, SliceChannels, AddValue, SliceValue;
    var values := ChunkValues(sem, x, c, beta, step, y);
    GatedSource(sem, x, Beta(beta));
    match i {
      case 0 => Valued(sem, values, Mul, [0, 8], 0, [values[0], values[8]]);
      case 1 => Valued(sem, values, Sigmoid, [1], 1, [values[1]]);
      case 2 => Valued(sem, values, Mul, [0, 2], 2, [values[0], values[2]]);
      case 3 =>
        ChunkSlices(sem, values[3], c, step);
        Valued(sem, values, Slice, [3, 9, 10, 12, 13], 3, [values[3], values[9], values[10], values[12], values[13]]);
      case 4 =>
        ChunkSlices(sem, values[3], c, step);
        Valued(sem, values, Slice, [3, 10, 11, 12, 13], 4, [values[3], values[10], values[11], values[12], values[13]]);
      case 6 => Valued(sem, values, Add, [6, 6], 6, [values[6], values[6]]);
    }
  }

  lemma ExtendsOne(v: Env, name: Name, value: Value)
    requires name in v && v[name] == value
    ensures Extends(v, map[name := value])
  {
  }

  lemma ExtendsBoth(v: Env, a: Env, b: Env)
    requires Extends(v, a) && Extends(v, b)
    ensures Extends(v, a + b)
  {
  }

  lemma ChunkConstantsAssigned(v: Env, c: nat, beta: real)
    requires forall n :: n in {8, 9, 10, 11, 12} ==> Wire(n) in v
    requires v[Wire(8)] == Beta(beta) && v[Wire(9)] == Ints([0]) && v[Wire(10)] == Ints([c]) && v[Wire(11)] == Ints([2 * c])
    requires v[Wire(12)] == Ints([1])
    ensures Extends(v, ChunkConstants(c, beta))
  {
    hide Wire;
  }

  lemma ChunkStartAssigned(sem: Semantics, x: Value, c: nat, beta: real, step: nat, y: Value)
    requires 0 < step && Image(x) && x.shape[1] == 2 * c
    ensures Extends(Assign(ChunkValues(sem, x, c, beta, step, y)), ChunkStart(x, c, beta, step))
  {
    hide Wire, ChunkConstants, Extends, MulValue, GateOf, SliceChannels, AddValue, Beta, Image;
    var values := ChunkValues(sem, x, c, beta, step, y);
    var v := Assign(values);
    assert v[Wire(0)] == values[0] && v[Wire(13)] == values[13];
    assert v[Wire(8)] == values[8] && v[Wire(9)] == values[9] && v[Wire(10)] == values[10];
    assert v[Wire(11)] == values[11] && v[Wire(12)] == values[12];
    ChunkConstantsAssigned(v, c, beta);
    ExtendsOne(v, Wire(0), x);
    ExtendsOne(v, Wire(13), Ints([step]));
    ExtendsBoth(v, map[Wire(0) := x], map[Wire(13) := Ints([step])]);
    assert map[Wire(0) := x] + map[Wire(13) := Ints([step])] == map[Wire(0) := x, Wire(13) := Ints([step])];
    ExtendsBoth(v, ChunkConstants(c, beta), map[Wire(0) := x, Wire(13) := Ints([step])]);
  }

  lemma ChunkStarts(x: Value, c: nat, beta: real, step: nat)
    requires Image(x)
    ensures ChunkStart(x, c, beta, step).Keys == Base(ChunkGraph(x.shape, c, beta))
    ensures StartOf(ChunkGraph(x.shape, c, beta), ChunkStart(x, c, beta, step))
    ensures Wire(0) in ChunkStart(x, c, beta, step) && ChunkStart(x, c, beta, step)[Wire(0)] == x
  {
    hide Wire, ChunkConstants;
    WiresDiffer(0, 13);
    ChunkBase(x.shape, c, beta, 0);
    ChunkBase(x.shape, c, beta, 13);
    var env := ChunkStart(x, c, beta, step);
    forall name | name in ChunkConstants(c, beta) ensures name in env && env[name] == ChunkConstants(c, beta)[name] {
    }
  }

  lemma WiresDiffer(a: nat, b: nat)
    requires a != b
    ensures Wire(a) != Wire(b)
  {
  }

  lemma ChunkSatisfied(sem: Semantics, x: Value, c: nat, beta: real, step: nat, i: nat)
    requires 0 < step && Image(x) && x.shape[1] == 2 * c && i < 7
    ensures Satisfies(sem, Assign(ChunkValues(sem, x, c, beta, step, Sliced(sem, x, c, beta, step))),
                      ChunkGraph(x.shape, c, beta).nodes[i])
  {
    hide Satisfies, Assign, Wires, MulValue, GateOf, SliceChannels, AddValue, Wire;
    var y := Sliced(sem, x, c, beta, step);
    var values := ChunkValues(sem, x, c, beta, step, y);
    ChunkNode(x.shape, c, beta, i);
    if i == 5 {
      Valued(sem, values, Add, [4, 5], 5, [values[4], values[5]]);
    } else {
      ChunkFront(sem, x, c, beta, step, y, i);
    }
  }

  lemma ChunkWires(sem: Semantics, x: Value, c: nat, beta: real, step: nat, y: Value)
    requires 0 < step && Image(x) && x.shape[1] == 2 * c
    ensures var v := Assign(ChunkValues(sem, x, c, beta, step, y)); Wire(7) in v && v[Wire(7)] == AddValue(sem, y, y)
  {
    var values := ChunkValues(sem, x, c, beta, step, y);
    assert Assign(values)[Wire(7)] == values[7];
  }

  lemma ChunkBefore(sem: Semantics, x: Value, c: nat, beta: real, step: nat)
    requires 0 < step && Image(x) && x.shape[1] == 2 * c
    ensures var v := Eval(sem, ChunkStart(x, c, beta, step), ChunkGraph(x.shape, c, beta).nodes);
            var y := Sliced(sem, x, c, beta, step);
            && ShapesHold(ChunkGraph(x.shape, c, beta), v)
            && Wire(7) in v && v[Wire(7)] == AddValue(sem, y, y)
  {
    hide Satisfies, Assign, Ordered, Numbered, Eval, AddValue, AllOutputs, Wire, ChunkValues, Sliced, ChunkStart, Base, StartOf;
    var g, env := ChunkGraph(x.shape, c, beta), ChunkStart(x, c, beta, step);
    var y := Sliced(sem, x, c, beta, step);
    ChunkNumbered(x.shape, c, beta);
    NumberedOrdered(g.nodes, Base(g), CHUNK_READS);
    ChunkStarts(x, c, beta, step);
    ChunkStartAssigned(sem, x, c, beta, step, y);
    forall i | 0 <= i < 7 ensures Satisfies(sem, Assign(ChunkValues(sem, x, c, beta, step, y)), g.nodes[i]) {
      ChunkSatisfied(sem, x, c, beta, step, i);
    }
    RunsTo(sem, env, g.nodes, ChunkValues(sem, x, c, beta, step, y));
    ChunkNode(x.shape, c, beta, 6);
    DefinedBy(g.nodes, 6, 7);
    ChunkWires(sem, x, c, beta, step, y);
  }

  lemma ChunkAfterSatisfied(sem: Semantics, x: Value, c: nat, beta: real, step: nat, i: nat)
    requires 0 < step && Image(x) && x.shape[1] == 2 * c && i < 4
    ensures Satisfies(sem, Assign(ChunkValues(sem, x, c, beta, step, Fused(sem, x, Beta(beta)))),
                      ChunkAfter(x.shape, c, beta)[i])
  {
    hide Satisfies, Assign, MulValue, GateOf, SliceChannels, AddValue, Wire, ChunkAddKernel;
    var y := Fused(sem, x, Beta(beta));
    var values := ChunkValues(sem, x, c, beta, step, y);
    if i == 2 {
      Valued(sem, values, PostSigmoidChunkAdd, [0, 2], 5, [values[0], values[2]]);
    } else {
      var at := if i == 3 then 6 else i;
      ChunkNode(x.shape, c, beta, at);
      ChunkFront(sem, x, c, beta, step, y, at);
    }
  }

  lemma ChunkAfterwards(sem: Semantics, x: Value, c: nat, beta: real, step: nat)
    requires 0 < step && Image(x) && x.shape[1] == 2 * c && IsCloseToFour(beta)
    ensures var v := Eval(sem, ChunkStart(x, c, beta, step), TakenNodes(ChunkGraph(x.shape, c, beta), ChunkAdd, None, None));
            var y := Fused(sem, x, Beta(beta));
            Wire(7) in v && v[Wire(7)] == AddValue(sem, y, y)
  {
    hide Satisfies, Assign, Ordered, Eval, AddValue, AllOutputs, Wire, ChunkValues, Fused, ChunkStart, Base, StartOf,
         TakenNodes, Taken, Extends;
    var env := ChunkStart(x, c, beta, step);
    var y := Fused(sem, x, Beta(beta));
    ChunkRewritten(x.shape, c, beta);
    var nodes := ChunkAfter(x.shape, c, beta);
    ChunkAfterOrdered(x.shape, c, beta);
    ChunkStarts(x, c, beta, step);
    ChunkStartAssigned(sem, x, c, beta, step, y);
    forall i | 0 <= i < 4 ensures Satisfies(sem, Assign(ChunkValues(sem, x, c, beta, step, y)), nodes[i]) {
      ChunkAfterSatisfied(sem, x, c, beta, step, i);
    }
    RunsTo(sem, env, nodes, ChunkValues(sem, x, c, beta, step, y));
    ChunkNode(x.shape, c, beta, 6);
    DefinedBy(nodes, 3, 7);
    ChunkWires(sem, x, c, beta, step, y);
    ExtendsAt(Assign(ChunkValues(sem, x, c, beta, step, y)), Eval(sem, env, nodes), Wire(7));
  }

  lemma ExtendsAt(v: Env, env: Env, name: Name)
    requires Extends(v, env) && name in env
    ensures name in v && v[name] == env[name]
  {
  }

  lemma ChunkAfterOrdered(shape: seq<nat>, c: nat, beta: real)
    requires |shape| == 4 && shape[1] == 2 * c && IsCloseToFour(beta)
    ensures Ordered(Base(ChunkGraph(shape, c, beta)), ChunkAfter(shape, c, beta))
  {
    hide WellFormed, Ordered, ValidPlan, Rewritten, Taken, PlanOf;
    var g := ChunkGraph(shape, c, beta);
    ChunkWellFormed(shape, c, beta);
    ChunkRewritten(shape, c, beta);
    TakenIsValid(g, ChunkAdd, None, None);
    RewrittenOrdered(g, ChunkAdd, PlanOf(ChunkAdd, Taken(g, ChunkAdd, None, None)), 7);
  }

  // ----- the boundary -----

  /** The graph output in a run, before and after the rewrite. */
  function Before(sem: Semantics, x: Value, c: nat, beta: real, step: nat): Value
    requires Image(x)
  {
    Lookup(Eval(sem, ChunkStart(x, c, beta, step), ChunkGraph(x.shape, c, beta).nodes), Wire(7))
  }

  function Afterwards(sem: Semantics, x: Value, c: nat, beta: real, step: nat): Value
    requires Image(x)
  {
    Lookup(Eval(sem, ChunkStart(x, c, beta, step), TakenNodes(ChunkGraph(x.shape, c, beta), ChunkAdd, None, None)), Wire(7))
  }

  lemma DoubleApart(sem: Semantics, a: Value, b: Value)
    requires a.Tensor? && b.Tensor?
    ensures AddValue(sem, a, a) == AddValue(sem, b, b) <==> a == b
  {
    var x, y := AddValue(sem, a, a), AddValue(sem, b, b);
    if x == y {
      forall i | 0 <= i < |a.data| ensures a.data[i] == b.data[i] {
        assert x.data[i] == a.data[i] + a.data[i] && y.data[i] == b.data[i] + b.data[i];
      }
      assert a.data == b.data;
    }
  }

  /** The output changes exactly when the fused value differs from the sliced one. */
  lemma OutputsDiffer(sem: Semantics, x: Value, c: nat, beta: real, step: nat)
    requires 0 < step && Image(x) && x.shape[1] == 2 * c && IsCloseToFour(beta)
    requires |x.data| / 2 <= MAX_ELEMENTS
    ensures Before(sem, x, c, beta, step) == Afterwards(sem, x, c, beta, step)
       <==> Fused(sem, x, Beta(beta)) == Sliced(sem, x, c, beta, step)
  {
    hide AddValue, GateOf, SliceChannels, Eval, TakenNodes, MulValue;
    ChunkBefore(sem, x, c, beta, step);
    ChunkAfterwards(sem, x, c, beta, step);
    WiresNamed(7);
    BothTensors(sem, x, c, beta, step);
    DoubleApart(sem, Fused(sem, x, Beta(beta)), Sliced(sem, x, c, beta, step));
  }

  lemma BothTensors(sem: Semantics, x: Value, c: nat, beta: real, step: nat)
    requires 0 < step && Image(x) && x.shape[1] == 2 * c && |x.data| / 2 <= MAX_ELEMENTS
    ensures Fused(sem, x, Beta(beta)).Tensor? && Sliced(sem, x, c, beta, step).Tensor?
  {
    GateData(sem, x, Beta(beta));
    ProductOfFour(x.shape);
    var rest := x.shape[2] * x.shape[3];
    assert |x.data| == 2 * (x.shape[0] * (c * rest)) by {
      assert 2 * c * rest == 2 * (c * rest);
      assert x.shape[0] * (2 * (c * rest)) == 2 * (x.shape[0] * (c * rest));
    }
    assert 2 * c - c == c;
  }

  /** Batches: the matcher takes the pattern in every batch, the graph is well formed and shape inference is
      right, and all outputs are kept if and only if the batch is one. */
  lemma BatchBoundary(sem: Semantics, shape: seq<nat>, c: nat, beta: real)
    requires |shape| == 4 && shape[1] == 2 * c && 0 < Product(shape) && Product(shape) / 2 <= MAX_ELEMENTS
    requires IsCloseToFour(beta) && sem.sigmoid(beta) != 0.0
    ensures WellFormed(ChunkGraph(shape, c, beta))
    ensures Taken(ChunkGraph(shape, c, beta), ChunkAdd, None, None) == [ChunkMatch(shape)]
    ensures forall x :: Image(x) && x.shape == shape ==>
              && StartOf(ChunkGraph(shape, c, beta), ChunkStart(x, c, beta, 1))
              && ShapesHold(ChunkGraph(shape, c, beta), Eval(sem, ChunkStart(x, c, beta, 1), ChunkGraph(shape, c, beta).nodes))
    ensures (forall x :: Image(x) && x.shape == shape ==> Before(sem, x, c, beta, 1) == Afterwards(sem, x, c, beta, 1))
            <==> shape[0] == 1
  {
    hide WellFormed, Taken, StartOf, ShapesHold, Eval, Before, Afterwards, Product, ChunkStart, GateOf, ChunkGraph;
    ChunkWellFormed(shape, c, beta);
    ChunkRewritten(shape, c, beta);
    forall x | Image(x) && x.shape == shape
      ensures StartOf(ChunkGraph(shape, c, beta), ChunkStart(x, c, beta, 1))
      ensures ShapesHold(ChunkGraph(shape, c, beta), Eval(sem, ChunkStart(x, c, beta, 1), ChunkGraph(shape, c, beta).nodes))
      ensures Before(sem, x, c, beta, 1) == Afterwards(sem, x, c, beta, 1)
         <==> Fused(sem, x, Beta(beta)) == Unfused(sem, x, Beta(beta), c)
    {
      ChunkStarts(x, c, beta, 1);
      ChunkBefore(sem, x, c, beta, 1);
      OutputsDiffer(sem, x, c, beta, 1);
      SlicedIsUnfused(sem, x, c, beta);
    }
    ChunkAddExactlyForBatchOne(sem, shape, c, Beta(beta));
  }

  lemma SlicedIsUnfused(sem: Semantics, x: Value, c: nat, beta: real)
    requires Image(x) && x.shape[1] == 2 * c
    ensures Sliced(sem, x, c, beta, 1) == Unfused(sem, x, Beta(beta), c)
  {
  }

  /** Run-time steps, in a batch of one: in every run the output is kept if and only if the steps are 1 or a
      half is a single channel. */
  lemma StepBoundary(sem: Semantics, x: Value, c: nat, beta: real, step: nat)
    requires Image(x) && x.shape[0] == 1 && x.shape[1] == 2 * c && |x.data| / 2 <= MAX_ELEMENTS
    requires IsCloseToFour(beta) && 0 < step && 0 < c
    ensures WellFormed(ChunkGraph(x.shape, c, beta))
    ensures Taken(ChunkGraph(x.shape, c, beta), ChunkAdd, None, None) == [ChunkMatch(x.shape)]
    ensures Before(sem, x, c, beta, step) == Afterwards(sem, x, c, beta, step) <==> step == 1 || c == 1
  {
    hide WellFormed, Taken, Before, Afterwards, GateOf, SliceChannels, ChunkAddKernel;
    ChunkWellFormed(x.shape, c, beta);
    ChunkRewritten(x.shape, c, beta);
    OutputsDiffer(sem, x, c, beta, step);
    GateData(sem, x, Beta(beta));
    ChunkAddExactlyForUnitSteps(sem, x, GateOf(sem, x, Beta(beta)), c, step);
  }

  // ----- the scaled SiLU pattern -----

  const SILU_OPS: seq<Op> := [Mul, Sigmoid, Mul, Conv(0)]

  const SILU_READS: seq<seq<nat>> := [[0, 8], [1], [0, 2], [3]]

  /** Wire 4 is a convolution of x * sigmoid(beta * x). */
  function SiLUGraph(shape: seq<nat>, beta: real): Graph {
    Graph(NodesOf(SILU_OPS, SILU_READS), map[Wire(8) := Beta(beta)], {Wire(0)}, {Wire(4)}, map[Wire(0) := shape], map[])
  }

  lemma SiLUNode(shape: seq<nat>, beta: real, i: nat)
    requires i < 4
    ensures |SiLUGraph(shape, beta).nodes| == 4
    ensures SiLUGraph(shape, beta).nodes[i] == NodeAt(SILU_OPS[i], SILU_READS[i], i)
  {
  }

  lemma SiLUNumbered(shape: seq<nat>, beta: real)
    ensures var g := SiLUGraph(shape, beta); Numbered(g.nodes, Base(g), SILU_READS)
  {
    hide Wire;
    var g := SiLUGraph(shape, beta);
    forall n: nat ensures Wire(n) in Base(g) <==> n in {0, 8} {}
  }

  lemma SiLUWellFormed(shape: seq<nat>, beta: real)
    ensures WellFormed(SiLUGraph(shape, beta))
  {
    hide Ordered, Numbered, AllOutputs;
    var g := SiLUGraph(shape, beta);
    SiLUNumbered(shape, beta);
    NumberedOrdered(g.nodes, Base(g), SILU_READS);
    SiLUNode(shape, beta, 3);
    DefinedBy(g.nodes, 3, 4);
    forall i | 0 <= i < 4 ensures SingleOutput(g.nodes[i]) { SiLUNode(shape, beta, i); }
  }

  function SiLUMatch(shape: seq<nat>): Match {
    Match(ChunkGate(), 2, [], shape)
  }

  lemma SiLUGated(g: Graph, shape: seq<nat>, beta: real)
    requires g == SiLUGraph(shape, beta) && IsCloseToFour(beta)
    ensures MatchGate(g, ProducerMap(g.nodes), 2) == Some(ChunkGate()) && MatchGate(g, ProducerMap(g.nodes), 0) == None
  {
    hide Wire, ProducerMap, Numbered;
    SiLUNumbered(shape, beta);
    NumberedProducers(g.nodes, Base(g), SILU_READS, 0);
    NumberedProducers(g.nodes, Base(g), SILU_READS, 1);
    NumberedProducers(g.nodes, Base(g), SILU_READS, 2);
    NumberedProducers(g.nodes, Base(g), SILU_READS, 8);
    SiLUNode(shape, beta, 0);
    SiLUNode(shape, beta, 1);
    SiLUNode(shape, beta, 2);
  }

  lemma SiLUConsumers(g: Graph, shape: seq<nat>, beta: real)
    requires g == SiLUGraph(shape, beta)
    ensures var readers := ConsumerMap(g.nodes);
            && ConsumersOf(readers, Wire(1)) == [1] && ConsumersOf(readers, Wire(2)) == [2] && ConsumersOf(readers, Wire(3)) == [3]
  {
    hide Wire, Readers;
    ConsumersAre(g.nodes, SILU_READS, 1);
    ConsumersAre(g.nodes, SILU_READS, 2);
    ConsumersAre(g.nodes, SILU_READS, 3);
    ReadersOnce(SILU_READS, 1, 1, 0);
    ReadersOnce(SILU_READS, 2, 2, 1);
    ReadersOnce(SILU_READS, 3, 3, 0);
  }

  lemma SiLUMatched(shape: seq<nat>, beta: real)
    requires |shape| == 4 && IsCloseToFour(beta)
    ensures var g := SiLUGraph(shape, beta);
            && MatchOf(g, ScaledSiLU, 2) == Some(SiLUMatch(shape))
            && forall i :: 0 <= i < 4 && i != 2 ==> MatchOf(g, ScaledSiLU, i) == None
  {
    hide Wire, ProducerMap, ConsumerMap, MatchGate, ConsumersOf;
    var g := SiLUGraph(shape, beta);
    SiLUGated(g, shape, beta);
    SiLUConsumers(g, shape, beta);
    WiresDiffer(1, 4);
    WiresDiffer(2, 4);
    WiresDiffer(3, 4);
  }

  function SiLUFused(): Node {
    Node(ScaledSiLUMul, Wires([0]), [Wire(3)])
  }

  lemma SiLURewritten(shape: seq<nat>, beta: real)
    requires |shape| == 4 && IsCloseToFour(beta)
    ensures Taken(SiLUGraph(shape, beta), ScaledSiLU, None, None) == [SiLUMatch(shape)]
    ensures TakenNodes(SiLUGraph(shape, beta), ScaledSiLU, None, None) == [SiLUFused(), SiLUGraph(shape, beta).nodes[3]]
  {
    hide MatchOf, Rewritten, Taken, PlanOf, ProducerMap, ConsumerMap;
    var g := SiLUGraph(shape, beta);
    SiLUMatched(shape, beta);
    OneTaken(g, ScaledSiLU, 2);
    TakenPlanOk(g, ScaledSiLU, None, None);
    SiLUPlanned(g, shape, PlanOf(ScaledSiLU, Taken(g, ScaledSiLU, None, None)));
    SiLUNode(shape, beta, 2);
    assert Wires([0]) == [Wire(0)];
  }

  lemma SiLUPlanned(g: Graph, shape: seq<nat>, plan: Plan)
    requires |g.nodes| == 4 && AllPlanOk(g, plan)
    requires plan == Plan(map[2 := SiLUMatch(shape)], MatchedIds(ScaledSiLU, SiLUMatch(shape)))
    ensures PlanOk(g, SiLUMatch(shape))
    ensures Rewritten(g, ScaledSiLU, plan, 4) == [FusedNode(g, ScaledSiLU, SiLUMatch(shape)), g.nodes[3]]
  {
    hide FusedNode, Rewritten;
    assert plan.ids == {0, 1, 2};
    RewrittenNone(g, ScaledSiLU, plan);
    RewrittenStep(g, ScaledSiLU, plan, 0);
    RewrittenStep(g, ScaledSiLU, plan, 1);
    RewrittenStep(g, ScaledSiLU, plan, 2);
    RewrittenStep(g, ScaledSiLU, plan, 3);
  }

  function SiLUStart(x: Value, beta: real): Env {
    map[Wire(8) := Beta(beta), Wire(0) := x]
  }

  /** What convolution 0 gives for one input. */
  function Convolved(sem: Semantics, v: Value): Value {
    First(sem.other(Conv(0), [v]))
  }

  /** All wires, given the value y of wire 3; those in the gap are not used. */
  function SiLUValues(sem: Semantics, x: Value, beta: real, y: Value): (values: seq<Value>)
    ensures |values| == 9
  {
    [x, MulValue(sem, x, Beta(beta)), GateOf(sem, x, Beta(beta)), y, Convolved(sem, y), Missing, Missing, Missing, Beta(beta)]
  }

  lemma SiLUStarts(sem: Semantics, x: Value, beta: real, y: Value)
    requires Image(x)
    ensures Extends(Assign(SiLUValues(sem, x, beta, y)), SiLUStart(x, beta))
    ensures SiLUStart(x, beta).Keys == Base(SiLUGraph(x.shape, beta))
    ensures StartOf(SiLUGraph(x.shape, beta), SiLUStart(x, beta))
    ensures Wire(0) in SiLUStart(x, beta) && SiLUStart(x, beta)[Wire(0)] == x
  {
    hide Wire, MulValue, GateOf, Beta, Image;
    var values := SiLUValues(sem, x, beta, y);
    assert Assign(values)[Wire(0)] == values[0] && Assign(values)[Wire(8)] == values[8];
    WiresDiffer(0, 8);
  }

  lemma SiLUSatisfied(sem: Semantics, x: Value, beta: real, y: Value, i: nat)
    requires Image(x) && i < 4 && (i == 2 ==> y == SiLUReference(sem, x, Beta(beta)))
    ensures Satisfies(sem, Assign(SiLUValues(sem, x, beta, y)), NodeAt(SILU_OPS[i], SILU_READS[i], i))
  {
    hide Satisfies, Assign, Wires, MulValue, SigmoidValue, Wire;
    var values := SiLUValues(sem, x, beta, y);
    match i {
      case 0 => Valued(sem, values, Mul, [0, 8], 0, [values[0], values[8]]);
      case 1 => Valued(sem, values, Sigmoid, [1], 1, [values[1]]);
      case 2 => Valued(sem, values, Mul, [0, 2], 2, [values[0], values[2]]);
      case 3 => Valued(sem, values, Conv(0), [3], 3, [values[3]]);
    }
  }

  lemma SiLUFusedSatisfied(sem: Semantics, x: Value, beta: real)
    ensures Satisfies(sem, Assign(SiLUValues(sem, x, beta, SiLUKernel(sem, x))), SiLUFused())
  {
    hide Satisfies, Assign, MulValue, GateOf, Wire, SiLUKernel;
    var values := SiLUValues(sem, x, beta, SiLUKernel(sem, x));
    Valued(sem, values, ScaledSiLUMul, [0], 2, [values[0]]);
  }

  lemma SiLUWires(sem: Semantics, x: Value, beta: real, y: Value)
    ensures var v := Assign(SiLUValues(sem, x, beta, y)); Wire(4) in v && v[Wire(4)] == Convolved(sem, y)
  {
    var values := SiLUValues(sem, x, beta, y);
    assert Assign(values)[Wire(4)] == values[4];
  }

  lemma SiLUBefore(sem: Semantics, x: Value, beta: real)
    requires Image(x)
    ensures var v := Eval(sem, SiLUStart(x, beta), SiLUGraph(x.shape, beta).nodes);
            && ShapesHold(SiLUGraph(x.shape, beta), v)
            && Wire(4) in v && v[Wire(4)] == Convolved(sem, SiLUReference(sem, x, Beta(beta)))
  {
    hide Satisfies, Assign, Ordered, Numbered, Eval, AllOutputs, Wire, SiLUValues, SiLUStart, Base, StartOf, SiLUReference;
    var g, env := SiLUGraph(x.shape, beta), SiLUStart(x, beta);
    var y := SiLUReference(sem, x, Beta(beta));
    SiLUNumbered(x.shape, beta);
    NumberedOrdered(g.nodes, Base(g), SILU_READS);
    SiLUStarts(sem, x, beta, y);
    forall i | 0 <= i < 4 ensures Satisfies(sem, Assign(SiLUValues(sem, x, beta, y)), g.nodes[i]) {
      SiLUNode(x.shape, beta, i);
      SiLUSatisfied(sem, x, beta, y, i);
    }
    RunsTo(sem, env, g.nodes, SiLUValues(sem, x, beta, y));
    SiLUNode(x.shape, beta, 3);
    DefinedBy(g.nodes, 3, 4);
    SiLUWires(sem, x, beta, y);
  }

  lemma SiLUAfterOrdered(shape: seq<nat>, beta: real)
    requires |shape| == 4 && IsCloseToFour(beta)
    ensures Ordered(Base(SiLUGraph(shape, beta)), [SiLUFused(), SiLUGraph(shape, beta).nodes[3]])
  {
    hide WellFormed, Ordered, ValidPlan, Rewritten, Taken, PlanOf;
    var g := SiLUGraph(shape, beta);
    SiLUWellFormed(shape, beta);
    SiLURewritten(shape, beta);
    TakenIsValid(g, ScaledSiLU, None, None);
    RewrittenOrdered(g, ScaledSiLU, PlanOf(ScaledSiLU, Taken(g, ScaledSiLU, None, None)), 4);
  }

  lemma SiLUAfterwards(sem: Semantics, x: Value, beta: real)
    requires Image(x) && IsCloseToFour(beta)
    ensures var v := Eval(sem, SiLUStart(x, beta), TakenNodes(SiLUGraph(x.shape, beta), ScaledSiLU, None, None));
            Wire(4) in v && v[Wire(4)] == Convolved(sem, SiLUKernel(sem, x))
  {
    hide Satisfies, Assign, Ordered, Eval, AllOutputs, Wire, SiLUValues, SiLUStart, Base, StartOf, SiLUKernel, TakenNodes,
         Taken, Extends;
    var env := SiLUStart(x, beta);
    var y := SiLUKernel(sem, x);
    var values := SiLUValues(sem, x, beta, y);
    SiLURewritten(x.shape, beta);
    SiLUAfterOrdered(x.shape, beta);
    SiLUNode(x.shape, beta, 3);
    var nodes := [SiLUFused(), SiLUGraph(x.shape, beta).nodes[3]];
    SiLUStarts(sem, x, beta, y);
    SiLUFusedSatisfied(sem, x, beta);
    SiLUSatisfied(sem, x, beta, y, 3);
    RunsTo(sem, env, nodes, values);
    DefinedBy(nodes, 1, 4);
    SiLUWires(sem, x, beta, y);
    ExtendsAt(Assign(values), Eval(sem, env, nodes), Wire(4));
  }

  /** The factor: the matcher takes the pattern for every factor within 1e-6 of 4, the graph is well formed and
      shape inference is right.  Behind a convolution that loses nothing, all outputs are kept if and only if
      the factor is 4. */
  lemma FactorBoundary(sem: Semantics, shape: seq<nat>, beta: real)
    requires |shape| == 4 && 0 < Product(shape) <= MAX_ELEMENTS && IsCloseToFour(beta)
    requires Injective(sem.sigmoid, beta, 4.0)
    requires forall a, b :: Convolved(sem, a) == Convolved(sem, b) ==> a == b
    ensures WellFormed(SiLUGraph(shape, beta))
    ensures Taken(SiLUGraph(shape, beta), ScaledSiLU, None, None) == [SiLUMatch(shape)]
    ensures forall x :: Image(x) && x.shape == shape ==>
              && StartOf(SiLUGraph(shape, beta), SiLUStart(x, beta))
              && ShapesHold(SiLUGraph(shape, beta), Eval(sem, SiLUStart(x, beta), SiLUGraph(shape, beta).nodes))
    ensures (forall x :: Image(x) && x.shape == shape ==> SiLUKept(sem, x, beta)) <==> beta == 4.0
  {
    hide WellFormed, Taken, StartOf, ShapesHold, Eval, SiLUKept, Product, SiLUStart, SiLUGraph, SiLUKernel, SiLUReference;
    SiLUWellFormed(shape, beta);
    SiLURewritten(shape, beta);
    forall x | Image(x) && x.shape == shape
      ensures StartOf(SiLUGraph(shape, beta), SiLUStart(x, beta))
      ensures ShapesHold(SiLUGraph(shape, beta), Eval(sem, SiLUStart(x, beta), SiLUGraph(shape, beta).nodes))
      ensures SiLUKept(sem, x, beta) <==> SiLUKernel(sem, x) == SiLUReference(sem, x, Beta(beta))
    {
      SiLUStarts(sem, x, beta, Missing);
      SiLUBefore(sem, x, beta);
      SiLUKeptIs(sem, x, beta);
    }
    SiLUExactlyForFour(sem, shape, Beta(beta));
  }

  /** The graph output has the same value before and after. */
  predicate SiLUKept(sem: Semantics, x: Value, beta: real)
    requires Image(x)
  {
    Lookup(Eval(sem, SiLUStart(x, beta), SiLUGraph(x.shape, beta).nodes), Wire(4))
    == Lookup(Eval(sem, SiLUStart(x, beta), TakenNodes(SiLUGraph(x.shape, beta), ScaledSiLU, None, None)), Wire(4))
  }

  lemma SiLUKeptIs(sem: Semantics, x: Value, beta: real)
    requires Image(x) && IsCloseToFour(beta) && forall a, b :: Convolved(sem, a) == Convolved(sem, b) ==> a == b
    ensures SiLUKept(sem, x, beta) <==> SiLUKernel(sem, x) == SiLUReference(sem, x, Beta(beta))
  {
    hide Eval, TakenNodes, SiLUKernel, SiLUReference, Convolved, SiLUGraph, SiLUStart;
    SiLUBefore(sem, x, beta);
    SiLUAfterwards(sem, x, beta);
    WiresNamed(4);
  }
}
