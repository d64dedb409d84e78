/** rewrite_model as a whole: which matches it takes, that they never overlap, and that the graph it
    returns is ordered and computes the same values. */
module OnnxCorrect {
  import opened Options
  import opened Tensors
  import opened OnnxGraph
  import opened OnnxRewrite
  import opened OnnxPreserve

  // ----- plans -----

  /** Every entry is the match found at its node, and ids are exactly the matched nodes. */
  ghost predicate ValidPlan(g: Graph, mode: Mode, plan: Plan) {
    && (forall i :: i in plan.replacement ==> i < |g.nodes| && MatchOf(g, mode, i) == Some(plan.replacement[i]))
    && (forall i, j :: i in plan.replacement && j in MatchedIds(mode, plan.replacement[i]) ==> j in plan.ids)
    && (forall j :: j in plan.ids ==> MatchedBy(mode, plan, j))
  }

  ghost predicate MatchedBy(mode: Mode, plan: Plan, j: nat) {
    exists i :: i in plan.replacement && j in MatchedIds(mode, plan.replacement[i])
  }

  predicate Gone(plan: Plan, j: nat) {
    j in plan.ids && j !in plan.replacement
  }

  function Emitted(g: Graph, mode: Mode, plan: Plan, j: nat): Node
    requires j < |g.nodes| && (j in plan.replacement ==> PlanOk(g, plan.replacement[j]))
  {
    if j in plan.replacement then FusedNode(g, mode, plan.replacement[j]) else g.nodes[j]
  }

  lemma MatchFound(g: Graph, mode: Mode, i: nat, m: Match)
    requires i < |g.nodes| && MatchOf(g, mode, i) == Some(m)
    ensures m.replaced == i && PlanOk(g, m)
  {
    hide MatchGate, Halves, MatchSlice, ImageShape, OnlyConsumer, ProducerMap, ConsumerMap;
    GateInGraph(g);
  }

  lemma GateInGraph(g: Graph)
    ensures forall mul :: 0 <= mul < |g.nodes| && MatchGate(g, ProducerMap(g.nodes), mul).Some? ==>
              MatchGate(g, ProducerMap(g.nodes), mul).value.sigmoid < |g.nodes|
  {
    hide ProducerMap;
  }

  lemma PlanIsOk(g: Graph, mode: Mode, plan: Plan)
    requires ValidPlan(g, mode, plan)
    ensures forall i :: i in plan.replacement ==> PlanOk(g, plan.replacement[i]) && plan.replacement[i].replaced == i
  {
    forall i | i in plan.replacement ensures PlanOk(g, plan.replacement[i]) && plan.replacement[i].replaced == i {
      MatchFound(g, mode, i, plan.replacement[i]);
    }
  }

  // ----- nothing that survives reads a deleted value -----

  /** A deleted node has one output, no graph output, and is read only inside its own match. */
  ghost predicate Vanishes(g: Graph, mode: Mode, m: Match, k: nat)
    requires PlanOk(g, m)
  {
    && k < |g.nodes| && SingleOutput(g.nodes[k]) && Output(g, k) !in g.outputs
    && ReadOnlyBy(g, Output(g, k), {m.replaced} + (set j | j in MatchedIds(mode, m) && j < |g.nodes| && Inner(g.nodes[j].op)))
    && (mode == ScaledSiLU ==> g.nodes[k].op == Mul || g.nodes[k].op == Sigmoid)
    && (mode != ScaledSiLU ==> g.nodes[k].op == Mul || g.nodes[k].op == Slice)
  }

  predicate Inner(op: Op) {
    op == Slice || op == Sigmoid
  }

  lemma ChunkVanishes(g: Graph, m: Match, k: nat)
    requires WellFormed(g) && MatchShape(g, ChunkAdd, m) && k in MatchedIds(ChunkAdd, m) && k != m.replaced
    ensures Vanishes(g, ChunkAdd, m, k)
  {
    hide WellFormed, ImageShape, Halves, MatchSlice, ReadOnlyBy;
    assert m.slices == [m.slices[0], m.slices[1]];
    var readers := {m.replaced} + (set j | j in MatchedIds(ChunkAdd, m) && j < |g.nodes| && Inner(g.nodes[j].op));
    if k == m.gate.mul {
      assert m.slices[0] in readers && m.slices[1] in readers;
      MoreReaders(g, Output(g, k), {m.slices[0], m.slices[1]}, readers);
    } else {
      assert k in m.slices && (k == m.slices[0] || k == m.slices[1]);
      MoreReaders(g, Output(g, k), {m.replaced}, readers);
    }
  }

  lemma MoreReaders(g: Graph, name: Name, readers: set<nat>, more: set<nat>)
    requires ReadOnlyBy(g, name, readers) && readers <= more
    ensures ReadOnlyBy(g, name, more)
  {
  }

  lemma SiLUVanishes(g: Graph, m: Match, k: nat)
    requires WellFormed(g) && MatchShape(g, ScaledSiLU, m) && k in MatchedIds(ScaledSiLU, m) && k != m.replaced
    ensures Vanishes(g, ScaledSiLU, m, k)
  {
  }

  lemma GoneVanishes(g: Graph, mode: Mode, plan: Plan, k: nat) returns (i: nat)
    requires WellFormed(g) && ValidPlan(g, mode, plan) && Gone(plan, k)
    ensures mode != SigmoidMul && i in plan.replacement && i < |g.nodes|
    ensures MatchOf(g, mode, i) == Some(plan.replacement[i]) && PlanOk(g, plan.replacement[i])
    ensures plan.replacement[i].replaced == i && k in MatchedIds(mode, plan.replacement[i])
    ensures Vanishes(g, mode, plan.replacement[i], k)
    ensures i in plan.ids && g.nodes[i].op == if mode == ChunkAdd then Add else Mul
  {
    hide MatchOf;
    i :| i in plan.replacement && k in MatchedIds(mode, plan.replacement[i]);
    var m := plan.replacement[i];
    MatchMeans(g, mode, i, m);
    if mode == ChunkAdd { ChunkVanishes(g, m, k); }
    if mode == ScaledSiLU { SiLUVanishes(g, m, k); }
    assert i in MatchedIds(mode, m);
  }

  /** A deleted value is read by no node that stays ... */
  lemma KeptReadsNoneGone(g: Graph, mode: Mode, plan: Plan, j: nat, k: nat)
    requires WellFormed(g) && ValidPlan(g, mode, plan) && Gone(plan, k) && k < |g.nodes|
    requires j < |g.nodes| && j !in plan.ids
    ensures Output(g, k) !in g.nodes[j].inputs
  {
    if Output(g, k) in g.nodes[j].inputs {
      var i := GoneVanishes(g, mode, plan, k);
    }
  }

  /** What a fused node reads: names the multiplication it came from reads too. */
  lemma FusedReads(g: Graph, mode: Mode, m: Match, name: Name)
    requires WellFormed(g) && MatchShape(g, mode, m) && name in FusedNode(g, mode, m).inputs
    ensures name in g.nodes[m.gate.mul].inputs && g.nodes[m.gate.mul].op == Mul
    ensures mode == ScaledSiLU ==> name == m.gate.source
  {
  }

  /** A multiplication that reads a deleted value is the replaced node of its match. */
  lemma ReaderOfGone(g: Graph, mode: Mode, m: Match, k: nat, reader: nat)
    requires PlanOk(g, m) && Vanishes(g, mode, m, k) && reader < |g.nodes| && Output(g, k) in g.nodes[reader].inputs
    requires g.nodes[reader].op == Mul
    ensures reader == m.replaced
  {
  }

  /** The source of a scaled SiLU is none of its own inner values. */
  lemma SiLUSourceStays(g: Graph, m: Match, k: nat)
    requires WellFormed(g) && MatchShape(g, ScaledSiLU, m) && k in {m.gate.preMul, m.gate.sigmoid}
    ensures Output(g, k) != m.gate.source
  {
    assert Output(g, m.gate.sigmoid) in OutputSet(g.nodes[m.gate.sigmoid]);
    assert m.gate.source in g.nodes[m.gate.mul].inputs;
  }

  /** ... nor by a node that is put in. */
  lemma FusedReadsNoneGone(g: Graph, mode: Mode, plan: Plan, j: nat, k: nat)
    requires WellFormed(g) && ValidPlan(g, mode, plan) && Gone(plan, k) && k < |g.nodes|
    requires j in plan.replacement && PlanOk(g, plan.replacement[j])
    ensures Output(g, k) !in FusedNode(g, mode, plan.replacement[j]).inputs
  {
    var m := plan.replacement[j];
    if Output(g, k) in FusedNode(g, mode, m).inputs {
      var i := GoneVanishes(g, mode, plan, k);
      MatchMeans(g, mode, j, m);
      FusedReadsGone(g, mode, m, plan.replacement[i], k);
    }
  }

  lemma FusedReadsGone(g: Graph, mode: Mode, m: Match, other: Match, k: nat)
    requires WellFormed(g) && MatchShape(g, mode, m) && PlanOk(g, other) && Vanishes(g, mode, other, k)
    requires k in MatchedIds(mode, other) && k != other.replaced && other.replaced < |g.nodes| && mode != SigmoidMul
    requires g.nodes[other.replaced].op == if mode == ChunkAdd then Add else Mul
    requires m.replaced == other.replaced ==> m == other
    ensures Output(g, k) !in FusedNode(g, mode, m).inputs
  {
    if Output(g, k) in FusedNode(g, mode, m).inputs {
      FusedReads(g, mode, m, Output(g, k));
      ReaderOfGone(g, mode, other, k, m.gate.mul);
      SiLUSourceStays(g, m, k);
    }
  }

  // ----- the new graph is ordered -----

  lemma {:induction false} AllOutputsAppend(a: seq<Node>, node: Node)
    ensures AllOutputs(a + [node]) == AllOutputs(a) + OutputSet(node)
  {
    if a == [] {
      assert [node][1..] == [];
    } else {
      assert (a + [node])[1..] == a[1..] + [node];
      AllOutputsAppend(a[1..], node);
    }
  }

  lemma {:induction false} OrderedAppend(known: set<Name>, a: seq<Node>, node: Node)
    requires Ordered(known, a) && NodeOk(known + AllOutputs(a), node)
    ensures Ordered(known, a + [node])
    decreases |a|
  {
    if a == [] {
      assert known + AllOutputs(a) == known;
      assert [node][1..] == [];
    } else {
      assert (a + [node])[1..] == a[1..] + [node];
      assert known + AllOutputs(a) == known + OutputSet(a[0]) + AllOutputs(a[1..]);
      OrderedAppend(known + OutputSet(a[0]), a[1..], node);
    }
  }

  lemma KnownGrows(g: Graph, i: nat, j: nat)
    requires i <= j <= |g.nodes|
    ensures KnownBefore(Base(g), g.nodes, i) <= KnownBefore(Base(g), g.nodes, j)
  {
    forall name | name in AllOutputs(g.nodes[..i]) ensures name in AllOutputs(g.nodes[..j]) {
      AllOutputsContains(g.nodes[..i], name);
      AllOutputsContains(g.nodes[..j], name);
      var p :| 0 <= p < i && name in OutputSet(g.nodes[..i][p]);
      assert g.nodes[..j][p] == g.nodes[..i][p];
    }
  }

  lemma ProducedBefore(g: Graph, p: nat, q: nat)
    requires WellFormed(g) && p < |g.nodes| && q < |g.nodes| && SingleOutput(g.nodes[p])
    requires Output(g, p) in g.nodes[q].inputs
    ensures p < q
  {
    var name := Output(g, p);
    OrderedAt(Base(g), g.nodes, q);
    OrderedAt(Base(g), g.nodes, p);
    assert name in OutputSet(g.nodes[p]);
    assert name in KnownBefore(Base(g), g.nodes, q);
    AllOutputsContains(g.nodes[..q], name);
    var i :| 0 <= i < q && name in OutputSet(g.nodes[..q][i]);
    OneProducer(g, i, p, name);
  }

  lemma MulBeforeReplaced(g: Graph, mode: Mode, m: Match)
    requires WellFormed(g) && MatchShape(g, mode, m)
    ensures m.gate.mul <= m.replaced
  {
    if mode == ChunkAdd {
      ProducedBefore(g, m.gate.mul, m.slices[0]);
      ProducedBefore(g, m.slices[0], m.replaced);
    }
  }

  /** The emitted node reads only names known before its position. */
  lemma EmittedReadable(g: Graph, mode: Mode, plan: Plan, j: nat)
    requires WellFormed(g) && ValidPlan(g, mode, plan) && j < |g.nodes|
    requires j in plan.replacement ==> PlanOk(g, plan.replacement[j])
    ensures Readable(KnownBefore(Base(g), g.nodes, j), Emitted(g, mode, plan, j).inputs)
  {
    OrderedAt(Base(g), g.nodes, j);
    if j in plan.replacement {
      var m := plan.replacement[j];
      MatchMeans(g, mode, j, m);
      MulBeforeReplaced(g, mode, m);
      OrderedAt(Base(g), g.nodes, m.gate.mul);
      KnownGrows(g, m.gate.mul, j);
      var names := FusedNode(g, mode, m).inputs;
      forall i | 0 <= i < |names| ensures names[i] == "" || names[i] in KnownBefore(Base(g), g.nodes, j) {
        FusedReads(g, mode, m, names[i]);
      }
    }
  }

  lemma FusedOutputs(g: Graph, mode: Mode, m: Match)
    requires MatchShape(g, mode, m)
    ensures FusedNode(g, mode, m).outputs == g.nodes[m.replaced].outputs
  {
  }

  lemma EmittedOutputs(g: Graph, mode: Mode, plan: Plan, j: nat)
    requires WellFormed(g) && ValidPlan(g, mode, plan) && j < |g.nodes|
    requires j in plan.replacement ==> PlanOk(g, plan.replacement[j])
    ensures OutputSet(Emitted(g, mode, plan, j)) == OutputSet(g.nodes[j])
    ensures Emitted(g, mode, plan, j).outputs == g.nodes[j].outputs
  {
    if j in plan.replacement {
      MatchMeans(g, mode, j, plan.replacement[j]);
      FusedOutputs(g, mode, plan.replacement[j]);
    }
  }

  /** Survives: defined in the graph by a node that is not deleted. */
  ghost predicate Survives(g: Graph, plan: Plan, n: nat, name: Name)
    requires n <= |g.nodes|
  {
    exists j :: 0 <= j < n && !Gone(plan, j) && name in OutputSet(g.nodes[j])
  }

  lemma {:induction false} RewrittenOutputs(g: Graph, mode: Mode, plan: Plan, n: nat, name: Name)
    requires WellFormed(g) && ValidPlan(g, mode, plan) && n <= |g.nodes|
    requires AllPlanOk(g, plan)
    ensures name in AllOutputs(Rewritten(g, mode, plan, n)) <==> Survives(g, plan, n, name)
  {
    hide WellFormed, ValidPlan, FusedNode;
    if n > 0 {
      RewrittenOutputs(g, mode, plan, n - 1, name);
      if !Gone(plan, n - 1) {
        EmittedOutputs(g, mode, plan, n - 1);
        AllOutputsAppend(Rewritten(g, mode, plan, n - 1), Emitted(g, mode, plan, n - 1));
      }
    }
  }

  /** A name known before node j and not deleted is known in the new graph. */
  lemma StillKnown(g: Graph, mode: Mode, plan: Plan, j: nat, name: Name)
    requires WellFormed(g) && ValidPlan(g, mode, plan) && j < |g.nodes|
    requires AllPlanOk(g, plan)
    requires name in KnownBefore(Base(g), g.nodes, j)
    requires forall k :: 0 <= k < j && Gone(plan, k) ==> name !in OutputSet(g.nodes[k])
    ensures name in Base(g) + AllOutputs(Rewritten(g, mode, plan, j))
  {
    if name !in Base(g) {
      AllOutputsContains(g.nodes[..j], name);
      var i :| 0 <= i < j && name in OutputSet(g.nodes[..j][i]);
      assert name in OutputSet(g.nodes[i]);
      RewrittenOutputs(g, mode, plan, j, name);
    }
  }

  lemma EmittedReadsNoneGone(g: Graph, mode: Mode, plan: Plan, j: nat, k: nat, name: Name)
    requires WellFormed(g) && ValidPlan(g, mode, plan) && j < |g.nodes| && !Gone(plan, j)
    requires j in plan.replacement ==> PlanOk(g, plan.replacement[j])
    requires k < |g.nodes| && Gone(plan, k) && name in Emitted(g, mode, plan, j).inputs
    ensures name !in OutputSet(g.nodes[k])
  {
    var i := GoneVanishes(g, mode, plan, k);
    if j in plan.replacement { FusedReadsNoneGone(g, mode, plan, j, k); } else { KeptReadsNoneGone(g, mode, plan, j, k); }
  }

  lemma ProducedIsKnown(g: Graph, i: nat, j: nat, name: Name)
    requires i < j <= |g.nodes| && name in OutputSet(g.nodes[i])
    ensures name in KnownBefore(Base(g), g.nodes, j)
  {
    AllOutputsContains(g.nodes[..j], name);
    assert name in OutputSet(g.nodes[..j][i]);
  }

  lemma EmittedNodeOk(g: Graph, mode: Mode, plan: Plan, j: nat)
    requires WellFormed(g) && ValidPlan(g, mode, plan) && j < |g.nodes| && !Gone(plan, j)
    requires AllPlanOk(g, plan)
    ensures NodeOk(Base(g) + AllOutputs(Rewritten(g, mode, plan, j)), Emitted(g, mode, plan, j))
  {
    var known := Base(g) + AllOutputs(Rewritten(g, mode, plan, j));
    var node := Emitted(g, mode, plan, j);
    EmittedReadable(g, mode, plan, j);
    EmittedOutputs(g, mode, plan, j);
    OrderedAt(Base(g), g.nodes, j);
    forall i | 0 <= i < |node.inputs| && node.inputs[i] != "" ensures node.inputs[i] in known {
      forall k | 0 <= k < j && Gone(plan, k) ensures node.inputs[i] !in OutputSet(g.nodes[k]) {
        EmittedReadsNoneGone(g, mode, plan, j, k, node.inputs[i]);
      }
      StillKnown(g, mode, plan, j, node.inputs[i]);
    }
    forall name | name in OutputSet(node) ensures name !in known {
      RewrittenOutputs(g, mode, plan, j, name);
      if i :| 0 <= i < j && !Gone(plan, i) && name in OutputSet(g.nodes[i]) {
        ProducedIsKnown(g, i, j, name);
      }
    }
  }

  lemma {:induction false} RewrittenOrdered(g: Graph, mode: Mode, plan: Plan, n: nat)
    requires WellFormed(g) && ValidPlan(g, mode, plan) && n <= |g.nodes|
    requires AllPlanOk(g, plan)
    ensures Ordered(Base(g), Rewritten(g, mode, plan, n))
  {
    hide WellFormed, ValidPlan, FusedNode;
    if n > 0 {
      RewrittenOrdered(g, mode, plan, n - 1);
      if !Gone(plan, n - 1) {
        EmittedNodeOk(g, mode, plan, n - 1);
        OrderedAppend(Base(g), Rewritten(g, mode, plan, n - 1), Emitted(g, mode, plan, n - 1));
      }
    }
  }

  // ----- the new graph means the same -----

  ghost predicate AllSafe(g: Graph, mode: Mode, plan: Plan) {
    forall i :: i in plan.replacement ==> Safe(g, mode, plan.replacement[i])
  }

  lemma {:induction false} RewrittenSatisfied(g: Graph, sem: Semantics, v: Env, mode: Mode, plan: Plan, n: nat, p: nat)
    requires WellFormed(g) && Valuation(g, sem, v) && ValidPlan(g, mode, plan) && AllSafe(g, mode, plan)
    requires AllPlanOk(g, plan)
    requires n <= |g.nodes| && p < |Rewritten(g, mode, plan, n)|
    ensures Satisfies(sem, v, Rewritten(g, mode, plan, n)[p])
  {
    hide WellFormed, FusedNode, MatchOf, Satisfies, Safe, MatchShape, MatchedIds;
    var before := Rewritten(g, mode, plan, n - 1);
    if p < |before| {
      RewrittenSatisfied(g, sem, v, mode, plan, n - 1, p);
    } else if n - 1 in plan.replacement {
      MatchMeans(g, mode, n - 1, plan.replacement[n - 1]);
      FusedValue(g, sem, v, mode, plan.replacement[n - 1]);
    }
  }

  /** What a run of the graph starts from: constants and run-time inputs. */
  ghost predicate StartOf(g: Graph, env: Env) {
    env.Keys == Base(g) && Extends(env, g.initializers)
  }

  /** Shape inference was right about this run. */
  ghost predicate ShapesHold(g: Graph, v: Env) {
    forall name :: name in g.shapes && name in v ==> IsTensor(v[name]) && v[name].shape == g.shapes[name]
  }

  /** The main theorem: for every well-formed graph, any set of simultaneous safe matches and every run,
      the new graph is ordered, defines every graph output, and gives each name it defines its old value. */
  lemma RewritePreserves(g: Graph, sem: Semantics, env: Env, mode: Mode, plan: Plan)
    requires WellFormed(g) && ValidPlan(g, mode, plan) && AllSafe(g, mode, plan)
    requires StartOf(g, env) && ShapesHold(g, Eval(sem, env, g.nodes))
    ensures AllPlanOk(g, plan)
    ensures var before, after := Eval(sem, env, g.nodes), Eval(sem, env, Rewritten(g, mode, plan, |g.nodes|));
            && Ordered(Base(g), Rewritten(g, mode, plan, |g.nodes|))
            && Extends(before, after) && g.outputs <= after.Keys
            && forall j, name :: 0 <= j < |g.nodes| && !Gone(plan, j) && name in OutputSet(g.nodes[j]) ==> name in after
  {
    PlanIsOk(g, mode, plan);
    var nodes := Rewritten(g, mode, plan, |g.nodes|);
    var v := Eval(sem, env, g.nodes);
    RewrittenOrdered(g, mode, plan, |g.nodes|);
    EvalExtends(sem, env, g.nodes);
    EvalExtends(sem, env, nodes);
    forall i | 0 <= i < |g.nodes| ensures Satisfies(sem, v, g.nodes[i]) { EvalSatisfies(sem, env, g.nodes, i); }
    forall p | 0 <= p < |nodes| ensures Satisfies(sem, v, nodes[p]) {
      RewrittenSatisfied(g, sem, v, mode, plan, |g.nodes|, p);
    }
    EvalUnique(sem, env, nodes, v);
    forall j, name | 0 <= j < |g.nodes| && !Gone(plan, j) && name in OutputSet(g.nodes[j])
      ensures name in Eval(sem, env, nodes)
    {
      RewrittenOutputs(g, mode, plan, |g.nodes|, name);
    }
    OutputsSurvive(g, mode, plan);
  }

  lemma OutputsSurvive(g: Graph, mode: Mode, plan: Plan)
    requires WellFormed(g) && ValidPlan(g, mode, plan)
    requires AllPlanOk(g, plan)
    ensures g.outputs <= Base(g) + AllOutputs(Rewritten(g, mode, plan, |g.nodes|))
  {
    hide ValidPlan, MatchOf, FusedNode;
    forall name | name in g.outputs && name !in Base(g) ensures name in AllOutputs(Rewritten(g, mode, plan, |g.nodes|)) {
      AllOutputsContains(g.nodes, name);
      var j :| 0 <= j < |g.nodes| && name in OutputSet(g.nodes[j]);
      if Gone(plan, j) { var i := GoneVanishes(g, mode, plan, j); }
      RewrittenOutputs(g, mode, plan, |g.nodes|, name);
    }
  }
}
