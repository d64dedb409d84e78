/** Graphs whose names are numbers, and what the matcher's maps and the plan are for them. */
module NumberedGraphs {
  import opened Options
  import opened Tensors
  import opened OnnxGraph
  import opened OnnxRewrite
  import opened OnnxPreserve
  import opened OnnxModel

  // ----- numbered names -----

  /** Names told apart by their length. */
  function Wire(n: nat): (name: Name)
    ensures |name| == n + 1
  {
    seq(n + 1, _ => 'w')
  }

  function Wires(numbers: seq<nat>): (names: seq<Name>)
    ensures |names| == |numbers|
  {
    seq(|numbers|, i requires 0 <= i < |numbers| => Wire(numbers[i]))
  }

  function NodeAt(op: Op, numbers: seq<nat>, i: nat): Node {
    Node(op, Wires(numbers), [Wire(i + 1)])
  }

  /** The values of the first wires; the wires of constants and run-time inputs come last. */
  function Assign(values: seq<Value>): (v: Env)
    ensures forall n :: 0 <= n < |values| ==> Wire(n) in v && v[Wire(n)] == values[n]
    ensures forall name :: name in v ==> name != "" && |name| <= |values| && name == Wire(|name| - 1)
  {
    map n | 0 <= n < |values| :: Wire(n) := values[n]
  }

  lemma InputsAssigned(values: seq<Value>, numbers: seq<nat>)
    requires forall i :: 0 <= i < |numbers| ==> numbers[i] < |values|
    ensures Inputs(Assign(values), Wires(numbers)) == seq(|numbers|, i requires 0 <= i < |numbers| => values[numbers[i]])
  {
  }

  /** Node i defines wire i + 1 and reads wire 0, constants, and wires of nodes before it. */
  predicate Numbered(nodes: seq<Node>, base: set<Name>, inputs: seq<seq<nat>>) {
    && |inputs| == |nodes| && Wire(0) in base
    && (forall i :: 0 <= i < |nodes| ==> nodes[i].inputs == Wires(inputs[i]) && nodes[i].outputs == [Wire(i + 1)])
    && (forall n :: 1 <= n <= |nodes| ==> Wire(n) !in base)
    && (forall i, k :: 0 <= i < |nodes| && 0 <= k < |inputs[i]| ==> inputs[i][k] <= i || Wire(inputs[i][k]) in base)
  }

  lemma NumberedOrdered(nodes: seq<Node>, base: set<Name>, inputs: seq<seq<nat>>)
    requires Numbered(nodes, base, inputs)
    ensures Ordered(base, nodes)
  {
    hide Wires, Ordered;
    forall i | 0 <= i < |nodes| ensures NodeOk(KnownBefore(base, nodes, i), nodes[i]) { NumberedNode(nodes, base, inputs, i); }
    OrderedFromPositions(base, nodes);
  }

  lemma NumberedNode(nodes: seq<Node>, base: set<Name>, inputs: seq<seq<nat>>, i: nat)
    requires Numbered(nodes, base, inputs) && i < |nodes|
    ensures NodeOk(KnownBefore(base, nodes, i), nodes[i])
  {
    var known := KnownBefore(base, nodes, i);
    forall k | 0 <= k < |inputs[i]| ensures Wire(inputs[i][k]) in known {
      var n := inputs[i][k];
      if Wire(n) !in base {
        assert n != 0;
        OutputIs(nodes[n - 1], n);
        assert Wire(n) in OutputSet(nodes[..i][n - 1]);
        AllOutputsContains(nodes[..i], Wire(n));
      }
    }
    OutputIs(nodes[i], i + 1);
    AllOutputsContains(nodes[..i], Wire(i + 1));
    forall j | 0 <= j < i ensures Wire(i + 1) !in OutputSet(nodes[..i][j]) { OutputIs(nodes[j], j + 1); }
  }

  lemma OutputIs(node: Node, n: nat)
    requires node.outputs == [Wire(n)]
    ensures OutputSet(node) == {Wire(n)}
  {
    assert Wire(n) == node.outputs[0];
  }

  /** In a numbered graph the producer of wire i + 1 is node i, and constants have none. */
  lemma NumberedProducers(nodes: seq<Node>, base: set<Name>, inputs: seq<seq<nat>>, n: nat)
    requires Numbered(nodes, base, inputs)
    ensures Wire(n) in ProducerMap(nodes) <==> 0 < n <= |nodes|
    ensures 0 < n <= |nodes| ==> ProducerMap(nodes)[Wire(n)] == n - 1
  {
    if 0 < n <= |nodes| {
      OutputIs(nodes[n - 1], n);
      ProducerMapComplete(nodes, n - 1, Wire(n));
    }
    if Wire(n) in ProducerMap(nodes) { ProducerMapSound(nodes, Wire(n)); }
  }

  // ----- who reads a wire -----

  /** The positions of i in a list of reads, each as the reading node. */
  function Times(numbers: seq<nat>, n: nat, i: nat): seq<nat> {
    if numbers == [] then []
    else Times(numbers[..|numbers| - 1], n, i) + if numbers[|numbers| - 1] == n then [i] else []
  }

  function Readers(inputs: seq<seq<nat>>, n: nat): seq<nat> {
    if inputs == [] then [] else Readers(inputs[..|inputs| - 1], n) + Times(inputs[|inputs| - 1], n, |inputs| - 1)
  }

  lemma {:induction false} AddInputsReaders(consumes: Consumers, numbers: seq<nat>, i: nat, n: nat)
    ensures ConsumersOf(AddInputs(consumes, Wires(numbers), i), Wire(n)) == ConsumersOf(consumes, Wire(n)) + Times(numbers, n, i)
    decreases |numbers|
  {
    if numbers == [] {
      assert ConsumersOf(consumes, Wire(n)) + [] == ConsumersOf(consumes, Wire(n));
    } else {
      var front := numbers[..|numbers| - 1];
      AddInputsReaders(consumes, front, i, n);
      assert Wires(numbers)[..|numbers| - 1] == Wires(front);
    }
  }

  lemma {:induction false} ConsumersAre(nodes: seq<Node>, inputs: seq<seq<nat>>, n: nat)
    requires |inputs| == |nodes| && forall i :: 0 <= i < |nodes| ==> nodes[i].inputs == Wires(inputs[i])
    ensures ConsumersOf(ConsumerMap(nodes), Wire(n)) == Readers(inputs, n)
    decreases |nodes|
  {
    if nodes != [] {
      var last := |nodes| - 1;
      ConsumersAre(nodes[..last], inputs[..last], n);
      AddInputsReaders(ConsumerMap(nodes[..last]), inputs[last], last, n);
    }
  }

  lemma {:induction false} TimesNone(numbers: seq<nat>, n: nat, i: nat)
    requires n !in numbers
    ensures Times(numbers, n, i) == []
  {
    if numbers != [] { TimesNone(numbers[..|numbers| - 1], n, i); }
  }

  lemma {:induction false} TimesOnce(numbers: seq<nat>, n: nat, i: nat, k: nat)
    requires k < |numbers| && numbers[k] == n && forall j :: 0 <= j < |numbers| && j != k ==> numbers[j] != n
    ensures Times(numbers, n, i) == [i]
    decreases |numbers|
  {
    var last := |numbers| - 1;
    if k == last { TimesNone(numbers[..last], n, i); } else { TimesOnce(numbers[..last], n, i, k); }
  }

  lemma {:induction false} ReadersNone(inputs: seq<seq<nat>>, n: nat)
    requires forall i :: 0 <= i < |inputs| ==> n !in inputs[i]
    ensures Readers(inputs, n) == []
  {
    if inputs != [] {
      ReadersNone(inputs[..|inputs| - 1], n);
      TimesNone(inputs[|inputs| - 1], n, |inputs| - 1);
    }
  }

  /** Read once, by node i, at place k. */
  lemma {:induction false} ReadersOnce(inputs: seq<seq<nat>>, n: nat, i: nat, k: nat)
    requires i < |inputs| && k < |inputs[i]| && inputs[i][k] == n
    requires forall j :: 0 <= j < |inputs[i]| && j != k ==> inputs[i][j] != n
    requires forall j :: 0 <= j < |inputs| && j != i ==> n !in inputs[j]
    ensures Readers(inputs, n) == [i]
    decreases |inputs|
  {
    var last := |inputs| - 1;
    if i == last {
      ReadersNone(inputs[..last], n);
      TimesOnce(inputs[last], n, last, k);
    } else {
      ReadersOnce(inputs[..last], n, i, k);
      TimesNone(inputs[last], n, last);
    }
  }

  // ----- one match -----

  lemma {:induction false} NoCandidates(found: seq<Option<Match>>)
    requires forall i :: 0 <= i < |found| ==> found[i] == None
    ensures Candidates(found) == []
  {
    if found != [] { NoCandidates(found[..|found| - 1]); }
  }

  lemma {:induction false} OneCandidate(found: seq<Option<Match>>, i: nat)
    requires i < |found| && found[i].Some? && forall j :: 0 <= j < |found| && j != i ==> found[j] == None
    ensures Candidates(found) == [found[i].value]
    decreases |found|
  {
    var last := |found| - 1;
    if i == last { NoCandidates(found[..last]); } else { OneCandidate(found[..last], i); }
  }

  lemma OneTaken(g: Graph, mode: Mode, i: nat)
    requires i < |g.nodes| && MatchOf(g, mode, i).Some?
    requires forall j :: 0 <= j < |g.nodes| && j != i ==> MatchOf(g, mode, j) == None
    ensures var m := MatchOf(g, mode, i).value;
            && Taken(g, mode, None, None) == [m]
            && PlanOf(mode, Taken(g, mode, None, None)) == Plan(map[m.replaced := m], MatchedIds(mode, m))
  {
    hide MatchOf, MatchedIds;
    OneCandidate(Table(g, mode), i);
    OnePlan(mode, MatchOf(g, mode, i).value);
  }

  lemma OnePlan(mode: Mode, m: Match)
    ensures PlanOf(mode, [m]) == Plan(map[m.replaced := m], MatchedIds(mode, m))
  {
    hide MatchedIds;
    assert PlanOf(mode, []) == Plan(map[], {});
    assert [m][..0] == [];
  }

  lemma RewrittenStep(g: Graph, mode: Mode, plan: Plan, n: nat)
    requires n < |g.nodes| && AllPlanOk(g, plan)
    ensures Rewritten(g, mode, plan, n + 1)
         == Rewritten(g, mode, plan, n)
            + if n in plan.replacement then [FusedNode(g, mode, plan.replacement[n])]
              else if n in plan.ids then [] else [g.nodes[n]]
  {
  }

  // ----- evaluation -----

  function NodesOf(ops: seq<Op>, inputs: seq<seq<nat>>): (nodes: seq<Node>)
    requires |ops| == |inputs|
    ensures |nodes| == |ops|
  {
    seq(|ops|, i requires 0 <= i < |ops| => NodeAt(ops[i], inputs[i], i))
  }

  /** An assignment agrees with a node when it gives the node's wire the node's value. */
  lemma Valued(sem: Semantics, values: seq<Value>, op: Op, numbers: seq<nat>, i: nat, read: seq<Value>)
    requires i + 1 < |values| && |read| == |numbers|
    requires forall k :: 0 <= k < |numbers| ==> numbers[k] < |values| && read[k] == values[numbers[k]]
    requires values[i + 1] == Result(sem, NodeAt(op, numbers, i), read, 0)
    ensures Satisfies(sem, Assign(values), NodeAt(op, numbers, i))
  {
    InputsAssigned(values, numbers);
    assert Inputs(Assign(values), Wires(numbers)) == read;
  }

  /** What an assignment gives every wire is what evaluation computes. */
  lemma RunsTo(sem: Semantics, env: Env, nodes: seq<Node>, values: seq<Value>)
    requires Ordered(env.Keys, nodes) && Extends(Assign(values), env)
    requires forall i :: 0 <= i < |nodes| ==> Satisfies(sem, Assign(values), nodes[i])
    ensures Eval(sem, env, nodes).Keys == env.Keys + AllOutputs(nodes)
    ensures Extends(Assign(values), Eval(sem, env, nodes)) && Extends(Eval(sem, env, nodes), env)
  {
    EvalExtends(sem, env, nodes);
    EvalUnique(sem, env, nodes, Assign(values));
  }

  lemma DefinedBy(nodes: seq<Node>, i: nat, n: nat)
    requires i < |nodes| && nodes[i].outputs == [Wire(n)]
    ensures Wire(n) in AllOutputs(nodes)
  {
    OutputIs(nodes[i], n);
    AllOutputsContains(nodes, Wire(n));
  }
}
