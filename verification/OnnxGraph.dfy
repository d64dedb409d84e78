/** ONNX graphs in static single assignment form, their evaluation, and the fact that a valuation that
    satisfies every node of an ordered graph is the one evaluation computes. */
module OnnxGraph {
  import opened Tensors

  type Name = string

  datatype Node = Node(op: Op, inputs: seq<Name>, outputs: seq<Name>)

  type Env = map<Name, Value>

  function Lookup(env: Env, name: Name): Value {
    if name == "" then Missing else if name in env then env[name] else Failed
  }

  function Inputs(env: Env, names: seq<Name>): (values: seq<Value>)
    ensures |values| == |names|
  {
    seq(|names|, i requires 0 <= i < |names| => Lookup(env, names[i]))
  }

  /** The value a node gives its output number k. */
  function Result(sem: Semantics, node: Node, inputs: seq<Value>, k: nat): Value {
    var a, b := InputAt(inputs, 0), InputAt(inputs, 1);
    match node.op
    case Mul => MulValue(sem, a, b)
    case Add => AddValue(sem, a, b)
    case Sigmoid => SigmoidValue(sem, a)
    case Slice => SliceValue(sem, inputs)
    case PostSigmoidChunkAdd => ChunkAddKernel(a, b)
    case PostSigmoidMul => MulKernel(a, b)
    case ScaledSiLUMul => SiLUKernel(sem, a)
    case _ =>
      var results := sem.other(node.op, inputs);
      if k < |results| then results[k] else Failed
  }

  /** Binds the named outputs of a node; outputs left out have the empty name. */
  function Bind(sem: Semantics, env: Env, node: Node): Env {
    var inputs := Inputs(env, node.inputs);
    env + map k | 0 <= k < |node.outputs| && node.outputs[k] != "" && FirstUse(node.outputs, k)
              :: node.outputs[k] := Result(sem, node, inputs, k)
  }

  predicate FirstUse(names: seq<Name>, k: nat)
    requires k < |names|
  {
    forall j :: 0 <= j < k ==> names[j] != names[k]
  }

  function Eval(sem: Semantics, env: Env, nodes: seq<Node>): Env
    decreases |nodes|
  {
    if nodes == [] then env else Eval(sem, Bind(sem, env, nodes[0]), nodes[1..])
  }

  function OutputSet(node: Node): set<Name> {
    set k | 0 <= k < |node.outputs| && node.outputs[k] != "" :: node.outputs[k]
  }

  predicate Readable(known: set<Name>, names: seq<Name>) {
    forall i :: 0 <= i < |names| ==> names[i] == "" || names[i] in known
  }

  /** One node may follow: it reads only known names and defines only new, distinct ones. */
  predicate NodeOk(known: set<Name>, node: Node) {
    && Readable(known, node.inputs)
    && OutputSet(node) !! known
    && forall j, k :: 0 <= j < k < |node.outputs| && node.outputs[k] != "" ==> node.outputs[j] != node.outputs[k]
  }

  /** Static single assignment and topological order. */
  predicate Ordered(known: set<Name>, nodes: seq<Node>)
    decreases |nodes|
  {
    nodes != [] ==> NodeOk(known, nodes[0]) && Ordered(known + OutputSet(nodes[0]), nodes[1..])
  }

  /** A valuation agrees with a node on all its outputs. */
  predicate Satisfies(sem: Semantics, v: Env, node: Node) {
    forall k :: 0 <= k < |node.outputs| && node.outputs[k] != "" ==>
      node.outputs[k] in v && v[node.outputs[k]] == Result(sem, node, Inputs(v, node.inputs), k)
  }

  predicate Extends(v: Env, env: Env) {
    forall name :: name in env ==> name in v && v[name] == env[name]
  }

  function AllOutputs(nodes: seq<Node>): set<Name> {
    if nodes == [] then {} else OutputSet(nodes[0]) + AllOutputs(nodes[1..])
  }

  lemma ReadableInputs(v: Env, env: Env, node: Node)
    requires Extends(v, env) && Readable(env.Keys, node.inputs)
    requires "" !in env
    ensures Inputs(v, node.inputs) == Inputs(env, node.inputs)
  {
    forall i | 0 <= i < |node.inputs|
      ensures Lookup(v, node.inputs[i]) == Lookup(env, node.inputs[i])
    {
    }
  }

  lemma BindKeys(sem: Semantics, env: Env, node: Node)
    requires NodeOk(env.Keys, node)
    ensures Bind(sem, env, node).Keys == env.Keys + OutputSet(node)
    ensures Extends(Bind(sem, env, node), env)
    ensures "" !in env ==> "" !in Bind(sem, env, node)
    ensures forall k :: 0 <= k < |node.outputs| && node.outputs[k] != "" ==>
              && node.outputs[k] in Bind(sem, env, node)
              && Bind(sem, env, node)[node.outputs[k]] == Result(sem, node, Inputs(env, node.inputs), k)
  {
    forall k | 0 <= k < |node.outputs| && node.outputs[k] != "" ensures FirstUse(node.outputs, k) {
    }
  }

  lemma {:induction false} EvalExtends(sem: Semantics, env: Env, nodes: seq<Node>)
    requires Ordered(env.Keys, nodes) && "" !in env
    ensures Extends(Eval(sem, env, nodes), env) && "" !in Eval(sem, env, nodes)
    ensures Eval(sem, env, nodes).Keys == env.Keys + AllOutputs(nodes)
    decreases |nodes|
  {
    if nodes != [] {
      BindKeys(sem, env, nodes[0]);
      EvalExtends(sem, Bind(sem, env, nodes[0]), nodes[1..]);
    }
  }

  /** Evaluation satisfies every node: later nodes change nothing an earlier one read or wrote. */
  lemma {:induction false} EvalSatisfies(sem: Semantics, env: Env, nodes: seq<Node>, i: nat)
    requires Ordered(env.Keys, nodes) && "" !in env && i < |nodes|
    ensures Satisfies(sem, Eval(sem, env, nodes), nodes[i])
    decreases |nodes|
  {
    var next := Bind(sem, env, nodes[0]);
    BindKeys(sem, env, nodes[0]);
    if i == 0 {
      EvalExtends(sem, env, nodes);
      EvalExtends(sem, next, nodes[1..]);
      ReadableInputs(Eval(sem, env, nodes), env, nodes[0]);
    } else {
      EvalSatisfies(sem, next, nodes[1..], i - 1);
    }
  }

  /** A valuation that satisfies all nodes of an ordered graph is what evaluation computes. */
  lemma {:induction false} EvalUnique(sem: Semantics, env: Env, nodes: seq<Node>, v: Env)
    requires Ordered(env.Keys, nodes) && "" !in env && Extends(v, env)
    requires forall i :: 0 <= i < |nodes| ==> Satisfies(sem, v, nodes[i])
    ensures Extends(v, Eval(sem, env, nodes))
    decreases |nodes|
  {
    if nodes != [] {
      var next := Bind(sem, env, nodes[0]);
      BindKeys(sem, env, nodes[0]);
      ReadableInputs(v, env, nodes[0]);
      assert Satisfies(sem, v, nodes[0]);
      forall name | name in next ensures name in v && v[name] == next[name] {
        if name !in env {
          var k :| 0 <= k < |nodes[0].outputs| && nodes[0].outputs[k] != "" && nodes[0].outputs[k] == name;
        }
      }
      EvalUnique(sem, next, nodes[1..], v);
    }
  }

  // ----- positions -----

  /** Everything defined before node i. */
  function KnownBefore(known: set<Name>, nodes: seq<Node>, i: nat): set<Name>
    requires i <= |nodes|
  {
    known + AllOutputs(nodes[..i])
  }

  lemma {:induction false} AllOutputsContains(nodes: seq<Node>, name: Name)
    ensures name in AllOutputs(nodes) <==> exists i :: 0 <= i < |nodes| && name in OutputSet(nodes[i])
  {
    if nodes != [] {
      AllOutputsContains(nodes[1..], name);
      if name in AllOutputs(nodes[1..]) {
        var i :| 0 <= i < |nodes[1..]| && name in OutputSet(nodes[1..][i]);
        assert name in OutputSet(nodes[i + 1]);
      }
      if i :| 0 < i < |nodes| && name in OutputSet(nodes[i]) {
        assert name in OutputSet(nodes[1..][i - 1]);
      }
    }
  }

  /** Order by position: each node is well placed after the ones before it. */
  lemma {:induction false} OrderedAt(known: set<Name>, nodes: seq<Node>, i: nat)
    requires Ordered(known, nodes) && i < |nodes|
    ensures NodeOk(KnownBefore(known, nodes, i), nodes[i])
    decreases i
  {
    if i == 0 {
      assert KnownBefore(known, nodes, 0) == known;
    } else {
      OrderedAt(known + OutputSet(nodes[0]), nodes[1..], i - 1);
      assert nodes[..i][0] == nodes[0] && nodes[..i][1..] == nodes[1..][..i - 1];
      assert KnownBefore(known, nodes, i) == KnownBefore(known + OutputSet(nodes[0]), nodes[1..], i - 1);
    }
  }

  lemma {:induction false} OrderedFromPositions(known: set<Name>, nodes: seq<Node>)
    requires forall i :: 0 <= i < |nodes| ==> NodeOk(KnownBefore(known, nodes, i), nodes[i])
    ensures Ordered(known, nodes)
    decreases |nodes|
  {
    if nodes != [] {
      assert NodeOk(KnownBefore(known, nodes, 0), nodes[0]);
      assert KnownBefore(known, nodes, 0) == known;
      forall i | 0 <= i < |nodes[1..]|
        ensures NodeOk(KnownBefore(known + OutputSet(nodes[0]), nodes[1..], i), nodes[1..][i])
      {
        assert NodeOk(KnownBefore(known, nodes, i + 1), nodes[i + 1]);
        assert nodes[..i + 1][0] == nodes[0] && nodes[..i + 1][1..] == nodes[1..][..i];
        assert KnownBefore(known, nodes, i + 1) == KnownBefore(known + OutputSet(nodes[0]), nodes[1..], i);
      }
      OrderedFromPositions(known + OutputSet(nodes[0]), nodes[1..]);
    }
  }
}
