/** The matcher finds every pattern: what is matched is said of the nodes, their readers and the constants
    alone, and both directions are proved. */
module OnnxComplete {
  import opened Options
  import opened Tensors
  import opened OnnxGraph
  import opened OnnxRewrite
  import opened OnnxPreserve
  import opened OnnxModel

  // ----- readers -----

  /** Node i once for every place at which a list holds the name. */
  function Mentions(names: seq<Name>, name: Name, i: nat): seq<nat> {
    if names == [] then []
    else Mentions(names[..|names| - 1], name, i) + if names[|names| - 1] == name then [i] else []
  }

  function AllMentions(nodes: seq<Node>, name: Name): seq<nat> {
    if nodes == [] then []
    else AllMentions(nodes[..|nodes| - 1], name) + Mentions(nodes[|nodes| - 1].inputs, name, |nodes| - 1)
  }

  lemma {:induction false} AddInputsMentions(consumes: Consumers, names: seq<Name>, i: nat, name: Name)
    ensures ConsumersOf(AddInputs(consumes, names, i), name) == ConsumersOf(consumes, name) + Mentions(names, name, i)
  {
    if names == [] {
      assert ConsumersOf(consumes, name) + [] == ConsumersOf(consumes, name);
    } else {
      AddInputsMentions(consumes, names[..|names| - 1], i, name);
    }
  }

  lemma {:induction false} ConsumersAreMentions(nodes: seq<Node>, name: Name)
    ensures ConsumersOf(ConsumerMap(nodes), name) == AllMentions(nodes, name)
  {
    if nodes != [] {
      var last := |nodes| - 1;
      ConsumersAreMentions(nodes[..last], name);
      AddInputsMentions(ConsumerMap(nodes[..last]), nodes[last].inputs, last, name);
    }
  }

  /** The name is read at one place of the graph, by node i. */
  ghost predicate ReadOnce(nodes: seq<Node>, name: Name, i: nat) {
    && i < |nodes| && multiset(nodes[i].inputs)[name] == 1
    && forall j :: 0 <= j < |nodes| && j != i ==> name !in nodes[j].inputs
  }

  lemma {:induction false} MentionsIn(names: seq<Name>, name: Name, i: nat)
    ensures |Mentions(names, name, i)| == multiset(names)[name]
    ensures Mentions(names, name, i) == [] <==> name !in names
    ensures forall k :: 0 <= k < |Mentions(names, name, i)| ==> Mentions(names, name, i)[k] == i
  {
    if names != [] {
      MentionsIn(names[..|names| - 1], name, i);
      assert names == names[..|names| - 1] + [names[|names| - 1]];
    }
  }

  lemma MentionedBy(names: seq<Name>, name: Name, i: nat, j: nat)
    ensures j in Mentions(names, name, i) <==> j == i && name in names
  {
    MentionsIn(names, name, i);
    hide Mentions;
    var here := Mentions(names, name, i);
    if here != [] { assert here[0] == i; }
  }

  lemma {:induction false} AllMentionsIn(nodes: seq<Node>, name: Name, j: nat)
    ensures j in AllMentions(nodes, name) <==> j < |nodes| && name in nodes[j].inputs
  {
    if nodes != [] {
      var last := |nodes| - 1;
      var rest, here := nodes[..last], Mentions(nodes[last].inputs, name, last);
      AllMentionsIn(rest, name, j);
      MentionedBy(nodes[last].inputs, name, last, j);
      var before := AllMentions(rest, name);
      assert AllMentions(nodes, name) == before + here;
      hide *;
      assert j < last ==> rest[j] == nodes[j];
      assert j in before + here <==> j in before || j in here;
    }
  }

  lemma NoMentions(nodes: seq<Node>, name: Name)
    ensures AllMentions(nodes, name) == [] <==> forall j :: 0 <= j < |nodes| ==> name !in nodes[j].inputs
  {
    var all := AllMentions(nodes, name);
    if all == [] {
      forall j | 0 <= j < |nodes| ensures name !in nodes[j].inputs { AllMentionsIn(nodes, name, j); }
    } else {
      AllMentionsIn(nodes, name, all[0]);
    }
  }

  lemma {:induction false} MentionedOnce(nodes: seq<Node>, name: Name, i: nat)
    ensures AllMentions(nodes, name) == [i] <==> ReadOnce(nodes, name, i)
  {
    if nodes != [] {
      var last := |nodes| - 1;
      var front, here := AllMentions(nodes[..last], name), Mentions(nodes[last].inputs, name, last);
      MentionedOnce(nodes[..last], name, i);
      NoMentions(nodes[..last], name);
      MentionsIn(nodes[last].inputs, name, last);
      assert here == [last] <==> |here| == 1;
      OneOfTwo(front, here, i);
      if i == last {
        LastReadsOnce(nodes, name);
        AllMentionsIn(nodes[..last], name, i);
        assert front == [i] ==> i in front;
      } else {
        EarlierReadsOnce(nodes, name, i);
        if here != [] { assert here[0] == last; }
      }
    }
  }

  lemma OneOfTwo(a: seq<nat>, b: seq<nat>, i: nat)
    ensures a + b == [i] <==> (a == [i] && b == []) || (a == [] && b == [i])
  {
    if a + b == [i] {
      assert |a| + |b| == 1 && (a + b)[0] == i;
      if a == [] { assert a + b == b; } else { assert a + b == a; }
    } else if a == [] {
      assert a + b == b;
    } else if b == [] {
      assert a + b == a;
    }
  }

  lemma LastReadsOnce(nodes: seq<Node>, name: Name)
    requires nodes != []
    ensures var last := |nodes| - 1;
            ReadOnce(nodes, name, last) <==>
              multiset(nodes[last].inputs)[name] == 1 && forall j :: 0 <= j < last ==> name !in nodes[..last][j].inputs
  {
    var last := |nodes| - 1;
    if ReadOnce(nodes, name, last) {
      forall j | 0 <= j < last ensures name !in nodes[..last][j].inputs { assert nodes[..last][j] == nodes[j]; }
    }
    if forall j :: 0 <= j < last ==> name !in nodes[..last][j].inputs {
      forall j | 0 <= j < last ensures name !in nodes[j].inputs { assert nodes[..last][j] == nodes[j]; }
    }
  }

  lemma EarlierReadsOnce(nodes: seq<Node>, name: Name, i: nat)
    requires nodes != [] && i != |nodes| - 1
    ensures var last := |nodes| - 1;
            ReadOnce(nodes, name, i) <==> ReadOnce(nodes[..last], name, i) && name !in nodes[last].inputs
  {
    var last := |nodes| - 1;
    assert forall j :: 0 <= j < last ==> nodes[..last][j] == nodes[j];
  }

  /** The only consumer, and the consumers as a set, in terms of the nodes. */
  lemma ConsumersMean(g: Graph, name: Name, i: nat)
    ensures ConsumersOf(ConsumerMap(g.nodes), name) == [i] <==> ReadOnce(g.nodes, name, i)
    ensures i in ConsumersOf(ConsumerMap(g.nodes), name) <==> i < |g.nodes| && name in g.nodes[i].inputs
  {
    ConsumersAreMentions(g.nodes, name);
    MentionedOnce(g.nodes, name, i);
    AllMentionsIn(g.nodes, name, i);
  }

  // ----- the pattern -----

  /** A constant with this one element. */
  predicate ScalarIs(g: Graph, name: Name, v: real) {
    name in g.initializers &&
    match g.initializers[name]
    case Tensor(_, data) => data == [v]
    case Ints(values) => |values| == 1 && values[0] as real == v
    case _ => false
  }

  predicate IntsAre(g: Graph, name: Name, values: seq<int>) {
    name in g.initializers && g.initializers[name] == Ints(values)
  }

  predicate Either(names: seq<Name>, a: Name, b: Name) {
    names == [a, b] || names == [b, a]
  }

  /** A node of this kind whose one output has this name. */
  predicate Makes(g: Graph, i: nat, op: Op, name: Name) {
    i < |g.nodes| && g.nodes[i].op == op && g.nodes[i].outputs == [name]
  }

  /** x * sigmoid(beta * x) with a constant beta near 4, the factors in either order; x comes from no Sigmoid and
      is no constant scalar. */
  ghost predicate GatePattern(g: Graph, gate: Gate, pre: Name, sig: Name) {
    && gate.mul < |g.nodes| && Makes(g, gate.preMul, Mul, pre) && Makes(g, gate.sigmoid, Sigmoid, sig)
    && Either(g.nodes[gate.preMul].inputs, gate.beta, gate.source)
    && g.nodes[gate.sigmoid].inputs == [pre]
    && Either(g.nodes[gate.mul].inputs, sig, gate.source)
    && (forall j :: 0 <= j < |g.nodes| ==> !Makes(g, j, Sigmoid, gate.source))
    && (forall v :: !ScalarIs(g, gate.source, v))
    && (exists v :: ScalarIs(g, gate.beta, v) && 3.999999 <= v <= 4.000001)
  }

  lemma ScalarMeans(g: Graph, name: Name, v: real)
    ensures ScalarValue(g, name) == Some(v) <==> ScalarIs(g, name, v)
  {
  }

  lemma NoScalar(g: Graph, name: Name)
    ensures ScalarValue(g, name).None? <==> forall v :: !ScalarIs(g, name, v)
  {
    if ScalarValue(g, name).Some? {
      ScalarMeans(g, name, ScalarValue(g, name).value);
    } else {
      forall v ensures !ScalarIs(g, name, v) { ScalarMeans(g, name, v); }
    }
  }

  /** The producer map finds a node exactly when the node makes the name. */
  lemma ProducerMeans(g: Graph, name: Name, op: Op, i: nat)
    requires WellFormed(g) && Interpreted(op)
    ensures ProducerOf(g, ProducerMap(g.nodes), name, op) == Some(i) <==> name != "" && Makes(g, i, op, name)
  {
    if ProducerOf(g, ProducerMap(g.nodes), name, op) == Some(i) {
      ProducedByOp(g, name, op, i);
      ProducerMapSound(g.nodes, name);
    }
    if name != "" && Makes(g, i, op, name) {
      assert name == g.nodes[i].outputs[0];
      assert name in OutputSet(g.nodes[i]);
      ProducerMapComplete(g.nodes, i, name);
      ProducerMapSound(g.nodes, name);
      OneProducer(g, i, ProducerMap(g.nodes)[name], name);
    }
  }

  lemma NoProducer(g: Graph, name: Name)
    requires WellFormed(g)
    ensures ProducerOf(g, ProducerMap(g.nodes), name, Sigmoid).None? <==>
            forall j :: 0 <= j < |g.nodes| ==> !Makes(g, j, Sigmoid, name)
  {
    var p := ProducerOf(g, ProducerMap(g.nodes), name, Sigmoid);
    if p.Some? {
      ProducerMeans(g, name, Sigmoid, p.value);
    } else {
      forall j | 0 <= j < |g.nodes| ensures !Makes(g, j, Sigmoid, name) {
        ProducerMeans(g, name, Sigmoid, j);
        if Makes(g, j, Sigmoid, name) { MadeIsNamed(g, j, Sigmoid, name); }
      }
    }
  }

  lemma MadeIsNamed(g: Graph, i: nat, op: Op, name: Name)
    requires WellFormed(g) && Interpreted(op) && Makes(g, i, op, name)
    ensures name != "" && Output(g, i) == name && SingleOutput(g.nodes[i])
  {
  }

  /** Of two factors one is made by a Sigmoid and the other is not, in either order. */
  lemma SigmoidFactorMeans(g: Graph, inputs: seq<Name>, sigmoid: nat, source: Name)
    requires WellFormed(g)
    ensures SigmoidFactor(g, ProducerMap(g.nodes), inputs) == Some((sigmoid, source)) <==>
            exists sig :: Makes(g, sigmoid, Sigmoid, sig) && Either(inputs, sig, source)
                          && forall j :: 0 <= j < |g.nodes| ==> !Makes(g, j, Sigmoid, source)
  {
    hide WellFormed, ProducerMap, ProducerOf;
    var produced := ProducerMap(g.nodes);
    NoProducer(g, source);
    if SigmoidFactor(g, produced, inputs) == Some((sigmoid, source)) {
      var sig := if inputs[1] == source && ProducerOf(g, produced, inputs[0], Sigmoid) == Some(sigmoid) then inputs[0] else inputs[1];
      ProducerMeans(g, sig, Sigmoid, sigmoid);
      assert inputs == [inputs[0], inputs[1]];
      assert Makes(g, sigmoid, Sigmoid, sig) && Either(inputs, sig, source);
    }
    if sig :| Makes(g, sigmoid, Sigmoid, sig) && Either(inputs, sig, source)
              && forall j :: 0 <= j < |g.nodes| ==> !Makes(g, j, Sigmoid, source)
    {
      MadeIsNamed(g, sigmoid, Sigmoid, sig);
      ProducerMeans(g, sig, Sigmoid, sigmoid);
    }
  }

  /** Of two factors one is a constant scalar and the other is not, in either order. */
  lemma BetaFactorMeans(g: Graph, inputs: seq<Name>, beta: Name, source: Name)
    ensures BetaFactor(g, inputs) == Some((beta, source)) <==>
            && Either(inputs, beta, source) && (exists v :: ScalarIs(g, beta, v)) && forall v :: !ScalarIs(g, source, v)
  {
    NoScalar(g, beta);
    NoScalar(g, source);
    hide ScalarIs, ScalarValue;
    if BetaFactor(g, inputs) == Some((beta, source)) {
      assert inputs == [inputs[0], inputs[1]];
    }
  }

  lemma CloseMeans(g: Graph, beta: Name)
    ensures (exists v :: ScalarIs(g, beta, v) && 3.999999 <= v <= 4.000001) <==>
            ScalarValue(g, beta).Some? && IsCloseToFour(ScalarValue(g, beta).value)
  {
    if v :| ScalarIs(g, beta, v) && 3.999999 <= v <= 4.000001 {
      ScalarMeans(g, beta, v);
    }
    if ScalarValue(g, beta).Some? { ScalarMeans(g, beta, ScalarValue(g, beta).value); }
  }

  ghost predicate GateFound(g: Graph, gate: Gate) {
    && gate.preMul < |g.nodes| && gate.sigmoid < |g.nodes|
    && GatePattern(g, gate, Output(g, gate.preMul), Output(g, gate.sigmoid))
  }

  lemma GateIsPattern(g: Graph, mul: nat, gate: Gate)
    requires WellFormed(g) && mul < |g.nodes| && MatchGate(g, ProducerMap(g.nodes), mul) == Some(gate)
    ensures gate.mul == mul && GateFound(g, gate)
  {
    hide WellFormed, ProducerMap, ScalarIs, ScalarValue, IsCloseToFour;
    SigmoidFactorMeans(g, g.nodes[mul].inputs, gate.sigmoid, gate.source);
    var sig :| Makes(g, gate.sigmoid, Sigmoid, sig) && Either(g.nodes[mul].inputs, sig, gate.source);
    var pre := g.nodes[gate.sigmoid].inputs[0];
    ProducerMeans(g, pre, Mul, gate.preMul);
    BetaFactorMeans(g, g.nodes[gate.preMul].inputs, gate.beta, gate.source);
    CloseMeans(g, gate.beta);
    assert g.nodes[gate.sigmoid].inputs == [pre];
  }

  lemma PatternIsGate(g: Graph, gate: Gate)
    requires WellFormed(g) && gate.mul < |g.nodes| && GateFound(g, gate)
    ensures MatchGate(g, ProducerMap(g.nodes), gate.mul) == Some(gate) && |g.nodes[gate.mul].inputs| == 2
  {
    hide WellFormed, ProducerMap, ProducerOf, ScalarIs, ScalarValue, IsCloseToFour, SigmoidFactor, BetaFactor;
    var pre, sig := Output(g, gate.preMul), Output(g, gate.sigmoid);
    MadeIsNamed(g, gate.preMul, Mul, pre);
    assert Makes(g, gate.sigmoid, Sigmoid, sig) && Either(g.nodes[gate.mul].inputs, sig, gate.source);
    SigmoidFactorMeans(g, g.nodes[gate.mul].inputs, gate.sigmoid, gate.source);
    ProducerMeans(g, pre, Mul, gate.preMul);
    BetaFactorMeans(g, g.nodes[gate.preMul].inputs, gate.beta, gate.source);
    CloseMeans(g, gate.beta);
  }

  // ----- the three modes -----

  ghost predicate Shaped(g: Graph, m: Match) {
    m.gate.source in g.shapes && g.shapes[m.gate.source] == m.shape && |m.shape| == 4
  }

  /** A multiplication as both multiplication modes want it: float data of known shape, the two values in
      between for its own use only, and its result read once, by a convolution. */
  ghost predicate MulPattern(g: Graph, i: nat, m: Match, pre: Name, sig: Name, output: Name) {
    && Makes(g, i, Mul, output) && m.replaced == i && m.gate.mul == i && m.slices == []
    && GatePattern(g, m.gate, pre, sig) && Shaped(g, m)
    && (m.gate.source in g.dtypes ==> g.dtypes[m.gate.source] == 1 || g.dtypes[m.gate.source] == 10)
    && pre !in g.outputs && sig !in g.outputs && output !in g.outputs
    && ReadOnce(g.nodes, pre, m.gate.sigmoid) && ReadOnce(g.nodes, sig, i)
    && exists j :: 0 <= j < |g.nodes| && g.nodes[j].op.Conv? && ReadOnce(g.nodes, output, j)
  }

  /** A slice of channels low to high, its axis given as a constant; a step that is no constant is not looked at. */
  ghost predicate Cuts(g: Graph, node: Node, low: int, high: int) {
    && node.op == Slice && |node.inputs| >= 4
    && IntsAre(g, node.inputs[1], [low]) && IntsAre(g, node.inputs[2], [high])
    && node.inputs[3] != "" && IntsAre(g, node.inputs[3], [1])
    && (|node.inputs| < 5 || node.inputs[4] == "" || IntsAre(g, node.inputs[4], [1])
        || forall values :: !IntsAre(g, node.inputs[4], values))
  }

  /** An addition of the two channel halves of a gate, in either order, everything in between for its own use. */
  ghost predicate AddPattern(g: Graph, i: nat, m: Match, pre: Name, sig: Name, gated: Name, a: Name, b: Name, output: Name) {
    && Makes(g, i, Add, output) && m.replaced == i
    && |m.slices| == 2 && Makes(g, m.slices[0], Slice, a) && Makes(g, m.slices[1], Slice, b)
    && g.nodes[i].inputs == [a, b]
    && Makes(g, m.gate.mul, Mul, gated) && GatePattern(g, m.gate, pre, sig) && Shaped(g, m)
    && g.nodes[m.slices[0]].inputs != [] && g.nodes[m.slices[0]].inputs[0] == gated
    && g.nodes[m.slices[1]].inputs != [] && g.nodes[m.slices[1]].inputs[0] == gated
    && (exists c :: Halved(g, m, c))
    && pre !in g.outputs && sig !in g.outputs && gated !in g.outputs && a !in g.outputs && b !in g.outputs && output !in g.outputs
    && ReadOnce(g.nodes, a, i) && ReadOnce(g.nodes, b, i)
    && forall j :: 0 <= j < |g.nodes| && gated in g.nodes[j].inputs ==> j in m.slices
  }

  ghost predicate Halved(g: Graph, m: Match, c: int)
    requires |m.slices| == 2 && |m.shape| == 4 && m.slices[0] < |g.nodes| && m.slices[1] < |g.nodes|
  {
    && m.shape[1] == 2 * c
    && var a, b := g.nodes[m.slices[0]], g.nodes[m.slices[1]];
       (Cuts(g, a, 0, c) && Cuts(g, b, c, 2 * c)) || (Cuts(g, a, c, 2 * c) && Cuts(g, b, 0, c))
  }

  lemma MadeOnce(g: Graph, i: nat, op: Op)
    requires WellFormed(g) && Interpreted(op) && i < |g.nodes| && g.nodes[i].op == op
    ensures Makes(g, i, op, Output(g, i)) && Output(g, i) != ""
  {
  }

  lemma ConvReads(g: Graph, name: Name)
    ensures var readers := ConsumersOf(ConsumerMap(g.nodes), name);
            (|readers| == 1 && readers[0] < |g.nodes| && g.nodes[readers[0]].op.Conv?) <==>
            exists j :: 0 <= j < |g.nodes| && g.nodes[j].op.Conv? && ReadOnce(g.nodes, name, j)
  {
    var readers := ConsumersOf(ConsumerMap(g.nodes), name);
    if |readers| == 1 {
      assert readers == [readers[0]];
      ConsumersMean(g, name, readers[0]);
    }
    if j :| 0 <= j < |g.nodes| && g.nodes[j].op.Conv? && ReadOnce(g.nodes, name, j) {
      ConsumersMean(g, name, j);
    }
  }

  ghost predicate MulFound(g: Graph, i: nat, m: Match)
    requires i < |g.nodes|
  {
    && m.gate.preMul < |g.nodes| && m.gate.sigmoid < |g.nodes|
    && MulPattern(g, i, m, Output(g, m.gate.preMul), Output(g, m.gate.sigmoid), Output(g, i))
  }

  lemma MulMatchedExactly(g: Graph, i: nat, m: Match)
    requires WellFormed(g) && i < |g.nodes|
    ensures MatchMul(g, ProducerMap(g.nodes), ConsumerMap(g.nodes), i) == Some(m) <==> MulFound(g, i, m)
  {
    hide WellFormed, ProducerMap, ConsumerMap, MatchGate, GatePattern, ReadOnce;
    if MatchMul(g, ProducerMap(g.nodes), ConsumerMap(g.nodes), i) == Some(m) || MulFound(g, i, m) {
      if MulFound(g, i, m) { PatternIsGate(g, m.gate); } else { GateIsPattern(g, i, m.gate); }
      MadeOnce(g, i, Mul);
      ConsumersMean(g, Output(g, m.gate.preMul), m.gate.sigmoid);
      ConsumersMean(g, Output(g, m.gate.sigmoid), i);
      ConvReads(g, Output(g, i));
    }
  }

  lemma CutsMean(g: Graph, node: Node, low: int, high: int)
    ensures MatchSlice(g, node) == SliceBounds(low, high, 1, 1) <==> Cuts(g, node, low, high)
  {
    if node.op == Slice && |node.inputs| >= 3 {
      ListMeans(g, node.inputs[1], [low]);
      ListMeans(g, node.inputs[2], [high]);
      if |node.inputs| >= 4 { ListMeans(g, node.inputs[3], [1]); }
      if |node.inputs| >= 5 {
        ListMeans(g, node.inputs[4], [1]);
        NoList(g, node.inputs[4]);
      }
    }
  }

  lemma ListMeans(g: Graph, name: Name, values: seq<int>)
    ensures IntList(g, name) == Some(values) <==> IntsAre(g, name, values)
  {
  }

  lemma NoList(g: Graph, name: Name)
    ensures IntList(g, name).None? <==> forall values :: !IntsAre(g, name, values)
  {
    if IntList(g, name).Some? { assert IntsAre(g, name, IntList(g, name).value); }
  }

  lemma HalvesMean(g: Graph, m: Match)
    requires |m.slices| == 2 && |m.shape| == 4 && m.slices[0] < |g.nodes| && m.slices[1] < |g.nodes|
    ensures Halves(MatchSlice(g, g.nodes[m.slices[0]]), MatchSlice(g, g.nodes[m.slices[1]]), m.shape[1]) <==>
            exists c :: Halved(g, m, c)
  {
    hide MatchSlice, Cuts;
    var a, b := g.nodes[m.slices[0]], g.nodes[m.slices[1]];
    if Halves(MatchSlice(g, a), MatchSlice(g, b), m.shape[1]) {
      var c := Sorted(MatchSlice(g, a), MatchSlice(g, b)).0.end;
      CutsMean(g, a, MatchSlice(g, a).start, MatchSlice(g, a).end);
      CutsMean(g, b, MatchSlice(g, b).start, MatchSlice(g, b).end);
      assert Halved(g, m, c);
    }
    if c :| Halved(g, m, c) {
      CutsMean(g, a, 0, c);
      CutsMean(g, b, c, 2 * c);
      CutsMean(g, a, c, 2 * c);
      CutsMean(g, b, 0, c);
    }
  }

  /** The consumers of the gated value are the two slices. */
  lemma GatedReaders(g: Graph, gated: Name, sa: nat, sb: nat)
    requires sa < |g.nodes| && sb < |g.nodes| && gated in g.nodes[sa].inputs && gated in g.nodes[sb].inputs
    ensures (set c | c in ConsumersOf(ConsumerMap(g.nodes), gated)) == {sa, sb} <==>
            forall j :: 0 <= j < |g.nodes| && gated in g.nodes[j].inputs ==> j in [sa, sb]
  {
    var readers := ConsumersOf(ConsumerMap(g.nodes), gated);
    forall j: nat ensures j in readers <==> j < |g.nodes| && gated in g.nodes[j].inputs { ConsumersMean(g, gated, j); }
    var all := set c | c in readers;
    assert forall j :: j in all <==> j in readers;
    assert sa in all && sb in all;
    if forall j :: 0 <= j < |g.nodes| && gated in g.nodes[j].inputs ==> j in [sa, sb] {
      assert forall j :: j in all ==> j in {sa, sb};
    }
  }

  lemma OnceOnly(g: Graph, name: Name, i: nat)
    requires i < |g.nodes| && name in g.nodes[i].inputs
    ensures OnlyConsumer(ConsumerMap(g.nodes), name) <==> ReadOnce(g.nodes, name, i)
  {
    ConsumersMean(g, name, i);
    var readers := ConsumersOf(ConsumerMap(g.nodes), name);
    if |readers| == 1 { assert readers == [readers[0]] && i in readers; }
  }

  ghost predicate AddFound(g: Graph, i: nat, m: Match)
    requires i < |g.nodes|
  {
    && m.gate.preMul < |g.nodes| && m.gate.sigmoid < |g.nodes| && m.gate.mul < |g.nodes|
    && |m.slices| == 2 && m.slices[0] < |g.nodes| && m.slices[1] < |g.nodes|
    && AddPattern(g, i, m, Output(g, m.gate.preMul), Output(g, m.gate.sigmoid), Output(g, m.gate.mul),
                  Output(g, m.slices[0]), Output(g, m.slices[1]), Output(g, i))
  }

  lemma AddIsPattern(g: Graph, i: nat, m: Match)
    requires WellFormed(g) && i < |g.nodes|
    requires MatchAdd(g, ProducerMap(g.nodes), ConsumerMap(g.nodes), i) == Some(m)
    ensures AddFound(g, i, m)
  {
    hide WellFormed, ProducerMap, ConsumerMap, ProducerOf, MatchGate, GatePattern, ReadOnce, MatchSlice, Halves, Halved, OnlyConsumer;
    var produced := ProducerMap(g.nodes);
    var sa, sb := m.slices[0], m.slices[1];
    MadeOnce(g, i, Add);
    ProducerMeans(g, g.nodes[i].inputs[0], Slice, sa);
    ProducerMeans(g, g.nodes[i].inputs[1], Slice, sb);
    assert g.nodes[i].inputs == [g.nodes[i].inputs[0], g.nodes[i].inputs[1]];
    var gated := g.nodes[sa].inputs[0];
    var mul := ProducerOf(g, produced, gated, Mul).value;
    ProducerMeans(g, gated, Mul, mul);
    GateIsPattern(g, mul, m.gate);
    HalvesMean(g, m);
    OnceOnly(g, Output(g, sa), i);
    OnceOnly(g, Output(g, sb), i);
    GatedReaders(g, gated, sa, sb);
  }

  lemma PatternIsAdd(g: Graph, i: nat, m: Match)
    requires WellFormed(g) && i < |g.nodes| && AddFound(g, i, m)
    ensures MatchAdd(g, ProducerMap(g.nodes), ConsumerMap(g.nodes), i) == Some(m)
  {
    hide WellFormed, ProducerMap, ConsumerMap, ProducerOf, MatchGate, GatePattern, ReadOnce, MatchSlice, Halves, Halved, OnlyConsumer;
    var sa, sb, gated := m.slices[0], m.slices[1], Output(g, m.gate.mul);
    assert m.slices == [sa, sb];
    MadeOnce(g, i, Add);
    MadeOnce(g, sa, Slice);
    MadeOnce(g, sb, Slice);
    MadeOnce(g, m.gate.mul, Mul);
    ProducerMeans(g, Output(g, sa), Slice, sa);
    ProducerMeans(g, Output(g, sb), Slice, sb);
    ProducerMeans(g, gated, Mul, m.gate.mul);
    PatternIsGate(g, m.gate);
    HalvesMean(g, m);
    OnceOnly(g, Output(g, sa), i);
    OnceOnly(g, Output(g, sb), i);
    GatedReaders(g, gated, sa, sb);
  }

  /** What is to be found at a node, mode by mode. */
  ghost predicate Pattern(g: Graph, mode: Mode, i: nat, m: Match)
    requires i < |g.nodes|
  {
    if mode == ChunkAdd then AddFound(g, i, m) else MulFound(g, i, m)
  }

  /** In each mode a node is matched exactly when its surroundings are the pattern. */
  lemma MatchedExactly(g: Graph, mode: Mode, i: nat, m: Match)
    requires WellFormed(g) && i < |g.nodes|
    ensures MatchOf(g, mode, i) == Some(m) <==> Pattern(g, mode, i, m)
  {
    hide WellFormed, MatchAdd, MatchMul, AddFound, MulFound;
    match mode
    case ChunkAdd =>
      if MatchOf(g, mode, i) == Some(m) { AddIsPattern(g, i, m); }
      if AddFound(g, i, m) { PatternIsAdd(g, i, m); }
    case SigmoidMul => MulMatchedExactly(g, i, m);
    case ScaledSiLU => MulMatchedExactly(g, i, m);
  }

  lemma {:induction false} CandidatesAll(found: seq<Option<Match>>, i: nat)
    requires i < |found| && found[i].Some?
    ensures found[i].value in Candidates(found)
    decreases |found|
  {
    if i < |found| - 1 { CandidatesAll(found[..|found| - 1], i); }
  }

  /** Without a limit or a number the rewrite takes every pattern of the graph, and nothing else. */
  lemma AllPatternsTaken(g: Graph, mode: Mode, m: Match)
    requires WellFormed(g)
    ensures m in Taken(g, mode, None, None) <==> m.replaced < |g.nodes| && Pattern(g, mode, m.replaced, m)
  {
    hide WellFormed, MatchOf, Pattern;
    TablePositioned(g, mode);
    if m in Taken(g, mode, None, None) { CandidatesFound(Table(g, mode), m); }
    if m.replaced < |g.nodes| {
      MatchedExactly(g, mode, m.replaced, m);
      TableAt(g, mode, m.replaced);
      if Pattern(g, mode, m.replaced, m) { CandidatesAll(Table(g, mode), m.replaced); }
    }
  }

  // ----- what the rewrite leaves -----

  ghost predicate Present(g: Graph, mode: Mode, m: Match) {
    m.replaced < |g.nodes| && Pattern(g, mode, m.replaced, m)
  }

  /** The nodes a match does away with. */
  predicate Replaces(mode: Mode, m: Match, j: nat) {
    || j == m.replaced
    || (mode == ChunkAdd && (j == m.gate.mul || j in m.slices))
    || (mode == ScaledSiLU && (j == m.gate.preMul || j == m.gate.sigmoid))
  }

  /** The node put in the place of the last one of a match: it reads the source, and the sigmoid if it is kept. */
  function Fusion(g: Graph, mode: Mode, m: Match): Node
    requires m.replaced < |g.nodes| && m.gate.sigmoid < |g.nodes| && g.nodes[m.gate.sigmoid].outputs != []
  {
    var sig, outputs := g.nodes[m.gate.sigmoid].outputs[0], g.nodes[m.replaced].outputs;
    match mode
    case ChunkAdd => Node(PostSigmoidChunkAdd, [m.gate.source, sig], outputs)
    case SigmoidMul => Node(PostSigmoidMul, [m.gate.source, sig], outputs)
    case ScaledSiLU => Node(ScaledSiLUMul, [m.gate.source], outputs)
  }

  lemma {:induction false} RewrittenHas(g: Graph, mode: Mode, plan: Plan, n: nat, node: Node)
    requires n <= |g.nodes| && AllPlanOk(g, plan)
    ensures node in Rewritten(g, mode, plan, n) <==>
            || (exists i :: 0 <= i < n && i in plan.replacement && node == FusedNode(g, mode, plan.replacement[i]))
            || (exists i :: 0 <= i < n && i !in plan.replacement && i !in plan.ids && node == g.nodes[i])
    decreases n
  {
    hide FusedNode;
    if n > 0 {
      RewrittenHas(g, mode, plan, n - 1, node);
      var i := n - 1;
      var last := if i in plan.replacement then [FusedNode(g, mode, plan.replacement[i])]
                  else if i in plan.ids then [] else [g.nodes[i]];
      assert Rewritten(g, mode, plan, n) == Rewritten(g, mode, plan, i) + last;
      assert node in last <==> (i in plan.replacement && node == FusedNode(g, mode, plan.replacement[i]))
                               || (i !in plan.replacement && i !in plan.ids && node == g.nodes[i]);
    }
  }

  lemma PatternFacts(g: Graph, mode: Mode, m: Match)
    requires WellFormed(g) && Present(g, mode, m)
    ensures m.gate.sigmoid < |g.nodes| && g.nodes[m.gate.sigmoid].outputs == [Output(g, m.gate.sigmoid)]
    ensures g.nodes[m.replaced].outputs == [Output(g, m.replaced)]
    ensures FusedNode(g, mode, m) == Fusion(g, mode, m)
  {
    hide ReadOnce, WellFormed;
  }

  lemma IdsMean(mode: Mode, m: Match, j: nat)
    ensures j in MatchedIds(mode, m) <==> Replaces(mode, m, j)
  {
  }

  /** The plan that takes all matches: its entries are the patterns, its positions the nodes they do away with. */
  lemma FullPlan(g: Graph, mode: Mode, j: nat)
    requires WellFormed(g)
    ensures var plan := PlanOf(mode, Taken(g, mode, None, None));
            && (j in plan.ids <==> exists m :: Present(g, mode, m) && Replaces(mode, m, j))
            && (j in plan.replacement ==> Present(g, mode, plan.replacement[j]) && plan.replacement[j].replaced == j && j in plan.ids)
            && forall m :: Present(g, mode, m) ==> m.replaced in plan.replacement && plan.replacement[m.replaced] == m
  {
    hide WellFormed, Pattern, Taken, MatchedIds, Replaces, Table, PlanOf, FoundIn;
    var taken := Taken(g, mode, None, None);
    var plan := PlanOf(mode, taken);
    PlanOfHolds(mode, taken);
    TakenDistinct(g, mode);
    if j in plan.ids {
      assert TakenBy(mode, taken, j);
      var m :| m in taken && j in MatchedIds(mode, m);
      AllPatternsTaken(g, mode, m);
      IdsMean(mode, m, j);
    }
    if m :| Present(g, mode, m) && Replaces(mode, m, j) {
      AllPatternsTaken(g, mode, m);
      IdsMean(mode, m, j);
      assert MatchedIds(mode, m) <= plan.ids;
    }
    if j in plan.replacement {
      var m := plan.replacement[j];
      AllPatternsTaken(g, mode, m);
      IdsMean(mode, m, j);
      ReplacesOwn(mode, m);
      assert MatchedIds(mode, m) <= plan.ids;
    }
    forall m | Present(g, mode, m) ensures m.replaced in plan.replacement && plan.replacement[m.replaced] == m {
      AllPatternsTaken(g, mode, m);
      PlanOfHasAll(Table(g, mode), mode, taken, m);
    }
  }

  lemma ReplacesOwn(mode: Mode, m: Match)
    ensures Replaces(mode, m, m.replaced)
  {
  }

  lemma TakenDistinct(g: Graph, mode: Mode)
    ensures Distinct(Table(g, mode), Taken(g, mode, None, None))
  {
    var found := Table(g, mode);
    TablePositioned(g, mode);
    assert found[..|found|] == found;
    TakenSoFar(found, |found|, None, None);
  }

  /** The nodes after the rewrite of all matches: the fusion of every pattern, and every node no pattern does
      away with; nothing else. */
  lemma RewrittenNodes(g: Graph, mode: Mode, node: Node)
    requires WellFormed(g)
    ensures node in TakenNodes(g, mode, None, None) <==>
            || (exists m :: Present(g, mode, m) && IsFusion(g, mode, m, node))
            || (exists j :: 0 <= j < |g.nodes| && node == g.nodes[j]
                            && forall m :: Present(g, mode, m) ==> !Replaces(mode, m, j))
  {
    hide WellFormed, Pattern, Taken, Replaces, PlanOf, FusedNode, Fusion, Rewritten;
    var plan := PlanOf(mode, Taken(g, mode, None, None));
    TakenPlanOk(g, mode, None, None);
    RewrittenHas(g, mode, plan, |g.nodes|, node);
    if i :| 0 <= i < |g.nodes| && i in plan.replacement && node == FusedNode(g, mode, plan.replacement[i]) {
      FullPlan(g, mode, i);
      PatternFacts(g, mode, plan.replacement[i]);
      assert IsFusion(g, mode, plan.replacement[i], node);
    }
    if i :| 0 <= i < |g.nodes| && i !in plan.replacement && i !in plan.ids && node == g.nodes[i] {
      FullPlan(g, mode, i);
    }
    if m :| Present(g, mode, m) && IsFusion(g, mode, m, node) {
      FullPlan(g, mode, m.replaced);
      PatternFacts(g, mode, m);
    }
    if j :| 0 <= j < |g.nodes| && node == g.nodes[j] && forall m :: Present(g, mode, m) ==> !Replaces(mode, m, j) {
      FullPlan(g, mode, j);
    }
  }

  ghost predicate IsFusion(g: Graph, mode: Mode, m: Match, node: Node) {
    && m.replaced < |g.nodes| && m.gate.sigmoid < |g.nodes| && g.nodes[m.gate.sigmoid].outputs != []
    && node == Fusion(g, mode, m)
  }
}
