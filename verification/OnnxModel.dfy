/** rewrite_model: choosing matches, and the loop over the graph. */
module OnnxModel {
  import opened Options
  import opened Tensors
  import opened OnnxGraph
  import opened OnnxRewrite
  import opened OnnxPreserve
  import opened OnnxCorrect

  // ----- two matches never share a node -----

  ghost predicate ChunkOps(g: Graph, m: Match) {
    && m.replaced < |g.nodes| && m.gate.mul < |g.nodes| && |m.slices| == 2
    && m.slices[0] < |g.nodes| && m.slices[1] < |g.nodes|
    && g.nodes[m.replaced].op == Add && g.nodes[m.gate.mul].op == Mul
    && g.nodes[m.slices[0]].op == Slice && g.nodes[m.slices[1]].op == Slice
  }

  lemma DisjointByOps(g: Graph, a: Match, b: Match)
    requires ChunkOps(g, a) && ChunkOps(g, b) && a.replaced != b.replaced && a.gate.mul != b.gate.mul
    requires a.slices[0] != b.slices[0] && a.slices[0] != b.slices[1]
    requires a.slices[1] != b.slices[0] && a.slices[1] != b.slices[1]
    ensures MatchedIds(ChunkAdd, a) !! MatchedIds(ChunkAdd, b)
  {
    assert a.slices == [a.slices[0], a.slices[1]] && b.slices == [b.slices[0], b.slices[1]];
  }

  lemma ChunkMatchesDisjoint(g: Graph, a: Match, b: Match)
    requires MatchShape(g, ChunkAdd, a) && MatchShape(g, ChunkAdd, b) && a.replaced != b.replaced
    ensures MatchedIds(ChunkAdd, a) !! MatchedIds(ChunkAdd, b)
  {
    SlicesDisjoint(g, a, b);
    if a.gate.mul == b.gate.mul { SliceShared(g, a, b); }
    DisjointByOps(g, a, b);
  }

  lemma SlicesDisjoint(g: Graph, a: Match, b: Match)
    requires MatchShape(g, ChunkAdd, a) && MatchShape(g, ChunkAdd, b) && a.replaced != b.replaced
    ensures a.slices[0] != b.slices[0] && a.slices[0] != b.slices[1]
    ensures a.slices[1] != b.slices[0] && a.slices[1] != b.slices[1]
  {
    assert Output(g, b.slices[0]) in g.nodes[b.replaced].inputs;
    assert Output(g, b.slices[1]) in g.nodes[b.replaced].inputs;
  }

  lemma SliceShared(g: Graph, a: Match, b: Match)
    requires MatchShape(g, ChunkAdd, a) && MatchShape(g, ChunkAdd, b) && a.gate.mul == b.gate.mul
    ensures b.slices[0] == a.slices[0] || b.slices[0] == a.slices[1]
  {
    assert Output(g, a.gate.mul) in g.nodes[b.slices[0]].inputs;
  }

  lemma SiLUMatchesDisjoint(g: Graph, a: Match, b: Match)
    requires WellFormed(g) && MatchShape(g, ScaledSiLU, a) && MatchShape(g, ScaledSiLU, b) && a.replaced != b.replaced
    ensures MatchedIds(ScaledSiLU, a) !! MatchedIds(ScaledSiLU, b)
  {
    assert Output(g, a.gate.preMul) in g.nodes[a.gate.sigmoid].inputs;
    assert Output(g, b.gate.preMul) in g.nodes[b.gate.sigmoid].inputs;
    assert Output(g, a.gate.sigmoid) in g.nodes[a.replaced].inputs;
    assert Output(g, b.gate.sigmoid) in g.nodes[b.replaced].inputs;
  }

  lemma MatchesDisjoint(g: Graph, mode: Mode, i: nat, j: nat, a: Match, b: Match)
    requires WellFormed(g) && i < |g.nodes| && j < |g.nodes| && i != j
    requires MatchOf(g, mode, i) == Some(a) && MatchOf(g, mode, j) == Some(b)
    ensures MatchedIds(mode, a) !! MatchedIds(mode, b)
  {
    MatchMeans(g, mode, i, a);
    MatchMeans(g, mode, j, b);
    match mode
    case ChunkAdd => ChunkMatchesDisjoint(g, a, b);
    case SigmoidMul =>
    case ScaledSiLU => SiLUMatchesDisjoint(g, a, b);
  }

  // ----- which matches are taken -----

  /** What the matcher says of every node. */
  function Table(g: Graph, mode: Mode): (found: seq<Option<Match>>)
    ensures |found| == |g.nodes|
  {
    seq(|g.nodes|, i requires 0 <= i < |g.nodes| => MatchOf(g, mode, i))
  }

  /** All matches in node order. */
  function Candidates(found: seq<Option<Match>>): seq<Match> {
    if found == [] then []
    else
      var last := found[|found| - 1];
      Candidates(found[..|found| - 1]) + if last.Some? then [last.value] else []
  }

  /** The candidate with the requested number, or all of them. */
  function Eligible(candidates: seq<Match>, only: Option<int>): seq<Match> {
    if only.None? then candidates
    else if 0 <= only.value < |candidates| then [candidates[only.value]] else []
  }

  /** At most the requested number of them. */
  function Chosen(candidates: seq<Match>, only: Option<int>, limit: Option<int>): seq<Match> {
    var eligible := Eligible(candidates, only);
    if limit.None? || |eligible| <= limit.value then eligible
    else if limit.value <= 0 then [] else eligible[..limit.value]
  }

  function PlanOf(mode: Mode, matches: seq<Match>): Plan {
    if matches == [] then Plan(map[], {})
    else
      var m, rest := matches[|matches| - 1], PlanOf(mode, matches[..|matches| - 1]);
      Plan(rest.replacement[m.replaced := m], rest.ids + MatchedIds(mode, m))
  }

  lemma {:induction false} CandidatesGrow(found: seq<Option<Match>>, i: nat)
    requires i <= |found|
    ensures Candidates(found[..i]) <= Candidates(found)
  {
    if i == |found| {
      assert found[..i] == found;
    } else {
      assert found[..|found| - 1][..i] == found[..i];
      CandidatesGrow(found[..|found| - 1], i);
    }
  }

  ghost predicate FoundIn(found: seq<Option<Match>>, m: Match) {
    m.replaced < |found| && found[m.replaced] == Some(m)
  }

  /** A table whose entries name their own position. */
  ghost predicate Positioned(found: seq<Option<Match>>) {
    forall i :: 0 <= i < |found| && found[i].Some? ==> found[i].value.replaced == i
  }

  lemma {:induction false} CandidatesFound(found: seq<Option<Match>>, m: Match)
    requires Positioned(found) && m in Candidates(found)
    ensures FoundIn(found, m)
  {
    var front := found[..|found| - 1];
    if m in Candidates(front) { CandidatesFound(front, m); }
  }

  /** Once the limit is reached, later candidates change nothing. */
  lemma ChosenIsFinal(some: seq<Match>, all: seq<Match>, only: Option<int>, limit: int)
    requires some <= all && limit <= |Chosen(some, only, Option.Some(limit))|
    ensures Chosen(all, only, Option.Some(limit)) == Chosen(some, only, Option.Some(limit))
  {
  }

  lemma ChosenStep(candidates: seq<Match>, m: Match, only: Option<int>, limit: Option<int>)
    requires limit.Some? ==> |Chosen(candidates, only, limit)| < limit.value
    ensures Chosen(candidates + [m], only, limit)
         == Chosen(candidates, only, limit) + if only.None? || only.value == |candidates| then [m] else []
  {
  }

  lemma ChosenAreCandidates(candidates: seq<Match>, only: Option<int>, limit: Option<int>)
    ensures forall m :: m in Chosen(candidates, only, limit) ==> m in candidates
  {
  }

  lemma {:induction false} PlanOfHolds(mode: Mode, matches: seq<Match>)
    ensures forall i :: i in PlanOf(mode, matches).replacement ==>
              PlanOf(mode, matches).replacement[i] in matches && PlanOf(mode, matches).replacement[i].replaced == i
    ensures forall m :: m in matches ==> MatchedIds(mode, m) <= PlanOf(mode, matches).ids
    ensures forall j :: j in PlanOf(mode, matches).ids ==> TakenBy(mode, matches, j)
  {
    if matches != [] {
      var last, front := matches[|matches| - 1], matches[..|matches| - 1];
      assert matches == front + [last];
      PlanOfHolds(mode, front);
      forall j | j in PlanOf(mode, matches).ids ensures TakenBy(mode, matches, j) {
        if j !in MatchedIds(mode, last) {
          assert TakenBy(mode, front, j);
          var m :| m in front && j in MatchedIds(mode, m);
          assert m in matches;
        }
      }
    }
  }

  ghost predicate TakenBy(mode: Mode, matches: seq<Match>, j: nat) {
    exists m :: m in matches && j in MatchedIds(mode, m)
  }

  /** Different matches, different replaced nodes. */
  ghost predicate Distinct(found: seq<Option<Match>>, matches: seq<Match>) {
    forall m :: m in matches ==> FoundIn(found, m)
  }

  lemma {:induction false} PlanOfHasAll(found: seq<Option<Match>>, mode: Mode, matches: seq<Match>, m: Match)
    requires Distinct(found, matches) && m in matches
    ensures m.replaced in PlanOf(mode, matches).replacement && PlanOf(mode, matches).replacement[m.replaced] == m
  {
    var last, front := matches[|matches| - 1], matches[..|matches| - 1];
    assert matches == front + [last];
    if m != last {
      assert m in front;
      PlanOfHasAll(found, mode, front, m);
      assert FoundIn(found, m) && FoundIn(found, last);
    }
  }

  lemma TableAt(g: Graph, mode: Mode, i: nat)
    requires i < |g.nodes|
    ensures Table(g, mode)[i] == MatchOf(g, mode, i)
  {
  }

  lemma TablePositioned(g: Graph, mode: Mode)
    ensures Positioned(Table(g, mode))
  {
    forall i | 0 <= i < |g.nodes| && Table(g, mode)[i].Some? ensures Table(g, mode)[i].value.replaced == i {
      MatchFound(g, mode, i, Table(g, mode)[i].value);
    }
  }

  lemma FoundIsValid(g: Graph, mode: Mode, matches: seq<Match>)
    requires Distinct(Table(g, mode), matches)
    ensures ValidPlan(g, mode, PlanOf(mode, matches))
  {
    var plan := PlanOf(mode, matches);
    PlanOfHolds(mode, matches);
    forall i | i in plan.replacement ensures i < |g.nodes| && MatchOf(g, mode, i) == Some(plan.replacement[i]) {
      assert FoundIn(Table(g, mode), plan.replacement[i]);
      TableAt(g, mode, i);
    }
    forall j | j in plan.ids ensures MatchedBy(mode, plan, j) {
      assert TakenBy(mode, matches, j);
      var m :| m in matches && j in MatchedIds(mode, m);
      PlanOfHasAll(Table(g, mode), mode, matches, m);
    }
  }

  /** No new match shares a node with the matches taken before it. */
  lemma NoOverlap(g: Graph, mode: Mode, matches: seq<Match>, i: nat, m: Match)
    requires WellFormed(g) && i < |g.nodes| && Table(g, mode)[i] == Some(m)
    requires forall k :: k in matches ==> k.replaced < i && FoundIn(Table(g, mode), k)
    ensures PlanOf(mode, matches).ids !! MatchedIds(mode, m)
  {
    PlanOfHolds(mode, matches);
    TableAt(g, mode, i);
    forall j | j in PlanOf(mode, matches).ids ensures j !in MatchedIds(mode, m) {
      assert TakenBy(mode, matches, j);
      var k :| k in matches && j in MatchedIds(mode, k);
      TableAt(g, mode, k.replaced);
      MatchesDisjoint(g, mode, k.replaced, i, k, m);
    }
  }

  // ----- the loop -----

  datatype Outcome = Done(nodes: seq<Node>, matches: seq<Match>) | Overlapping(node: nat)

  /** The matches rewrite_model takes. */
  function Taken(g: Graph, mode: Mode, limit: Option<int>, only: Option<int>): seq<Match> {
    Chosen(Candidates(Table(g, mode)), only, limit)
  }

  lemma TakenSoFar(found: seq<Option<Match>>, i: nat, only: Option<int>, limit: Option<int>)
    requires Positioned(found) && i <= |found|
    ensures forall m :: m in Chosen(Candidates(found[..i]), only, limit) ==> m.replaced < i && FoundIn(found, m)
  {
    ChosenAreCandidates(Candidates(found[..i]), only, limit);
    forall m | m in Candidates(found[..i]) ensures m.replaced < i && FoundIn(found, m) {
      CandidatesFound(found[..i], m);
    }
  }

  lemma TakenIsValid(g: Graph, mode: Mode, limit: Option<int>, only: Option<int>)
    ensures ValidPlan(g, mode, PlanOf(mode, Taken(g, mode, limit, only)))
    ensures var plan := PlanOf(mode, Taken(g, mode, limit, only));
            AllPlanOk(g, plan)
  {
    var found := Table(g, mode);
    TablePositioned(g, mode);
    assert found[..|found|] == found;
    TakenSoFar(found, |found|, only, limit);
    FoundIsValid(g, mode, Taken(g, mode, limit, only));
    PlanIsOk(g, mode, PlanOf(mode, Taken(g, mode, limit, only)));
  }

  lemma OverlapExcluded(g: Graph, mode: Mode, i: nat, only: Option<int>, limit: Option<int>)
    requires i < |g.nodes| && Table(g, mode)[i].Some?
    ensures var taken := PlanOf(mode, Chosen(Candidates(Table(g, mode)[..i]), only, limit));
            WellFormed(g) ==> taken.ids * MatchedIds(mode, Table(g, mode)[i].value) == {}
  {
    TablePositioned(g, mode);
    TakenSoFar(Table(g, mode), i, only, limit);
    if WellFormed(g) {
      NoOverlap(g, mode, Chosen(Candidates(Table(g, mode)[..i]), only, limit), i, Table(g, mode)[i].value);
    }
  }

  method FindMatch(g: Graph, produced: Producers, consumes: Consumers, mode: Mode, i: nat)
    returns (found: Option<Match>)
    requires produced == ProducerMap(g.nodes) && consumes == ConsumerMap(g.nodes) && i < |g.nodes|
    ensures found == Table(g, mode)[i]
  {
    found := MatchAt(g, produced, consumes, mode, i);
    TableAt(g, mode, i);
  }

  /** The loop over all nodes; the position where two matches overlap, if it meets one. */
  method ChooseMatches(g: Graph, mode: Mode, limit: Option<int>, only: Option<int>)
    returns (overlap: Option<nat>, matches: seq<Match>, plan: Plan)
    ensures WellFormed(g) ==> overlap.None?
    ensures overlap.None? ==> matches == Taken(g, mode, limit, only) && plan == PlanOf(mode, matches)
  {
    hide WellFormed, Chosen, Candidates, PlanOf, MatchedIds, Table;
    var produced := NodeOutputMap(g.nodes);
    var consumes := BuildConsumerMap(g.nodes);
    ghost var table := Table(g, mode);
    SoFarStart(table, mode, only, limit);
    var ids: set<nat>, replacement: map<nat, Match> := {}, map[];
    matches, plan := [], Plan(replacement, ids);
    var candidateIndex, i := 0, 0;
    while i < |g.nodes| && (limit.Some? ==> |matches| < limit.value)
      invariant 0 <= i <= |g.nodes| && plan == Plan(replacement, ids)
      invariant SoFar(table, mode, i, only, limit, candidateIndex, matches, plan)
    {
      var found := FindMatch(g, produced, consumes, mode, i);
      ghost var skip := SoFarStep(table, mode, i, only, limit, candidateIndex, matches, plan);
      if found.Some? {
        if only.None? || candidateIndex == only.value {
          var matched := MatchedIds(mode, found.value);
          OverlapExcluded(g, mode, i, only, limit);
          if ids * matched != {} { return Some(i), matches, plan; }
          ids, replacement := ids + matched, replacement[found.value.replaced := found.value];
          matches := matches + [found.value];
        }
        candidateIndex := candidateIndex + 1;
      }
      plan := Plan(replacement, ids);
      i := i + 1;
    }
    TakenAtEnd(table, i, only, limit);
    overlap := None;
  }

  /** Replaces the chosen matches.  On a well-formed graph it never reports an overlap. */
  method RewriteModel(g: Graph, mode: Mode, limit: Option<int>, only: Option<int>) returns (outcome: Outcome)
    ensures WellFormed(g) ==> outcome.Done?
    ensures outcome.Done? ==> outcome.matches == Taken(g, mode, limit, only)
    ensures outcome.Done? ==> outcome.nodes == TakenNodes(g, mode, limit, only)
  {
    var overlap, matches, plan := ChooseMatches(g, mode, limit, only);
    if overlap.Some? { return Overlapping(overlap.value); }
    TakenPlanOk(g, mode, limit, only);
    var nodes := EmitNodes(g, mode, plan);
    return Done(nodes, matches);
  }

  /** What the loop has after i nodes. */
  ghost predicate SoFar(found: seq<Option<Match>>, mode: Mode, i: nat, only: Option<int>, limit: Option<int>,
                        candidateIndex: int, matches: seq<Match>, plan: Plan)
  {
    && i <= |found| && candidateIndex == |Candidates(found[..i])|
    && matches == Chosen(Candidates(found[..i]), only, limit) && plan == PlanOf(mode, matches)
  }

  lemma SoFarStart(found: seq<Option<Match>>, mode: Mode, only: Option<int>, limit: Option<int>)
    ensures SoFar(found, mode, 0, only, limit, 0, [], Plan(map[], {}))
  {
  }

  lemma SoFarStep(found: seq<Option<Match>>, mode: Mode, i: nat, only: Option<int>, limit: Option<int>,
                  candidateIndex: int, matches: seq<Match>, plan: Plan) returns (skip: bool)
    requires SoFar(found, mode, i, only, limit, candidateIndex, matches, plan) && i < |found|
    requires limit.Some? ==> |matches| < limit.value
    ensures skip <==> found[i].None? || (only.Some? && candidateIndex != only.value)
    ensures skip ==> SoFar(found, mode, i + 1, only, limit, candidateIndex + if found[i].Some? then 1 else 0, matches, plan)
    ensures !skip ==>
              var m := found[i].value;
              SoFar(found, mode, i + 1, only, limit, candidateIndex + 1, matches + [m],
                    Plan(plan.replacement[m.replaced := m], plan.ids + MatchedIds(mode, m)))
  {
    skip := found[i].None? || (only.Some? && candidateIndex != only.value);
    assert found[..i + 1][..i] == found[..i];
    if found[i].Some? {
      ChosenStep(Candidates(found[..i]), found[i].value, only, limit);
      PlanOfStep(mode, matches, found[i].value);
    }
  }

  lemma TakenPlanOk(g: Graph, mode: Mode, limit: Option<int>, only: Option<int>)
    ensures var plan := PlanOf(mode, Taken(g, mode, limit, only));
            AllPlanOk(g, plan)
  {
    TakenIsValid(g, mode, limit, only);
  }

  /** The nodes rewrite_model leaves. */
  function TakenNodes(g: Graph, mode: Mode, limit: Option<int>, only: Option<int>): seq<Node> {
    TakenPlanOk(g, mode, limit, only);
    Rewritten(g, mode, PlanOf(mode, Taken(g, mode, limit, only)), |g.nodes|)
  }

  lemma PlanOfStep(mode: Mode, matches: seq<Match>, m: Match)
    ensures var plan := PlanOf(mode, matches);
            PlanOf(mode, matches + [m]) == Plan(plan.replacement[m.replaced := m], plan.ids + MatchedIds(mode, m))
  {
    assert (matches + [m])[..|matches|] == matches;
  }

  /** The loop may stop early, at the limit: what it has is what the whole graph gives. */
  lemma TakenAtEnd(found: seq<Option<Match>>, i: nat, only: Option<int>, limit: Option<int>)
    requires i <= |found|
    requires i < |found| ==> limit.Some? && limit.value <= |Chosen(Candidates(found[..i]), only, limit)|
    ensures Chosen(Candidates(found[..i]), only, limit) == Chosen(Candidates(found), only, limit)
  {
    if i == |found| {
      assert found[..i] == found;
    } else {
      CandidatesGrow(found, i);
      ChosenIsFinal(Candidates(found[..i]), Candidates(found), only, limit.value);
    }
  }

  /** The second loop of rewrite_model. */
  method EmitNodes(g: Graph, mode: Mode, plan: Plan) returns (nodes: seq<Node>)
    requires AllPlanOk(g, plan)
    ensures nodes == Rewritten(g, mode, plan, |g.nodes|)
  {
    nodes := [];
    for i := 0 to |g.nodes|
      invariant nodes == Rewritten(g, mode, plan, i)
    {
      if i in plan.replacement {
        nodes := nodes + [FusedNode(g, mode, plan.replacement[i])];
      } else if i !in plan.ids {
        nodes := nodes + [g.nodes[i]];
      }
    }
  }

  /** End to end: whatever limit or number the caller asks for, if the chosen matches are safe then the
      rewritten graph is ordered and every graph output keeps its value in every run. */
  lemma RewriteModelPreserves(g: Graph, sem: Semantics, env: Env, mode: Mode, limit: Option<int>, only: Option<int>)
    requires WellFormed(g) && StartOf(g, env) && ShapesHold(g, Eval(sem, env, g.nodes))
    requires forall m :: m in Taken(g, mode, limit, only) ==> Safe(g, mode, m)
    ensures var after := TakenNodes(g, mode, limit, only);
            && Ordered(Base(g), after)
            && forall name :: name in g.outputs ==>
                 && name in Eval(sem, env, after) && name in Eval(sem, env, g.nodes)
                 && Eval(sem, env, after)[name] == Eval(sem, env, g.nodes)[name]
  {
    TakenIsValid(g, mode, limit, only);
    PlanOfHolds(mode, Taken(g, mode, limit, only));
    RewritePreserves(g, sem, env, mode, PlanOf(mode, Taken(g, mode, limit, only)));
  }
}
