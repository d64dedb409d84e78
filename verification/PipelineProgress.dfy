/** The pipeline never gets stuck: while an item is on its way some thread can move one, and every such step
    brings the end nearer. */
module PipelineProgress {
  import opened Options
  import opened PipelineLine
  import opened Pipeline
  import opened PipelineSafety

  /** Steps that move an item along; the others admit inputs, give slots back, or close and stop. */
  predicate Advances(a: Action) {
    a.PushInput? || a.PushInputFails? || a.PopInput? || a.Finish? || a.Complete? || PublishStep(a) || a.PopOutput?
  }

  function PublisherWeight(p: Publisher): nat {
    match p case Unlocked => 0 case Scanning => 1 case Releasing(_) => 2 case Pushing(_) => 4
  }

  /** A bound on the advancing steps that are left. */
  function Work(s: State): nat {
    10 * |s.line.ticketed| + 9 * |s.line.queue| + 8 * |s.line.working| + 7 * |s.line.finished| + 5 * |s.line.completed|
    + PublisherWeight(s.out.publisher) + |s.out.queue|
  }

  /** A worker exits only when the input queue is closed and empty, and then it stays empty. */
  ghost predicate Manned(s: State, workers: nat) {
    s.counts.active < workers ==> s.inputQueueClosed && s.line.queue == []
  }

  lemma MannedStep(s: State, workers: nat, a: Action)
    requires Manned(s, workers) && Enabled(s, a)
    ensures Manned(Apply(s, a), workers)
  {
  }

  lemma {:induction false} MannedRun(s: State, workers: nat, actions: seq<Action>)
    requires Manned(s, workers) && Exec(s, actions).Some?
    ensures Manned(Exec(s, actions).value, workers)
    decreases |actions|
  {
    if actions != [] {
      MannedStep(s, workers, actions[0]);
      MannedRun(Apply(s, actions[0]), workers, actions[1..]);
    }
  }

  /** Some advancing step is enabled, whatever else the threads do, in every state that is not drained. */
  lemma NotStuck(s: State, workers: nat) returns (a: Action)
    requires Good(s) && Manned(s, workers) && 0 < workers && !Drained(s)
    ensures Enabled(s, a) && Advances(a)
  {
    hide Placed, Carried, Resulted, Scanned, InOrder;
    if !s.out.publisher.Unlocked? {
      PublisherEnabled(s);
      a := PublisherAction(s);
    } else if s.out.queue != [] {
      a := PopOutput;
    } else if s.line.finished != map[] {
      var i :| i in s.line.finished;
      a := Complete(i);
    } else if s.line.working != map[] {
      var i :| i in s.line.working;
      a := Finish(i, None);
    } else if s.line.queue != [] {
      assert s.counts.idle == s.counts.active > 0;
      a := PopInput;
    } else {
      var i :| i in s.line.ticketed;
      SomeTicketed(s.line);
      a := if s.inputQueueClosed then PushInputFails(i) else PushInput(i);
    }
  }

  lemma PushLowers(s: State, a: Action)
    requires Enabled(s, a) && (a.PushInput? || a.PushInputFails?)
    ensures Work(Apply(s, a)) < Work(s)
  {
    RemovedCount(s.line.ticketed, a.sequence);
  }

  lemma PublishLowers(s: State, a: Action)
    requires Enabled(s, a) && (PublishStep(a) || a.PopOutput?)
    ensures Work(Apply(s, a)) < Work(s)
  {
    if a.Scan? && s.line.nextOutput in s.line.completed { RemovedCount(s.line.completed, s.line.nextOutput); }
  }

  lemma OthersKeep(s: State, a: Action)
    requires Enabled(s, a) && !Advances(a) && !a.Ticket?
    ensures Work(Apply(s, a)) == Work(s)
  {
  }

  /** Every advancing step lowers the bound, and only a new input raises it. */
  lemma WorkFalls(s: State, a: Action)
    requires Good(s) && Enabled(s, a)
    ensures Advances(a) ==> Work(Apply(s, a)) < Work(s)
    ensures !Advances(a) && !a.Ticket? ==> Work(Apply(s, a)) == Work(s)
  {
    hide Work, Apply, Enabled, Placed, Carried, Resulted, Counted, InOrder, Scanned;
    if a.PushInput? || a.PushInputFails? { PushLowers(s, a); }
    else if a.PopInput? { PopLowers(s); }
    else if a.Finish? { FinishLowers(s, a.sequence, a.result); }
    else if a.Complete? { CompleteLowers(s, a.sequence); }
    else if Advances(a) { PublishLowers(s, a); }
    else if !a.Ticket? { OthersKeep(s, a); }
  }

  lemma PopLowers(s: State)
    requires Placed(s.line) && Enabled(s, PopInput)
    ensures Work(Apply(s, PopInput)) < Work(s)
  {
    var item := s.line.queue[0];
    OnePlace(s.line, item.sequence);
    AddedCount(s.line.working, item.sequence, item.input);
  }

  lemma FinishLowers(s: State, i: nat, result: Option<Object>)
    requires Placed(s.line) && Enabled(s, Finish(i, result))
    ensures Work(Apply(s, Finish(i, result))) < Work(s)
  {
    OnePlace(s.line, i);
    RemovedCount(s.line.working, i);
    AddedCount(s.line.finished, i, result);
  }

  lemma CompleteLowers(s: State, i: nat)
    requires Placed(s.line) && Enabled(s, Complete(i))
    ensures Work(Apply(s, Complete(i))) < Work(s)
  {
    OnePlace(s.line, i);
    RemovedCount(s.line.finished, i);
    AddedCount(s.line.completed, i, s.line.finished[i]);
  }

  /** Progress of the whole pipeline in any run with a worker, stopped or not: as long as it is not drained
      some thread can advance an item; at most Work(s) advancing steps are left before the next input, whatever
      is done in between. */
  lemma RunProgresses(workers: nat, capacity: nat, actions: seq<Action>) returns (a: Action)
    requires 0 < workers && Exec(Started(workers, capacity), actions).Some?
    requires !Drained(Exec(Started(workers, capacity), actions).value)
    ensures var s := Exec(Started(workers, capacity), actions).value;
            && Enabled(s, a) && Advances(a) && Work(Apply(s, a)) < Work(s)
            && forall b :: Enabled(s, b) && !Advances(b) && !b.Ticket? ==> Work(Apply(s, b)) == Work(s)
  {
    hide Work, Drained, Manned, Good;
    var s0 := Started(workers, capacity);
    var s := Exec(s0, actions).value;
    StartedGood(workers, capacity);
    StartedManned(workers, capacity);
    GoodRun(s0, actions);
    MannedRun(s0, workers, actions);
    a := NotStuck(s, workers);
    WorkFalls(s, a);
    forall b | Enabled(s, b) && !Advances(b) && !b.Ticket? ensures Work(Apply(s, b)) == Work(s) { WorkFalls(s, b); }
  }

  lemma StartedManned(workers: nat, capacity: nat)
    ensures Manned(Started(workers, capacity), workers)
  {
  }

  /** So every reachable state drains when its threads go on: these steps do it. */
  lemma {:induction false} Drains(s: State, workers: nat) returns (actions: seq<Action>)
    requires Good(s) && Manned(s, workers) && 0 < workers
    ensures forall i :: 0 <= i < |actions| ==> Advances(actions[i])
    ensures |actions| <= Work(s)
    ensures Exec(s, actions).Some? && Drained(Exec(s, actions).value) && Good(Exec(s, actions).value)
    decreases Work(s)
  {
    hide Work, Drained, Manned, Good, Enabled;
    if Drained(s) {
      actions := [];
    } else {
      var a := NotStuck(s, workers);
      WorkFalls(s, a);
      GoodStep(s, a);
      MannedStep(s, workers, a);
      var rest := Drains(Apply(s, a), workers);
      actions := [a] + rest;
      assert actions[1..] == rest;
    }
  }

  /** What keeps a slot in a drained pipeline: threads between two of their steps, and results stranded behind
      a lost sequence number.  Without those every slot is free. */
  lemma DrainedSlots(s: State)
    requires Good(s) && Drained(s)
    ensures s.counts.inFlight == s.counts.reserved + s.counts.failing + s.counts.popped + |s.line.completed|
    ensures s.line.lost == {} && !s.out.dropped ==> s.line.completed == map[]
  {
    if s.line.lost == {} && !s.out.dropped {
      DrainedDelivers(s);
      forall i | i in s.line.completed ensures false { OnePlace(s.line, i); }
    }
  }

  /** Threads on their way to giving a slot back are never held up: their steps can be taken at once, and each
      frees one slot. */
  lemma {:induction false} SlotsComeBack(s: State) returns (actions: seq<Action>)
    requires Good(s)
    ensures forall i :: 0 <= i < |actions| ==> actions[i].ReleaseFailed? || actions[i].ReleasePopped?
    ensures |actions| == s.counts.failing + s.counts.popped && Exec(s, actions).Some?
    ensures var t := Exec(s, actions).value;
            && t.counts.inFlight == s.counts.inFlight - |actions| && t.counts.failing == t.counts.popped == 0
            && t.line == s.line && t.out == s.out
    decreases s.counts.failing + s.counts.popped
  {
    if s.counts.failing + s.counts.popped == 0 {
      actions := [];
    } else {
      var a := if s.counts.failing > 0 then ReleaseFailed else ReleasePopped;
      OneComesBack(s, a);
      GoodStep(s, a);
      var rest := SlotsComeBack(Apply(s, a));
      actions := [a] + rest;
      assert actions[1..] == rest;
    }
  }

  lemma OneComesBack(s: State, a: Action)
    requires Good(s)
    requires (a == ReleaseFailed && s.counts.failing > 0) || (a == ReleasePopped && s.counts.popped > 0)
    ensures Enabled(s, a)
    ensures var t := Apply(s, a);
            && t.counts.inFlight == s.counts.inFlight - 1 && t.line == s.line && t.out == s.out
            && t.counts.failing + t.counts.popped == s.counts.failing + s.counts.popped - 1
  {
    hide Placed, Carried, Resulted, InOrder, Scanned;
  }
}
