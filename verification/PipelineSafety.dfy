/** What holds over whole runs of the pipeline. */
module PipelineSafety {
  import opened Options
  import opened PipelineLine
  import opened Pipeline

  // ----- safety, over all interleavings -----

  lemma StartedGood(workers: nat, capacity: nat)
    ensures Good(Started(workers, capacity))
  {
  }

  lemma {:induction false} NonNullGrows(results: Results, n: nat, m: nat)
    requires n <= m
    ensures NonNull(results, n) <= NonNull(results, m)
  {
    if n < m { NonNullGrows(results, n, m - 1); }
  }

  /** The in-flight bound: every slot has one owner, so there is always room for the push of whoever
      owns one; and what consumers got is a prefix of the non-null results in sequence order. */
  lemma RunIsSafe(workers: nat, capacity: nat, actions: seq<Action>)
    requires Exec(Started(workers, capacity), actions).Some?
    ensures var s := Exec(Started(workers, capacity), actions).value;
            && s.counts.inFlight == Owners(s) <= capacity
            && (s.line.ticketed != map[] ==> |s.line.queue| < capacity)
            && (s.out.publisher.Pushing? ==> |s.out.queue| < capacity)
            && s.out.delivered <= NonNull(s.results, s.line.nextSequence)
  {
    StartedGood(workers, capacity);
    GoodRun(Started(workers, capacity), actions);
    var s := Exec(Started(workers, capacity), actions).value;
    CapacityKept(Started(workers, capacity), actions);
    NonNullGrows(s.results, s.line.nextOutput, s.line.nextSequence);
    if s.line.ticketed != map[] { SomeTicketed(s.line); }
  }

  lemma SomeTicketed(l: Line)
    requires l.ticketed != map[]
    ensures |l.ticketed| > 0
  {
  }

  lemma {:induction false} CapacityKept(s: State, actions: seq<Action>)
    requires Exec(s, actions).Some?
    ensures Exec(s, actions).value.capacity == s.capacity
    decreases |actions|
  {
    if actions != [] { CapacityKept(Apply(s, actions[0]), actions[1..]); }
  }

  /** The next step of whoever holds the reorder lock. */
  function PublisherAction(s: State): Action
    requires !s.out.publisher.Unlocked?
  {
    match s.out.publisher
    case Scanning => Scan
    case Pushing(_) => if s.out.closed then PushOutputFails else PushOutput
    case Releasing(_) => ReleasePublished
  }

  /** A bound on the steps left until the lock is released. */
  function PublisherWork(s: State): nat {
    3 * |s.line.completed|
    + match s.out.publisher case Unlocked => 0 case Scanning => 1 case Releasing(_) => 2 case Pushing(_) => 3
  }

  lemma PublisherEnabled(s: State)
    requires Counted(s) && !s.out.publisher.Unlocked?
    ensures Enabled(s, PublisherAction(s))
  {
  }

  lemma PublisherProgress(s: State)
    requires !s.out.publisher.Unlocked? && Enabled(s, PublisherAction(s))
    ensures PublisherWork(Apply(s, PublisherAction(s))) < PublisherWork(s)
  {
    if s.out.publisher.Scanning? && s.line.nextOutput in s.line.completed {
      RemovedCount(s.line.completed, s.line.nextOutput);
    }
  }

  lemma OthersDoNotDelay(s: State, a: Action)
    requires !s.out.publisher.Unlocked? && Enabled(s, a) && !PublishStep(a)
    ensures Apply(s, a).line.completed == s.line.completed && Apply(s, a).out.publisher == s.out.publisher
  {
  }

  /** The holder of the reorder lock never waits, each of its steps brings the release nearer, and no
      other thread's step puts it off: publishing under the lock cannot block. */
  lemma PublishingNeverBlocks(s: State, a: Action)
    requires Good(s) && !s.out.publisher.Unlocked?
    ensures Enabled(s, PublisherAction(s))
    ensures PublisherWork(Apply(s, PublisherAction(s))) < PublisherWork(s)
    ensures Enabled(s, a) && !PublishStep(a) ==> PublisherWork(Apply(s, a)) == PublisherWork(s)
  {
    PublisherEnabled(s);
    PublisherProgress(s);
    if Enabled(s, a) && !PublishStep(a) { OthersDoNotDelay(s, a); }
  }

  predicate PublishStep(a: Action) {
    a.Scan? || a.PushOutput? || a.PushOutputFails? || a.ReleasePublished?
  }

  /** A producer past the wait in AddInput never waits again. */
  lemma ProducerNeverBlocks(s: State, i: nat)
    requires Good(s) && i in s.line.ticketed
    ensures Enabled(s, PushInput(i)) || Enabled(s, PushInputFails(i))
  {
    assert |s.line.ticketed| > 0;
  }

  // ----- a processor that is a function -----

  /** Every Finish step returns what the processor says of its input; None stands for null or a throw. */
  ghost predicate Obeys(processor: Object -> Option<Object>, s: State, actions: seq<Action>)
    decreases |actions|
  {
    actions != [] && Enabled(s, actions[0]) ==>
      && (actions[0].Finish? ==> actions[0].result == processor(s.line.working[actions[0].sequence]))
      && Obeys(processor, Apply(s, actions[0]), actions[1..])
  }

  ghost predicate Computed(processor: Object -> Option<Object>, s: State) {
    forall i :: i in s.results ==> i < |s.inputs| && s.results[i] == processor(s.inputs[i])
  }

  lemma ComputedStep(processor: Object -> Option<Object>, s: State, a: Action)
    requires Good(s) && Computed(processor, s) && Enabled(s, a)
    requires a.Finish? ==> a.result == processor(s.line.working[a.sequence])
    ensures Computed(processor, Apply(s, a))
  {
  }

  lemma {:induction false} ComputedRun(processor: Object -> Option<Object>, s: State, actions: seq<Action>)
    requires Good(s) && Computed(processor, s) && Obeys(processor, s, actions) && Exec(s, actions).Some?
    ensures Computed(processor, Exec(s, actions).value)
    decreases |actions|
  {
    if actions != [] {
      GoodStep(s, actions[0]);
      ComputedStep(processor, s, actions[0]);
      ComputedRun(processor, Apply(s, actions[0]), actions[1..]);
    }
  }

  /** Running the processor over the inputs one after the other, dropping nulls. */
  function Sequential(processor: Object -> Option<Object>, inputs: seq<Object>): seq<Entry> {
    if inputs == [] then []
    else
      var n := |inputs| - 1;
      Sequential(processor, inputs[..n]) + Published(n, processor(inputs[n]))
  }

  lemma {:induction false} NonNullIsSequential(processor: Object -> Option<Object>, results: Results,
                                               inputs: seq<Object>, n: nat)
    requires n <= |inputs|
    requires forall i: nat :: i < n ==> i in results && results[i] == processor(inputs[i])
    ensures NonNull(results, n) == Sequential(processor, inputs[..n])
  {
    if n > 0 {
      NonNullIsSequential(processor, results, inputs, n - 1);
      assert inputs[..n][..n - 1] == inputs[..n - 1];
    }
  }

  lemma {:induction false} SequentialGrows(processor: Object -> Option<Object>, inputs: seq<Object>, n: nat)
    requires n <= |inputs|
    ensures Sequential(processor, inputs[..n]) <= Sequential(processor, inputs)
    decreases |inputs| - n
  {
    if n == |inputs| {
      assert inputs[..n] == inputs;
    } else {
      SequentialGrows(processor, inputs, n + 1);
      assert inputs[..n + 1][..n] == inputs[..n];
    }
  }

  /** However the threads interleave, the consumers see a prefix of the sequential computation. */
  lemma RefinesSequential(workers: nat, capacity: nat, processor: Object -> Option<Object>, actions: seq<Action>)
    requires Exec(Started(workers, capacity), actions).Some?
    requires Obeys(processor, Started(workers, capacity), actions)
    ensures var s := Exec(Started(workers, capacity), actions).value;
            s.out.delivered <= Sequential(processor, s.inputs)
  {
    StartedGood(workers, capacity);
    GoodRun(Started(workers, capacity), actions);
    ComputedRun(processor, Started(workers, capacity), actions);
    var s := Exec(Started(workers, capacity), actions).value;
    NonNullIsSequential(processor, s.results, s.inputs, s.line.nextOutput);
    SequentialGrows(processor, s.inputs, s.line.nextOutput);
  }

  // ----- what is delivered in the end -----

  /** No producer between ticket and queue, no item anywhere before the consumers. */
  predicate Drained(s: State) {
    && s.line.ticketed == map[] && s.line.queue == [] && s.line.working == map[] && s.line.finished == map[]
    && s.out.publisher.Unlocked? && s.out.queue == []
  }

  ghost predicate WithoutStop(s: State) {
    (s.running || s.counts.active == 0) && (s.out.closed ==> !s.running) && !s.out.dropped
  }

  lemma WithoutStopStep(s: State, a: Action)
    requires Counted(s) && WithoutStop(s) && Enabled(s, a) && !a.Stop?
    ensures WithoutStop(Apply(s, a))
  {
  }

  lemma {:induction false} WithoutStopRun(s: State, actions: seq<Action>)
    requires Good(s) && WithoutStop(s) && Exec(s, actions).Some? && Stop !in actions
    ensures WithoutStop(Exec(s, actions).value)
    decreases |actions|
  {
    if actions != [] {
      GoodStep(s, actions[0]);
      assert actions[0] in actions;
      WithoutStopStep(s, actions[0]);
      WithoutStopRun(Apply(s, actions[0]), actions[1..]);
    }
  }

  /** Exactly what a drained pipeline has delivered: everything before the first lost sequence number. */
  lemma DrainedDelivers(s: State)
    requires Good(s) && Drained(s) && !s.out.dropped
    ensures s.out.delivered == NonNull(s.results, s.line.nextOutput)
    ensures s.line.nextOutput < s.line.nextSequence ==> s.line.nextOutput in s.line.lost
    ensures forall l :: l in s.line.lost ==> s.line.nextOutput <= l
  {
    OnePlace(s.line, s.line.nextOutput);
    forall l | l in s.line.lost ensures s.line.nextOutput <= l { OnePlace(s.line, l); }
  }

  /** A run that is never stopped and drains has delivered every accepted input's result exactly when no
      push failed for a lower sequence number than an accepted one. */
  lemma DrainedCompletely(workers: nat, capacity: nat, actions: seq<Action>)
    requires 0 < workers && Exec(Started(workers, capacity), actions).Some? && Stop !in actions
    requires Drained(Exec(Started(workers, capacity), actions).value)
    ensures var s := Exec(Started(workers, capacity), actions).value;
            && (forall i: nat :: i < s.line.nextSequence ==> i in s.results || i in s.line.lost)
            && ((forall i :: i in s.results ==> i < s.line.nextOutput)
                <==> forall i, l :: i in s.results && l in s.line.lost ==> i < l)
            && s.out.delivered == NonNull(s.results, s.line.nextOutput)
  {
    StartedGood(workers, capacity);
    GoodRun(Started(workers, capacity), actions);
    WithoutStopRun(Started(workers, capacity), actions);
    var s := Exec(Started(workers, capacity), actions).value;
    DrainedDelivers(s);
    forall i: nat | i < s.line.nextSequence ensures i in s.results || i in s.line.lost { OnePlace(s.line, i); }
    forall i | i in s.results ensures i < s.line.nextSequence && i !in s.line.lost { OnePlace(s.line, i); }
  }

  // ----- one producer -----

  predicate OneProducer(s: State) {
    s.counts.reserved + |s.line.ticketed| <= 1
  }

  /** In every state of the run there is at most one producer inside AddInput. */
  ghost predicate OneProducerRun(s: State, actions: seq<Action>)
    decreases |actions|
  {
    OneProducer(s) && (actions != [] && Enabled(s, actions[0]) ==> OneProducerRun(Apply(s, actions[0]), actions[1..]))
  }

  ghost predicate LostLast(s: State) {
    LostAfterAccepted(s.line, s.inputQueueClosed)
  }

  /** Losses start only when the queue is closed, and then take every later number. */
  ghost predicate LostAfterAccepted(l: Line, closed: bool) {
    && (l.lost != {} ==> closed)
    && (forall i :: i in l.ticketed ==> i == l.nextSequence - 1)
    && (forall x, i: nat :: x in l.lost && x < i < l.nextSequence ==> i in l.lost || i in l.ticketed)
  }

  lemma NoneTicketed(l: Line)
    requires |l.ticketed| == 0
    ensures l.ticketed == map[]
  {
  }

  lemma LostLastMove(l: Line, closed: bool, m: Move)
    requires Placed(l) && CanMove(l, m) && LostAfterAccepted(l, closed)
    requires m.ToTicket? ==> |l.ticketed| == 0
    requires m.ToLost? ==> closed
    requires m.ToQueue? ==> !closed
    ensures LostAfterAccepted(Moved(l, m), closed)
  {
    if m.ToTicket? { NoneTicketed(l); }
    if m.ToLost? { OnePlace(l, m.sequence); }
  }

  lemma LostLastStep(s: State, a: Action)
    requires Placed(s.line) && LostLast(s) && OneProducer(s) && Enabled(s, a)
    ensures LostLast(Apply(s, a))
  {
    if MoveOf(s, a).Some? { LostLastMove(s.line, s.inputQueueClosed, MoveOf(s, a).value); }
  }

  lemma {:induction false} LostLastRun(s: State, actions: seq<Action>)
    requires Good(s) && LostLast(s) && OneProducerRun(s, actions) && Exec(s, actions).Some?
    ensures LostLast(Exec(s, actions).value)
    decreases |actions|
  {
    if actions != [] {
      GoodStep(s, actions[0]);
      LostLastStep(s, actions[0]);
      LostLastRun(Apply(s, actions[0]), actions[1..]);
    }
  }

  /** With one producer nothing accepted is ever stranded: once drained, all results are delivered and
      the in-flight count is back to the threads still between two of their steps. */
  lemma OneProducerDeliversAll(workers: nat, capacity: nat, actions: seq<Action>)
    requires 0 < workers && Exec(Started(workers, capacity), actions).Some? && Stop !in actions
    requires OneProducerRun(Started(workers, capacity), actions)
    requires Drained(Exec(Started(workers, capacity), actions).value)
    ensures var s := Exec(Started(workers, capacity), actions).value;
            && s.out.delivered == NonNull(s.results, s.line.nextSequence)
            && s.counts.inFlight == s.counts.reserved + s.counts.failing + s.counts.popped
  {
    StartedGood(workers, capacity);
    GoodRun(Started(workers, capacity), actions);
    LostLastRun(Started(workers, capacity), actions);
    DrainedCompletely(workers, capacity, actions);
    AllPublished(Exec(Started(workers, capacity), actions).value);
  }

  lemma AllPublished(s: State)
    requires Placed(s.line) && Resulted(s.line, s.results) && Counted(s) && LostLast(s) && Drained(s)
    requires (forall i, l :: i in s.results && l in s.line.lost ==> i < l) ==>
               forall i :: i in s.results ==> i < s.line.nextOutput
    ensures NonNull(s.results, s.line.nextSequence) == NonNull(s.results, s.line.nextOutput)
    ensures s.counts.inFlight == s.counts.reserved + s.counts.failing + s.counts.popped
  {
    forall i, l | i in s.results && l in s.line.lost ensures i < l { AcceptedBeforeLost(s, i, l); }
    forall i | i in s.line.completed ensures false { OnePlace(s.line, i); }
    assert s.line.completed == map[];
    NonNullStops(s.results, s.line.nextOutput, s.line.nextSequence);
  }

  lemma AcceptedBeforeLost(s: State, i: nat, l: nat)
    requires Placed(s.line) && Resulted(s.line, s.results) && LostLast(s) && s.line.ticketed == map[]
    requires i in s.results && l in s.line.lost
    ensures i < l
  {
    OnePlace(s.line, i);
    OnePlace(s.line, l);
  }

  lemma {:induction false} NonNullStops(results: Results, n: nat, m: nat)
    requires n <= m && forall i: nat :: n <= i < m ==> i !in results
    ensures NonNull(results, m) == NonNull(results, n)
  {
    if n < m { NonNullStops(results, n, m - 1); }
  }

  // ----- two producers -----

  /** Two producers and a close between their pushes: the second push is accepted, the first fails. */
  function StrandingRun(): seq<Action> {
    [Admit, Admit, Ticket(10), Ticket(20), PushInput(1), CloseFlag, CloseInputQueue, PushInputFails(0), ReleaseFailed]
    + [PopInput, Finish(1, Some(7)), Complete(1), Scan]
  }

  lemma Peel(s: State, actions: seq<Action>, k: nat)
    requires k < |actions| && Enabled(s, actions[k])
    ensures Exec(s, actions[k..]) == Exec(Apply(s, actions[k]), actions[k + 1..])
  {
    assert actions[k..][1..] == actions[k + 1..];
  }

  const NOTHING_OUT := Out(Unlocked, [], false, [], false)

  function BothAdmitted(): State {
    Started(1, 2).(counts := Counts(2, 2, 0, 0, 1, 1))
  }

  /** After both tickets and the second producer's push. */
  function BothTicketed(): State {
    State(2, true, false, false, Counts(2, 0, 0, 0, 1, 1),
          Line(2, map[0 := 10], {}, [WorkItem(1, 20)], map[], map[], map[], 0), NOTHING_OUT, [10, 20], map[])
  }

  /** After the close and the first producer's failed push. */
  function FirstLost(): State {
    State(2, true, true, true, Counts(1, 0, 0, 0, 1, 1),
          Line(2, map[], {0}, [WorkItem(1, 20)], map[], map[], map[], 0), NOTHING_OUT, [10, 20], map[])
  }

  function Stranded(): State {
    State(2, true, true, true, Counts(1, 0, 0, 0, 1, 1),
          Line(2, map[], {0}, [], map[], map[], map[1 := Some(7)], 0), NOTHING_OUT, [10, 20], map[1 := Some(7)])
  }

  lemma StrandingStart(run: seq<Action>, s: State)
    requires run == StrandingRun() && s == Started(1, 2)
    ensures Exec(s, run) == Exec(BothAdmitted(), run[2..])
  {
    assert run[0..] == run;
    Peel(s, run, 0);
    Peel(Apply(s, Admit), run, 1);
  }

  lemma StrandingTickets(run: seq<Action>, s: State)
    requires run == StrandingRun() && s == BothAdmitted()
    ensures Exec(s, run[2..]) == Exec(BothTicketed(), run[5..])
  {
    Peel(s, run, 2);
    var s3 := Apply(s, Ticket(10));
    Peel(s3, run, 3);
    var s4 := Apply(s3, Ticket(20));
    Peel(s4, run, 4);
    assert s4.line.ticketed - {1} == map[0 := 10];
    assert Apply(s4, PushInput(1)) == BothTicketed();
  }

  lemma StrandingClose(run: seq<Action>, s: State)
    requires run == StrandingRun() && s == BothTicketed()
    ensures Exec(s, run[5..]) == Exec(s.(inputClosed := true, inputQueueClosed := true), run[7..])
  {
    Peel(s, run, 5);
    Peel(Apply(s, CloseFlag), run, 6);
  }

  lemma StrandingLoss(run: seq<Action>, s: State)
    requires run == StrandingRun() && s == BothTicketed().(inputClosed := true, inputQueueClosed := true)
    ensures Exec(s, run[7..]) == Exec(FirstLost(), run[9..])
  {
    Peel(s, run, 7);
    Peel(Apply(s, PushInputFails(0)), run, 8);
    assert s.line.ticketed - {0} == map[] && s.line.lost + {0} == {0};
    assert Apply(Apply(s, PushInputFails(0)), ReleaseFailed) == FirstLost();
  }

  /** After the worker has processed the accepted item. */
  function Processed(): State {
    State(2, true, true, true, Counts(1, 0, 0, 0, 0, 1),
          Line(2, map[], {0}, [], map[], map[1 := Some(7)], map[], 0), NOTHING_OUT, [10, 20], map[1 := Some(7)])
  }

  lemma StrandingWork(run: seq<Action>, s: State)
    requires run == StrandingRun() && s == FirstLost()
    ensures Exec(s, run[9..]) == Exec(Processed(), run[11..])
  {
    Peel(s, run, 9);
    Peel(Apply(s, PopInput), run, 10);
    assert Apply(s, PopInput).line.working - {1} == map[];
  }

  lemma StrandingEnd(run: seq<Action>, s: State)
    requires run == StrandingRun() && s == Processed()
    ensures Exec(s, run[11..]) == Some(Stranded())
  {
    Peel(s, run, 11);
    Peel(Apply(s, Complete(1)), run, 12);
    assert s.line.finished - {1} == map[] && run[13..] == [];
  }

  lemma StrandedForEver(end: State)
    requires end == Stranded()
    ensures Drained(end) && end.results == map[1 := Some(7)] && end.out.delivered == [] && end.counts.inFlight == 1
  {
  }

  /** The accepted item is processed, but its result waits for ever behind the lost sequence number: the
      pipeline drains without a stop, nothing is delivered, and the slot is never released. */
  lemma TwoProducersStrand(run: seq<Action>, start: State, end: State)
    requires run == StrandingRun() && start == Started(1, 2) && end == Stranded()
    ensures Exec(start, run) == Some(end)
    ensures Drained(end) && end.results == map[1 := Some(7)] && end.out.delivered == [] && end.counts.inFlight == 1
  {
    StrandingStart(run, start);
    StrandingTickets(run, BothAdmitted());
    StrandingClose(run, BothTicketed());
    StrandingLoss(run, BothTicketed().(inputClosed := true, inputQueueClosed := true));
    StrandingWork(run, FirstLost());
    StrandingEnd(run, Processed());
    StrandedForEver(end);
  }
}
