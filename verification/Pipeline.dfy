/** StreamingPipeline: producers, workers and consumers over two bounded queues, as atomic steps.
    Every mutex-protected section and every atomic operation of the source is one step, so the runs are
    all interleavings of any number of producers and consumers with the given number of workers. */
module Pipeline {
  import opened Options
  import opened PipelineLine

  /** Where the holder of the reorder lock stands in PublishReadyResults. */
  datatype Publisher = Unlocked | Scanning | Pushing(entry: Entry) | Releasing(again: bool)

  /** The publishing side.  delivered and dropped are history: what consumers popped, and whether a push
      to the closed output queue has failed. */
  datatype Out = Out(publisher: Publisher, queue: seq<Entry>, closed: bool, delivered: seq<Entry>, dropped: bool)

  /** in_flight_; producers before the ticket and after a failed push; consumers before the release;
      workers waiting for input, and all that have not exited. */
  datatype Counts = Counts(inFlight: nat, reserved: nat, failing: nat, popped: nat, idle: nat, active: int)

  datatype State = State(
    capacity: nat, running: bool, inputClosed: bool, inputQueueClosed: bool,
    counts: Counts, line: Line, out: Out, inputs: seq<Object>, results: Results)

  datatype Action =
    | Admit                                            // AddInput: the wait ends, ++in_flight_
    | Ticket(input: Object)                            // next_sequence_.fetch_add
    | PushInput(sequence: nat) | PushInputFails(sequence: nat) | ReleaseFailed
    | PopInput | Finish(sequence: nat, result: Option<Object>) | Complete(sequence: nat)
    | Scan | PushOutput | PushOutputFails | ReleasePublished
    | PopOutput | ReleasePopped
    | CloseFlag | CloseInputQueue | Stop | CloseOutputQueue | Exit

  /** Start, with max(1, ...) already applied to both numbers. */
  function Started(workers: nat, capacity: nat): State {
    State(capacity, true, false, false, Counts(0, 0, 0, 0, workers, workers),
          Line(0, map[], {}, [], map[], map[], map[], 0), Out(Unlocked, [], false, [], false), [], map[])
  }

  // ----- steps -----

  /** When a thread can take the step; a thread whose push finds the queue open and full waits. */
  predicate Enabled(s: State, a: Action) {
    match a
    case Admit => !s.inputClosed && s.running && s.counts.inFlight < s.capacity
    case Ticket(_) => s.counts.reserved > 0
    case PushInput(i) => i in s.line.ticketed && !s.inputQueueClosed && |s.line.queue| < s.capacity
    case PushInputFails(i) => i in s.line.ticketed && s.inputQueueClosed
    case ReleaseFailed => s.counts.failing > 0
    case PopInput => s.counts.idle > 0 && s.line.queue != []
    case Finish(i, _) => i in s.line.working
    case Complete(i) => s.out.publisher.Unlocked? && i in s.line.finished
    case Scan => s.out.publisher.Scanning?
    case PushOutput => s.out.publisher.Pushing? && !s.out.closed && |s.out.queue| < s.capacity
    case PushOutputFails => s.out.publisher.Pushing? && s.out.closed
    case ReleasePublished => s.out.publisher.Releasing?
    case PopOutput => s.out.queue != []
    case ReleasePopped => s.counts.popped > 0
    case CloseFlag => true
    case CloseInputQueue => s.inputClosed
    case Stop => true
    case CloseOutputQueue => !s.running
    case Exit => s.counts.idle > 0 && s.inputQueueClosed && s.line.queue == []
  }

  /** How the step moves a sequence number along. */
  function MoveOf(s: State, a: Action): (m: Option<Move>)
    requires Enabled(s, a)
    ensures m.Some? ==> CanMove(s.line, m.value)
  {
    match a
    case Ticket(input) => Some(ToTicket(input))
    case PushInput(i) => Some(ToQueue(i))
    case PushInputFails(i) => Some(ToLost(i))
    case PopInput => Some(ToWorker)
    case Finish(i, result) => Some(ToFinished(i, result))
    case Complete(i) => Some(ToCompleted(i))
    case Scan => if s.line.nextOutput in s.line.completed then Some(ToPublisher) else None
    case _ => None
  }

  /** ReleaseInFlightSlot */
  function Release(c: Counts): Counts {
    c.(inFlight := if c.inFlight > 0 then c.inFlight - 1 else 0)
  }

  function CountsAfter(s: State, a: Action): Counts
    requires Enabled(s, a)
  {
    var c := s.counts;
    match a
    case Admit => c.(inFlight := c.inFlight + 1, reserved := c.reserved + 1)
    case Ticket(_) => c.(reserved := c.reserved - 1)
    case PushInputFails(_) => c.(failing := c.failing + 1)
    case ReleaseFailed => Release(c).(failing := c.failing - 1)
    case PopInput => c.(idle := c.idle - 1)
    case Scan => if s.line.nextOutput in s.line.completed then c else c.(idle := c.idle + 1)
    case ReleasePublished => if s.out.publisher.again then Release(c) else Release(c).(idle := c.idle + 1)
    case PopOutput => c.(popped := c.popped + 1)
    case ReleasePopped => Release(c).(popped := c.popped - 1)
    case Exit => c.(idle := c.idle - 1, active := c.active - 1)
    case _ => c
  }

  function OutAfter(s: State, a: Action): Out
    requires Enabled(s, a)
  {
    var o := s.out;
    match a
    case Complete(_) => o.(publisher := Scanning)
    case Scan => o.(publisher := ScanResult(s.line))
    case PushOutput => o.(queue := o.queue + [o.publisher.entry], publisher := Scanning)
    case PushOutputFails => o.(publisher := Releasing(false), dropped := true)
    case ReleasePublished => o.(publisher := if o.publisher.again then Scanning else Unlocked)
    case PopOutput => o.(queue := o.queue[1..], delivered := o.delivered + [o.queue[0]])
    case CloseOutputQueue => o.(closed := true)
    case _ => o
  }

  /** One round of PublishReadyResults, up to the push or the release. */
  function ScanResult(l: Line): Publisher {
    if l.nextOutput !in l.completed then Unlocked
    else if l.completed[l.nextOutput].Some? then Pushing(Entry(l.nextOutput, l.completed[l.nextOutput].value))
    else Releasing(true)
  }

  function Apply(s: State, a: Action): State
    requires Enabled(s, a)
  {
    var m := MoveOf(s, a);
    s.(running := s.running && !a.Stop? && (a.Exit? ==> s.counts.active != 1),
       inputClosed := s.inputClosed || a.CloseFlag? || a.Stop?,
       inputQueueClosed := s.inputQueueClosed || a.CloseInputQueue?,
       counts := CountsAfter(s, a), out := OutAfter(s, a),
       line := if m.Some? then Moved(s.line, m.value) else s.line,
       inputs := if m.Some? then InputsAfter(s.inputs, m.value) else s.inputs,
       results := if m.Some? then ResultsAfter(s.results, m.value) else s.results)
  }

  /** The state after a sequence of steps, if each was enabled when taken. */
  function Exec(s: State, actions: seq<Action>): Option<State>
    decreases |actions|
  {
    if actions == [] then Some(s)
    else if Enabled(s, actions[0]) then Exec(Apply(s, actions[0]), actions[1..])
    else None
  }

  // ----- the invariant -----

  function Held(p: Publisher): nat {
    One(p.Pushing? || p.Releasing?)
  }

  /** Everything that owns an in-flight slot. */
  function Owners(s: State): nat {
    s.counts.reserved + s.counts.failing + Size(s.line) + Held(s.out.publisher) + |s.out.queue| + s.counts.popped
  }

  /** in_flight_ is exact and bounded, and every active worker is in one place. */
  ghost predicate Counted(s: State) {
    && s.counts.inFlight == Owners(s) <= s.capacity
    && s.counts.idle + Busy(s.line) + One(!s.out.publisher.Unlocked?) == s.counts.active
  }

  function InHand(p: Publisher): seq<Entry> {
    if p.Pushing? then [p.entry] else []
  }

  /** What was delivered, and what waits to be, are the published results in sequence order. */
  ghost predicate InOrder(o: Out, published: seq<Entry>) {
    && (o.dropped ==> o.closed && o.delivered + o.queue <= published)
    && (!o.dropped ==> o.delivered + o.queue + InHand(o.publisher) == published)
  }

  /** The publisher lets go of the lock only when the next result is not there, or after a failed push. */
  ghost predicate Scanned(s: State) {
    && (!s.out.dropped && s.out.publisher.Unlocked? ==> s.line.nextOutput !in s.line.completed)
    && (s.out.publisher == Releasing(false) ==> s.out.dropped)
  }

  ghost predicate Good(s: State) {
    && Placed(s.line) && Carried(s.line, s.inputs) && Resulted(s.line, s.results)
    && Counted(s) && InOrder(s.out, NonNull(s.results, s.line.nextOutput)) && Scanned(s)
  }

  // ----- each step keeps it -----

  lemma CountedMove(s: State, a: Action)
    requires Placed(s.line) && Counted(s) && Enabled(s, a) && MoveOf(s, a).Some?
    ensures Counted(Apply(s, a))
  {
    hide Size, Busy, Moved;
    MovedSize(s.line, MoveOf(s, a).value);
    MovedBusy(s.line, MoveOf(s, a).value);
  }

  lemma CountedRest(s: State, a: Action)
    requires Counted(s) && Enabled(s, a) && MoveOf(s, a).None?
    ensures Counted(Apply(s, a))
  {
    hide Size, Busy;
  }

  lemma CountedStep(s: State, a: Action)
    requires Placed(s.line) && Counted(s) && Enabled(s, a)
    ensures Counted(Apply(s, a))
  {
    if MoveOf(s, a).Some? { CountedMove(s, a); } else { CountedRest(s, a); }
  }

  lemma LineStep(s: State, a: Action)
    requires Placed(s.line) && Carried(s.line, s.inputs) && Resulted(s.line, s.results) && Enabled(s, a)
    ensures Placed(Apply(s, a).line)
    ensures Carried(Apply(s, a).line, Apply(s, a).inputs)
    ensures Resulted(Apply(s, a).line, Apply(s, a).results)
  {
    var m := MoveOf(s, a);
    if m.Some? {
      MovedPlaced(s.line, m.value);
      MovedCarried(s.line, s.inputs, m.value);
      MovedResulted(s.line, s.results, m.value);
    }
  }

  lemma InOrderRest(s: State, a: Action, published: seq<Entry>)
    requires InOrder(s.out, published) && Enabled(s, a) && !a.Scan?
    ensures InOrder(OutAfter(s, a), published)
  {
    var o, o' := s.out, OutAfter(s, a);
    if a.PushOutput? { assert o'.delivered + o'.queue == o.delivered + o.queue + [o.publisher.entry]; }
    if a.PopOutput? { assert o'.delivered + o'.queue == o.delivered + o.queue; }
  }

  lemma InOrderStep(s: State, a: Action)
    requires Placed(s.line) && Resulted(s.line, s.results) && Enabled(s, a)
    requires InOrder(s.out, NonNull(s.results, s.line.nextOutput))
    ensures InOrder(Apply(s, a).out, NonNull(Apply(s, a).results, Apply(s, a).line.nextOutput))
  {
    if MoveOf(s, a).Some? { MovedNonNull(s.line, s.results, MoveOf(s, a).value); }
    if !a.Scan? { InOrderRest(s, a, NonNull(s.results, s.line.nextOutput)); }
  }

  lemma ScannedStep(s: State, a: Action)
    requires Placed(s.line) && Counted(s) && InOrder(s.out, NonNull(s.results, s.line.nextOutput))
    requires Scanned(s) && Enabled(s, a)
    ensures Scanned(Apply(s, a))
  {
  }

  lemma GoodStep(s: State, a: Action)
    requires Good(s) && Enabled(s, a)
    ensures Good(Apply(s, a))
  {
    LineStep(s, a);
    CountedStep(s, a);
    InOrderStep(s, a);
    ScannedStep(s, a);
  }

  lemma {:induction false} GoodRun(s: State, actions: seq<Action>)
    requires Good(s) && Exec(s, actions).Some?
    ensures Good(Exec(s, actions).value)
    decreases |actions|
  {
    if actions != [] {
      GoodStep(s, actions[0]);
      GoodRun(Apply(s, actions[0]), actions[1..]);
    }
  }
}
