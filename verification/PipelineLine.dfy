/** The sequence numbers of StreamingPipeline: where each item is between its ticket and its publication. */
module PipelineLine {
  import opened Options

  /** A shared data object, by identity. */
  type Object = nat

  datatype WorkItem = WorkItem(sequence: nat, input: Object)

  /** An output together with the sequence number of the input it came from. */
  datatype Entry = Entry(sequence: nat, object: Object)

  type Results = map<nat, Option<Object>>

  // ----- where the sequence numbers are -----

  /** Ticketed: numbered, not yet queued.  Lost: the queue was closed.  Then queued, being processed,
      waiting for the reorder lock, and in the reorder map. */
  datatype Line = Line(
    nextSequence: nat, ticketed: map<nat, Object>, lost: set<nat>, queue: seq<WorkItem>,
    working: map<nat, Object>, finished: Results, completed: Results, nextOutput: nat)

  datatype Move =
    | ToTicket(input: Object) | ToQueue(sequence: nat) | ToLost(sequence: nat) | ToWorker
    | ToFinished(sequence: nat, result: Option<Object>) | ToCompleted(sequence: nat) | ToPublisher

  predicate CanMove(l: Line, m: Move) {
    match m
    case ToTicket(_) => true
    case ToQueue(i) => i in l.ticketed
    case ToLost(i) => i in l.ticketed
    case ToWorker => l.queue != []
    case ToFinished(i, _) => i in l.working
    case ToCompleted(i) => i in l.finished
    case ToPublisher => l.nextOutput in l.completed
  }

  function Moved(l: Line, m: Move): Line
    requires CanMove(l, m)
  {
    match m
    case ToTicket(input) => l.(nextSequence := l.nextSequence + 1, ticketed := l.ticketed[l.nextSequence := input])
    case ToQueue(i) => l.(ticketed := l.ticketed - {i}, queue := l.queue + [WorkItem(i, l.ticketed[i])])
    case ToLost(i) => l.(ticketed := l.ticketed - {i}, lost := l.lost + {i})
    case ToWorker => l.(queue := l.queue[1..], working := l.working[l.queue[0].sequence := l.queue[0].input])
    case ToFinished(i, result) => l.(working := l.working - {i}, finished := l.finished[i := result])
    case ToCompleted(i) => l.(finished := l.finished - {i}, completed := Emplace(l.completed, i, l.finished[i]))
    case ToPublisher => l.(completed := l.completed - {l.nextOutput}, nextOutput := l.nextOutput + 1)
  }

  /** std::map::emplace keeps an entry that is already there. */
  function Emplace(m: Results, key: nat, value: Option<Object>): Results {
    if key in m then m else m[key := value]
  }

  function Occurrences(q: seq<WorkItem>, sequence: nat): nat {
    if q == [] then 0 else (if q[0].sequence == sequence then 1 else 0) + Occurrences(q[1..], sequence)
  }

  function One(b: bool): nat {
    if b then 1 else 0
  }

  /** In how many places a sequence number is. */
  function Places(l: Line, i: nat): nat {
    One(i in l.ticketed) + One(i in l.lost) + Occurrences(l.queue, i) + One(i in l.working)
    + One(i in l.finished) + One(i in l.completed)
  }

  /** Each sequence number handed out and not yet published is in exactly one place. */
  ghost predicate Placed(l: Line) {
    && l.nextOutput <= l.nextSequence
    && forall i: nat :: Places(l, i) == One(l.nextOutput <= i < l.nextSequence)
  }

  /** How many are in flight, the lost ones not counted. */
  function Size(l: Line): nat {
    |l.ticketed| + |l.queue| + |l.working| + |l.finished| + |l.completed|
  }

  lemma RemovedCount<T>(m: map<nat, T>, k: nat)
    requires k in m
    ensures |m - {k}| == |m| - 1
  {
    assert (m - {k}).Keys == m.Keys - {k};
    assert |m.Keys| == |m| && |(m - {k}).Keys| == |m - {k}|;
  }

  lemma AddedCount<T>(m: map<nat, T>, k: nat, v: T)
    requires k !in m
    ensures |m[k := v]| == |m| + 1
  {
    assert m[k := v].Keys == m.Keys + {k};
    assert |m.Keys| == |m| && |m[k := v].Keys| == |m[k := v]|;
  }

  lemma {:induction false} OccurrencesAppend(q: seq<WorkItem>, item: WorkItem, i: nat)
    ensures Occurrences(q + [item], i) == Occurrences(q, i) + One(item.sequence == i)
  {
    if q == [] {
      assert [item][1..] == [];
    } else {
      assert (q + [item])[1..] == q[1..] + [item];
      OccurrencesAppend(q[1..], item, i);
    }
  }

  /** A sequence number in one place is in no other. */
  lemma OnePlace(l: Line, i: nat)
    requires Placed(l)
    ensures Places(l, i) == One(l.nextOutput <= i < l.nextSequence)
  {
  }

  lemma MovedPlaces(l: Line, m: Move, i: nat)
    requires Placed(l) && CanMove(l, m)
    ensures Places(Moved(l, m), i) == One(Moved(l, m).nextOutput <= i < Moved(l, m).nextSequence)
  {
    OnePlace(l, i);
    match m
    case ToQueue(k) => OccurrencesAppend(l.queue, WorkItem(k, l.ticketed[k]), i);
    case _ =>
  }

  lemma MovedPlaced(l: Line, m: Move)
    requires Placed(l) && CanMove(l, m)
    ensures Placed(Moved(l, m))
  {
    if m.ToPublisher? { OnePlace(l, l.nextOutput); }
    forall i: nat ensures Places(Moved(l, m), i) == One(Moved(l, m).nextOutput <= i < Moved(l, m).nextSequence) {
      MovedPlaces(l, m, i);
    }
  }

  lemma MovedSize(l: Line, m: Move)
    requires Placed(l) && CanMove(l, m)
    ensures Size(Moved(l, m)) + One(m.ToLost? || m.ToPublisher?) == Size(l) + One(m.ToTicket?)
  {
    match m
    case ToTicket(input) => { OnePlace(l, l.nextSequence); AddedCount(l.ticketed, l.nextSequence, input); }
    case ToQueue(i) => RemovedCount(l.ticketed, i);
    case ToLost(i) => RemovedCount(l.ticketed, i);
    case ToWorker => { OnePlace(l, l.queue[0].sequence); AddedCount(l.working, l.queue[0].sequence, l.queue[0].input); }
    case ToFinished(i, result) => { OnePlace(l, i); RemovedCount(l.working, i); AddedCount(l.finished, i, result); }
    case ToCompleted(i) => { OnePlace(l, i); RemovedCount(l.finished, i); AddedCount(l.completed, i, l.finished[i]); }
    case ToPublisher => RemovedCount(l.completed, l.nextOutput);
  }

  /** Workers that hold an item. */
  function Busy(l: Line): nat {
    |l.working| + |l.finished|
  }

  lemma MovedBusy(l: Line, m: Move)
    requires Placed(l) && CanMove(l, m)
    ensures Busy(Moved(l, m)) + One(m.ToCompleted?) == Busy(l) + One(m.ToWorker?)
  {
    match m
    case ToWorker => { OnePlace(l, l.queue[0].sequence); AddedCount(l.working, l.queue[0].sequence, l.queue[0].input); }
    case ToFinished(i, result) => { OnePlace(l, i); RemovedCount(l.working, i); AddedCount(l.finished, i, result); }
    case ToCompleted(i) => RemovedCount(l.finished, i);
    case _ =>
  }

  // ----- results -----

  function ResultsAfter(results: Results, m: Move): Results {
    if m.ToFinished? then results[m.sequence := m.result] else results
  }

  /** The results so far are those published, plus those on their way to the publisher. */
  ghost predicate Resulted(l: Line, results: Results) {
    && (forall i :: i in l.finished ==> i in results && results[i] == l.finished[i])
    && (forall i :: i in l.completed ==> i in results && results[i] == l.completed[i])
    && (forall i: nat :: i < l.nextOutput ==> i in results)
    && (forall i :: i in results ==> i < l.nextOutput || i in l.finished || i in l.completed)
  }

  lemma MovedResulted(l: Line, results: Results, m: Move)
    requires Placed(l) && Resulted(l, results) && CanMove(l, m)
    ensures Resulted(Moved(l, m), ResultsAfter(results, m))
  {
    match m
    case ToFinished(i, _) => OnePlace(l, i);
    case ToCompleted(i) => OnePlace(l, i);
    case _ =>
  }

  /** The non-null results among the first n sequence numbers, in order. */
  function NonNull(results: Results, n: nat): seq<Entry> {
    if n == 0 then []
    else NonNull(results, n - 1)
         + if n - 1 in results && results[n - 1].Some? then [Entry(n - 1, results[n - 1].value)] else []
  }

  lemma {:induction false} NonNullFrame(a: Results, b: Results, n: nat)
    requires forall i: nat :: i < n ==> (i in a <==> i in b) && (i in a ==> a[i] == b[i])
    ensures NonNull(a, n) == NonNull(b, n)
  {
    if n > 0 { NonNullFrame(a, b, n - 1); }
  }

  /** Only ToPublisher changes what is published, and by the one result it takes. */
  lemma MovedNonNull(l: Line, results: Results, m: Move)
    requires Placed(l) && Resulted(l, results) && CanMove(l, m)
    ensures var l', results' := Moved(l, m), ResultsAfter(results, m);
            NonNull(results', l'.nextOutput)
            == NonNull(results, l.nextOutput)
               + if m.ToPublisher? then Published(l.nextOutput, l.completed[l.nextOutput]) else []
  {
    match m
    case ToFinished(i, _) =>
      OnePlace(l, i);
      NonNullFrame(results, ResultsAfter(results, m), l.nextOutput);
    case _ =>
  }

  function Published(i: nat, result: Option<Object>): seq<Entry> {
    if result.Some? then [Entry(i, result.value)] else []
  }

  // ----- inputs -----

  function InputsAfter(inputs: seq<Object>, m: Move): seq<Object> {
    if m.ToTicket? then inputs + [m.input] else inputs
  }

  /** Sequence number i carries the i-th input, wherever it is. */
  ghost predicate Carried(l: Line, inputs: seq<Object>) {
    && |inputs| == l.nextSequence
    && (forall i :: i in l.ticketed ==> i < |inputs| && l.ticketed[i] == inputs[i])
    && (forall k :: 0 <= k < |l.queue| ==> l.queue[k].sequence < |inputs| && l.queue[k].input == inputs[l.queue[k].sequence])
    && (forall i :: i in l.working ==> i < |inputs| && l.working[i] == inputs[i])
  }

  lemma MovedCarried(l: Line, inputs: seq<Object>, m: Move)
    requires Carried(l, inputs) && CanMove(l, m)
    ensures Carried(Moved(l, m), InputsAfter(inputs, m))
  {
  }
}
