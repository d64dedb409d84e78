/** Which latents are coded, and with which row, said of the scales themselves: first brought between
    0.11 and 16, then compared with the zero threshold. */
module ScaleMeaning {
  import opened Options
  import opened Bytes
  import opened RansCore
  import opened EntropyCodec
  import opened EntropyObjects

  /** `limited` is `scales` with all below 0.11 raised to it and all above 16 lowered to it. */
  predicate Limits(scales: seq<real>, limited: seq<real>) {
    && |scales| == |limited|
    && forall i :: 0 <= i < |scales| ==>
         limited[i] == if scales[i] < 0.11 then 0.11 else if 16.0 < scales[i] then 16.0 else scales[i]
  }

  predicate Exceeds(scale: real, threshold: Option<real>) {
    threshold.None? || scale > threshold.value
  }

  /** The places from `i` on whose scale exceeds the threshold, in order; all of them without one. */
  function Above(limited: seq<real>, threshold: Option<real>, i: nat): seq<nat>
    requires i <= |limited|
    decreases |limited| - i
  {
    if i == |limited| then []
    else (if Exceeds(limited[i], threshold) then [i] else []) + Above(limited, threshold, i + 1)
  }

  lemma {:induction false} AboveHas(limited: seq<real>, threshold: Option<real>, i: nat, j: nat)
    requires i <= j < |limited| && Exceeds(limited[j], threshold)
    ensures j in Above(limited, threshold, i)
    decreases |limited| - i
  {
    hide Exceeds;
    if i < j { AboveHas(limited, threshold, i + 1, j); }
  }

  lemma {:induction false} AboveIncreases(limited: seq<real>, threshold: Option<real>, i: nat)
    requires i <= |limited|
    ensures var places := Above(limited, threshold, i);
            && Increasing(places)
            && forall k :: 0 <= k < |places| ==> i <= places[k] < |limited| && Exceeds(limited[places[k]], threshold)
    decreases |limited| - i
  {
    hide Exceeds, Increasing;
    if i == |limited| {
      assert Increasing(Above(limited, threshold, i)) by { NoPlaces(); }
    } else {
      AboveIncreases(limited, threshold, i + 1);
      var rest := Above(limited, threshold, i + 1);
      Extended(i, rest);
      assert [] + rest == rest;
    }
  }

  /** These are the places, in order. */
  lemma AboveMeans(limited: seq<real>, threshold: Option<real>)
    ensures var places := Above(limited, threshold, 0);
            && Increasing(places)
            && (forall k :: 0 <= k < |places| ==> places[k] < |limited| && Exceeds(limited[places[k]], threshold))
            && (forall j :: 0 <= j < |limited| && Exceeds(limited[j], threshold) ==> j in places)
  {
    hide Exceeds, Increasing, Above;
    AboveIncreases(limited, threshold, 0);
    forall j | 0 <= j < |limited| && Exceeds(limited[j], threshold) ensures j in Above(limited, threshold, 0) {
      AboveHas(limited, threshold, 0, j);
    }
  }

  lemma NoPlaces()
    ensures Increasing([])
  {
  }

  lemma {:induction false} Extended(i: nat, rest: seq<nat>)
    requires Increasing(rest) && forall k :: 0 <= k < |rest| ==> i < rest[k]
    ensures Increasing([i] + rest)
  {
  }

  predicate Increasing(places: seq<nat>) {
    forall k, m :: 0 <= k < m < |places| ==> places[k] < places[m]
  }

  /** The encoder's entry for each of these places. */
  predicate EntriesAt(index: ScaleIndex, symbols: seq<int8>, limited: seq<real>, places: seq<nat>, encoded: seq<int>) {
    && |encoded| == |places| && |symbols| == |limited|
    && forall k :: 0 <= k < |places| ==>
         places[k] < |limited| && encoded[k] == symbols[places[k]] as int * 256 + index(limited[places[k]])
  }

  /** The decoder's row for each of these places. */
  predicate RowsAt(index: ScaleIndex, limited: seq<real>, places: seq<nat>, rows: seq<byte>) {
    && |rows| == |places|
    && forall k :: 0 <= k < |places| ==> places[k] < |limited| && rows[k] == index(limited[places[k]])
  }

  lemma JoinEntries(index: ScaleIndex, symbols: seq<int8>, limited: seq<real>, p: seq<nat>, e: seq<int>,
                    q: seq<nat>, f: seq<int>)
    requires EntriesAt(index, symbols, limited, p, e) && EntriesAt(index, symbols, limited, q, f)
    ensures EntriesAt(index, symbols, limited, p + q, e + f)
  {
  }

  lemma JoinRows(index: ScaleIndex, limited: seq<real>, p: seq<nat>, e: seq<byte>, q: seq<nat>, f: seq<byte>)
    requires RowsAt(index, limited, p, e) && RowsAt(index, limited, q, f)
    ensures RowsAt(index, limited, p + q, e + f)
  {
  }

  /** What one scale adds to either list. */
  lemma OneScale(index: ScaleIndex, symbols: seq<int8>, scales: seq<real>, limited: seq<real>, threshold: Option<real>, i: nat)
    requires |symbols| == |scales| && Limits(scales, limited) && i < |scales|
    ensures var here: seq<nat> := if Exceeds(limited[i], threshold) then [i] else [];
            && EntriesAt(index, symbols, limited, here, PairAt(index, symbols[i], scales[i], threshold))
            && RowsAt(index, limited, here, IndexAt(index, scales[i], threshold))
    ensures Kept(scales[i], threshold) <==> Exceeds(limited[i], threshold)
  {
    assert Clip(scales[i]) == limited[i];
  }

  lemma {:induction false} IndexesFrom(index: ScaleIndex, symbols: seq<int8>, scales: seq<real>, limited: seq<real>,
                                       threshold: Option<real>, i: nat)
    requires |symbols| == |scales| && Limits(scales, limited) && i <= |scales|
    ensures var places := Above(limited, threshold, i);
            && EntriesAt(index, symbols, limited, places, EncoderIndexes(index, symbols[i..], scales[i..], threshold))
            && RowsAt(index, limited, places, DecoderIndexes(index, scales[i..], threshold))
    decreases |scales| - i
  {
    if i < |scales| {
      hide Limits, EntriesAt, RowsAt, EncoderIndexes, DecoderIndexes, PairAt, IndexAt;
      IndexesFrom(index, symbols, scales, limited, threshold, i + 1);
      OneScale(index, symbols, scales, limited, threshold, i);
      var here: seq<nat> := if Exceeds(limited[i], threshold) then [i] else [];
      var places := Above(limited, threshold, i + 1);
      EncoderIndexesNext(index, symbols, scales, threshold, i);
      JoinEntries(index, symbols, limited, here, PairAt(index, symbols[i], scales[i], threshold),
                  places, EncoderIndexes(index, symbols[i + 1..], scales[i + 1..], threshold));
      DecoderIndexesNext(index, scales, threshold, i);
      JoinRows(index, limited, here, IndexAt(index, scales[i], threshold),
               places, DecoderIndexes(index, scales[i + 1..], threshold));
    }
  }

  /** Both index lists: the symbol and the row of each place whose limited scale exceeds the threshold, in
      order, and the flags say which places these are. */
  lemma IndexesMean(index: ScaleIndex, symbols: seq<int8>, scales: seq<real>, limited: seq<real>, threshold: Option<real>)
    requires |symbols| == |scales| && Limits(scales, limited)
    ensures EntriesAt(index, symbols, limited, Above(limited, threshold, 0), EncoderIndexes(index, symbols, scales, threshold))
    ensures RowsAt(index, limited, Above(limited, threshold, 0), DecoderIndexes(index, scales, threshold))
    ensures forall i :: 0 <= i < |scales| ==> (KeepFlags(scales, threshold)[i] <==> Exceeds(limited[i], threshold))
  {
    IndexesFrom(index, symbols, scales, limited, threshold, 0);
    assert symbols[0..] == symbols && scales[0..] == scales;
    forall i | 0 <= i < |scales| ensures KeepFlags(scales, threshold)[i] <==> Exceeds(limited[i], threshold) {
      OneScale(index, symbols, scales, limited, threshold, i);
    }
  }

  /** And the decoded tensors of a whole run: a latent comes back where its limited scale exceeds the
      threshold and is zero elsewhere; hyper-latents all come back. */
  lemma DecodedMeans(parts: seq<Part>, p: nat, limited: seq<real>, i: nat)
    requires (forall p :: 0 <= p < |parts| ==> PartOk(parts[p])) && p < |parts| && i < |parts[p].symbols|
    requires parts[p].shape.YShape? ==> Limits(parts[p].shape.scales, limited)
    ensures |ExpectedAll(parts)[p]| == |parts[p].symbols|
    ensures ExpectedAll(parts)[p][i]
         == if parts[p].shape.YShape? && !Exceeds(limited[i], parts[p].shape.threshold) then 0 else parts[p].symbols[i]
  {
    if parts[p].shape.YShape? { assert Clip(parts[p].shape.scales[i]) == limited[i]; }
  }

  /** The same part with its scales brought between 0.11 and 16. */
  predicate Limited(part: Part, other: Part) {
    && part.symbols == other.symbols
    && match part.shape
       case ZShape(_, _, _, _) => other.shape == part.shape
       case YShape(scales, threshold) =>
         other.shape.YShape? && other.shape.threshold == threshold && Limits(scales, other.shape.scales)
  }

  lemma SameEntries(index: ScaleIndex, symbols: seq<int8>, limited: seq<real>, places: seq<nat>, e: seq<int>, f: seq<int>)
    requires EntriesAt(index, symbols, limited, places, e) && EntriesAt(index, symbols, limited, places, f)
    ensures e == f
  {
  }

  lemma LimitedPart(settings: Settings, part: Part, other: Part)
    requires PartOk(part) && Limited(part, other)
    ensures PartOk(other)
    ensures FirstTask(settings, part) == FirstTask(settings, other)
    ensures SecondTask(settings, part) == SecondTask(settings, other)
    ensures Expected(part) == Expected(other)
  {
    if part.shape.YShape? {
      var scales, limited, threshold := part.shape.scales, other.shape.scales, part.shape.threshold;
      IndexesMean(settings.index, part.symbols, scales, limited, threshold);
      IndexesMean(settings.index, part.symbols, limited, limited, threshold);
      SameEntries(settings.index, part.symbols, limited, Above(limited, threshold, 0),
                  EncoderIndexes(settings.index, part.symbols, scales, threshold),
                  EncoderIndexes(settings.index, part.symbols, limited, threshold));
      forall i | 0 <= i < |scales| ensures Kept(scales[i], threshold) == Kept(limited[i], threshold) {
        assert Clip(scales[i]) == limited[i] == Clip(limited[i]);
      }
    }
  }

  lemma {:induction false} LimitedTasks(settings: Settings, parts: seq<Part>, others: seq<Part>)
    requires |parts| == |others| && forall p :: 0 <= p < |parts| ==> PartOk(parts[p]) && Limited(parts[p], others[p])
    ensures forall p :: 0 <= p < |others| ==> PartOk(others[p])
    ensures FirstTasks(settings, parts) == FirstTasks(settings, others)
    ensures SecondTasks(settings, parts) == SecondTasks(settings, others)
    ensures ExpectedAll(parts) == ExpectedAll(others)
  {
    hide Limited, PartOk, FirstTask, SecondTask, Expected;
    forall p | 0 <= p < |parts| ensures PartOk(others[p]) && Expected(parts[p]) == Expected(others[p]) {
      LimitedPart(settings, parts[p], others[p]);
    }
    if parts != [] {
      LimitedPart(settings, parts[0], others[0]);
      LimitedTasks(settings, parts[1..], others[1..]);
    }
  }

  /** Scales below 0.11 and above 16 code and decode as these bounds do. */
  lemma LimitedCodesTheSame(settings: Settings, parts: seq<Part>, others: seq<Part>)
    requires PartsCodable(settings, parts)
    requires |parts| == |others| && forall p :: 0 <= p < |parts| ==> Limited(parts[p], others[p])
    ensures PartsCodable(settings, others)
    ensures EncodedBytes(settings, parts) == EncodedBytes(settings, others)
    ensures ExpectedAll(parts) == ExpectedAll(others)
  {
    hide Limited, PartOk, TasksOk, FirstTasks, SecondTasks, ExpectedAll;
    LimitedTasks(settings, parts, others);
  }
}
