/** Which units make way, said of the units themselves: the longest idle and the least keys go, and no more
    of them than must. */
module ReassemblyEviction {
  import opened Bytes
  import opened Tally
  import opened Assembly
  import opened ReassemblySpec
  import opened ReassemblyRuns

  /** `left` is what is kept of `all`; nothing that went comes after anything kept. */
  ghost predicate LeastWent<V>(all: map<UnitKey, V>, left: map<UnitKey, V>, age: V -> int) {
    && PartOf(left, all)
    && forall a, b :: a in left && b in all && b !in left ==>
         age(all[b]) < age(left[a]) || (age(all[b]) == age(left[a]) && KeyLeq(b, a))
  }

  function Age(u: Unit): int { u.lastUpdated }

  function NoAge(unit: seq<byte>): int { 0 }

  /** A unit of this length still fits beside `pending`. */
  ghost predicate Fits(limits: Limits, pending: map<UnitKey, Unit>, length: nat, completedBytes: nat) {
    |pending| < limits.units && length + Sum(pending, Length) + completedBytes <= limits.bytes
  }

  /** One more that comes before all the others has gone. */
  lemma WentFirst<V>(all: map<UnitKey, V>, left: map<UnitKey, V>, age: V -> int, o: UnitKey)
    requires o in all && LeastWent(all - {o}, left, age)
    requires forall k :: k in all ==> age(all[o]) < age(all[k]) || (age(all[o]) == age(all[k]) && KeyLeq(o, k))
    ensures LeastWent(all, left, age)
    ensures (all - {o})[o := all[o]] == all
  {
    hide KeyLeq;
  }

  lemma EvictStep(limits: Limits, pending: map<UnitKey, Unit>, length: nat, completedBytes: nat)
    requires Evict(limits, pending, length, completedBytes) != pending
    ensures pending != map[] && !Fits(limits, pending, length, completedBytes)
    ensures Evict(limits, pending, length, completedBytes)
         == Evict(limits, pending - {Oldest(pending)}, length, completedBytes)
  {
  }

  lemma ForgetStep(completed: map<UnitKey, seq<byte>>, allowance: int)
    requires Forget(completed, allowance) != completed
    ensures completed != map[] && allowance < Sum(completed, Size)
    ensures Forget(completed, allowance) == Forget(completed - {First(completed)}, allowance)
  {
  }

  lemma TrimOnce(limits: Limits, s: Store)
    ensures var left := Trim(limits, s);
            if s.completed == map[] || !OverLimits(limits, s, s.completed) then left == s
            else left == Trim(limits, s.(completed := s.completed - {First(s.completed)}))
  {
  }

  /** Eviction takes the longest idle units, and the last one it takes had to go. */
  lemma {:induction false} EvictMeans(limits: Limits, pending: map<UnitKey, Unit>, length: nat, completedBytes: nat)
    ensures var left := Evict(limits, pending, length, completedBytes);
            && LeastWent(pending, left, Age)
            && (left == pending
                || exists b :: b in pending && b !in left && !Fits(limits, left[b := pending[b]], length, completedBytes))
    decreases |pending|
  {
    hide Sum, KeyLeq, Fits, Evict, LeastWent;
    var left := Evict(limits, pending, length, completedBytes);
    if left == pending {
      NoneWent(pending, Age);
    } else {
      EvictStep(limits, pending, length, completedBytes);
      var o := Oldest(pending);
      var rest := pending - {o};
      Smaller(pending, o);
      OldestIs(pending);
      EvictMeans(limits, rest, length, completedBytes);
      WentFirst(pending, left, Age, o);
      if left == rest {
        assert o !in left && !Fits(limits, left[o := pending[o]], length, completedBytes);
      } else {
        var b :| b in rest && b !in left && !Fits(limits, left[b := rest[b]], length, completedBytes);
        assert !Fits(limits, left[b := pending[b]], length, completedBytes);
      }
    }
  }

  lemma NoneWent<V>(all: map<UnitKey, V>, age: V -> int)
    ensures LeastWent(all, all, age)
  {
  }

  lemma OldestIs(pending: map<UnitKey, Unit>)
    requires pending != map[]
    ensures var o := Oldest(pending);
            && o in pending
            && forall k :: k in pending ==>
                 Age(pending[o]) < Age(pending[k]) || (Age(pending[o]) == Age(pending[k]) && KeyLeq(o, k))
  {
    hide KeyLeq;
    var ages := Ages(pending);
    assert forall k :: k in pending ==> k in ages && ages[k] == Age(pending[k]);
    assert ages != map[];
    assert IsLeast(ages, Oldest(pending));
  }

  lemma FirstIs(completed: map<UnitKey, seq<byte>>)
    requires completed != map[]
    ensures First(completed) in completed && forall k :: k in completed ==> KeyLeq(First(completed), k)
  {
    hide KeyLeq;
    var ages := SameAge(completed);
    assert forall k :: k in completed ==> k in ages && ages[k] == 0;
    assert ages != map[];
    assert IsLeast(ages, First(completed));
  }

  /** Forgetting takes the least keys, and the last one it takes was over the allowance. */
  lemma {:induction false} ForgetMeans(completed: map<UnitKey, seq<byte>>, allowance: int)
    ensures var left := Forget(completed, allowance);
            && LeastWent(completed, left, NoAge)
            && (left == completed
                || exists b :: b in completed && b !in left && allowance < Sum(left[b := completed[b]], Size))
    decreases |completed|
  {
    hide Sum, KeyLeq, Forget, LeastWent;
    var left := Forget(completed, allowance);
    if left == completed {
      NoneWent(completed, NoAge);
    } else {
      ForgetStep(completed, allowance);
      var o := First(completed);
      var rest := completed - {o};
      Smaller(completed, o);
      FirstIs(completed);
      ForgetMeans(rest, allowance);
      WentFirst(completed, left, NoAge, o);
      if left == rest {
        assert o !in left && allowance < Sum(left[o := completed[o]], Size);
      } else {
        var b :| b in rest && b !in left && allowance < Sum(left[b := rest[b]], Size);
        assert allowance < Sum(left[b := completed[b]], Size);
      }
    }
  }

  /** Over the limits on bytes or on their number. */
  ghost predicate OverLimits(limits: Limits, s: Store, completed: map<UnitKey, seq<byte>>) {
    Sum(completed, Size) + PendingBytes(s) > limits.bytes || |completed| > limits.units
  }

  /** After a delivery the least keys are forgotten until the limits are met, and not one more. */
  lemma {:induction false} TrimMeans(limits: Limits, s: Store)
    ensures var left := Trim(limits, s).completed;
            && Trim(limits, s) == s.(completed := left) && LeastWent(s.completed, left, NoAge)
            && (left == map[] || !OverLimits(limits, s, left))
            && (left == s.completed
                || exists b :: b in s.completed && b !in left && OverLimits(limits, s, left[b := s.completed[b]]))
    decreases |s.completed|
  {
    hide Sum, KeyLeq, PendingBytes, Trim, LeastWent, OverLimits;
    var left := Trim(limits, s).completed;
    TrimOnce(limits, s);
    if s.completed == map[] || !OverLimits(limits, s, s.completed) {
      NoneWent(s.completed, NoAge);
    } else {
      var o := First(s.completed);
      var rest := s.(completed := s.completed - {o});
      Smaller(s.completed, o);
      FirstIs(s.completed);
      TrimMeans(limits, rest);
      WentFirst(s.completed, left, NoAge, o);
      SameLimits(limits, s, rest, left);
      if left == rest.completed {
        assert o !in left && OverLimits(limits, s, left[o := s.completed[o]]);
      } else {
        var b :| b in rest.completed && b !in left && OverLimits(limits, rest, left[b := rest.completed[b]]);
        SameLimits(limits, s, rest, left[b := s.completed[b]]);
        assert OverLimits(limits, s, left[b := s.completed[b]]);
      }
    }
  }

  lemma SameLimits(limits: Limits, s: Store, t: Store, completed: map<UnitKey, seq<byte>>)
    requires s.pending == t.pending
    ensures OverLimits(limits, s, completed) <==> OverLimits(limits, t, completed)
  {
  }
}
