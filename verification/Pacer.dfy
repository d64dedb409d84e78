/** UdpPacer: a token bucket with debt, in real arithmetic; clock times are nanoseconds. */
module Pacer {
  import opened Options

  datatype Result = Granted(delay: nat) | TooLarge | Overflow

  /** The longest delay the clock type holds, in microseconds. */
  const MAX_DELAY: nat := 0x7FFF_FFFF_FFFF_FFFF

  /** Bits per second, and bytes. */
  datatype Params = Params(rate: nat, burst: nat)

  /** Tokens in bytes, and the time of the last call in nanoseconds. */
  datatype Bucket = Bucket(tokens: real, last: nat)

  /** Bytes earned in a number of nanoseconds. */
  function Earned(rate: nat, ns: nat): (e: real)
    ensures e >= 0.0
  {
    rate as real * (ns as real) / 8000000000.0
  }

  function Min(a: real, b: real): real {
    if a <= b then a else b
  }

  function Ceil(x: real): (n: int)
    ensures x <= n as real < x + 1.0
  {
    if x.Floor as real == x then x.Floor else x.Floor + 1
  }

  /** Tokens at the time of a call: whole microseconds since the last one count, up to a full bucket. */
  function Refilled(p: Params, b: Bucket, now: nat): (tokens: real)
    requires b.last <= now
    ensures b.tokens <= p.burst as real ==> tokens <= p.burst as real
  {
    var us := (now - b.last) / 1000;
    if us > 0 then Min(b.tokens + Earned(p.rate, us * 1000), p.burst as real) else b.tokens
  }

  /** The wait until a deficit is earned, in microseconds. */
  function Wait(p: Params, tokens: real, bytes: nat): (delay: nat)
    requires 0 < p.rate
    ensures tokens >= bytes as real ==> delay == 0
    ensures bytes as real - tokens <= Earned(p.rate, delay * 1000)
  {
    if tokens >= bytes as real then 0
    else
      var deficit := bytes as real - tokens;
      var exact := deficit * 8000000.0 / p.rate as real;
      PositiveQuotient(deficit * 8000000.0, p.rate as real);
      WaitEarns(p.rate, deficit, Ceil(exact));
      Ceil(exact)
  }

  lemma PositiveQuotient(a: real, b: real)
    requires a > 0.0 && b > 0.0
    ensures a / b > 0.0
  {
  }

  lemma WaitEarns(rate: nat, deficit: real, us: int)
    requires 0 < rate && deficit > 0.0 && deficit * 8000000.0 / rate as real <= us as real
    ensures us >= 0 && deficit <= Earned(rate, us * 1000)
  {
    var r := rate as real;
    var exact := deficit * 8000000.0 / r;
    PositiveQuotient(deficit * 8000000.0, r);
    assert exact * r == deficit * 8000000.0;
    MonotoneProduct(exact, us as real, r);
    ThousandFold(us);
    assert r * ((us * 1000) as real) == r * (us as real) * 1000.0;
  }

  lemma ThousandFold(us: int)
    ensures (us * 1000) as real == us as real * 1000.0
  {
  }

  lemma MonotoneProduct(a: real, b: real, r: real)
    requires a <= b && r >= 0.0
    ensures a * r <= b * r
  {
  }

  // ----- the same in numbers -----

  /** Tokens after `us` whole microseconds: each earns an eighth of the rate in bytes, up to a full bucket. */
  function FullCredit(p: Params, tokens: real, us: nat): real {
    var earned := tokens + p.rate as real * us as real / 8000000.0;
    if us == 0 || earned <= p.burst as real then earned else p.burst as real
  }

  /** The shortest wait after which `tokens` cover the packet. */
  predicate LeastWait(rate: nat, tokens: real, bytes: nat, delay: nat) {
    && tokens + rate as real * delay as real / 8000000.0 >= bytes as real
    && (delay > 0 ==> tokens + rate as real * (delay - 1) as real / 8000000.0 < bytes as real)
  }

  lemma EarnedIs(rate: nat, us: nat)
    ensures Earned(rate, us * 1000) == rate as real * us as real / 8000000.0
  {
    var r := rate as real;
    ThousandFold(us);
    assert r * ((us * 1000) as real) == r * (us as real) * 1000.0;
  }

  /** Whole microseconds are credited in full. */
  lemma RefilledIs(p: Params, b: Bucket, now: nat)
    requires b.last <= now
    ensures Refilled(p, b, now) == FullCredit(p, b.tokens, (now - b.last) / 1000)
  {
    var us := (now - b.last) / 1000;
    EarnedIs(p.rate, us);
    if us == 0 { assert p.rate as real * us as real == 0.0; }
  }

  lemma WaitIsLeast(p: Params, tokens: real, bytes: nat)
    requires 0 < p.rate
    ensures LeastWait(p.rate, tokens, bytes, Wait(p, tokens, bytes))
  {
    var delay := Wait(p, tokens, bytes);
    EarnedIs(p.rate, delay);
    if delay > 0 { LessIsShort(p.rate, bytes as real - tokens, delay - 1); }
  }

  lemma LessIsShort(rate: nat, deficit: real, us: nat)
    requires 0 < rate && us as real < deficit * 8000000.0 / rate as real
    ensures rate as real * us as real / 8000000.0 < deficit
  {
    var r := rate as real;
    var exact := deficit * 8000000.0 / r;
    assert exact * r == deficit * 8000000.0;
    StrictProduct(us as real, exact, r);
  }

  lemma StrictProduct(a: real, b: real, r: real)
    requires a < b && r > 0.0
    ensures r * a < b * r
  {
  }

  class UdpPacer {
    const p: Params
    var tokens: real
    var lastUpdate: nat

    function Value(): Bucket
      reads this
    {
      Bucket(tokens, lastUpdate)
    }

    constructor (rate: nat, burst: nat, now: nat)
      requires 0 < burst
      ensures p == Params(rate, burst) && Value() == Bucket(burst as real, now)
    {
      p := Params(rate, burst);
      tokens, lastUpdate := burst as real, now;
    }

    /** Rate zero means no pacing; an empty packet costs nothing; one above the burst is refused, and so is one
        whose wait does not fit the clock, but only after the bucket was refilled. */
    method ConsumeAndGetDelay(bytes: nat, now: nat) returns (r: Result)
      requires lastUpdate <= now
      modifies this
      ensures p.rate != 0 && bytes > p.burst ==> r == TooLarge && Value() == old(Value())
      ensures p.rate == 0 || bytes == 0 ==> r == Granted(0) && Value() == old(Value())
      ensures 0 < p.rate && 0 < bytes <= p.burst ==>
                var tokens := Refilled(p, old(Value()), now);
                && Value() == Taken(p, tokens, bytes, now)
                && r == if Fits(p, tokens, bytes) then Granted(Wait(p, tokens, bytes)) else Overflow
      ensures 0 < p.rate && 0 < bytes <= p.burst && r.Granted? ==>
                LeastWait(p.rate, FullCredit(p, old(tokens), (now - old(lastUpdate)) / 1000), bytes, r.delay)
      ensures r.Granted? ==> r.delay < 0x8000_0000_0000_0000
    {
      hide FullCredit, LeastWait;
      RefilledIs(p, Value(), now);
      if p.rate == 0 { return Granted(0); }
      if bytes == 0 { return Granted(0); }
      if bytes > p.burst { return TooLarge; }
      var elapsed := (now - lastUpdate) / 1000;
      if elapsed > 0 {
        tokens := Min(tokens + Earned(p.rate, elapsed * 1000), p.burst as real);
      }
      lastUpdate := now;
      WaitIsLeast(p, tokens, bytes);
      if tokens >= bytes as real {
        tokens := tokens - bytes as real;
        return Granted(0);
      }
      var delay := Wait(p, tokens, bytes);
      if delay > MAX_DELAY { return Overflow; }
      tokens := tokens - bytes as real;
      return Granted(delay);
    }
  }

  /** The constructor throws when the burst is zero. */
  method MakePacer(rate: nat, burst: nat, now: nat) returns (pacer: Option<UdpPacer>)
    ensures pacer.Some? <==> 0 < burst
    ensures pacer.Some? ==>
              fresh(pacer.value) && pacer.value.p == Params(rate, burst) && pacer.value.Value() == Bucket(burst as real, now)
  {
    if burst == 0 { return None; }
    var made := new UdpPacer(rate, burst, now);
    return Some(made);
  }

  predicate Fits(p: Params, tokens: real, bytes: nat)
    requires 0 < p.rate
  {
    Wait(p, tokens, bytes) <= MAX_DELAY
  }

  /** The bucket after a packet that found these tokens. */
  function Taken(p: Params, tokens: real, bytes: nat, now: nat): Bucket
    requires 0 < p.rate
  {
    Bucket(if Fits(p, tokens, bytes) then tokens - bytes as real else tokens, now)
  }

  // ----- runs at a fixed rate -----

  datatype Call = Call(bytes: nat, now: nat)

  /** Packets within the burst, at times that never run backwards. */
  predicate CallsOk(p: Params, start: nat, calls: seq<Call>) {
    && 0 < p.rate && 0 < p.burst
    && (forall i :: 0 <= i < |calls| ==> 0 < calls[i].bytes <= p.burst && start <= calls[i].now)
    && (forall i, j :: 0 <= i < j < |calls| ==> calls[i].now <= calls[j].now)
  }

  /** The bucket after the first n calls. */
  function After(p: Params, start: nat, calls: seq<Call>, n: nat): (b: Bucket)
    requires CallsOk(p, start, calls) && n <= |calls|
    ensures b.last == (if n == 0 then start else calls[n - 1].now) && b.tokens <= p.burst as real
    decreases n, 0
  {
    if n == 0 then Bucket(p.burst as real, start)
    else Taken(p, Before(p, start, calls, n - 1), calls[n - 1].bytes, calls[n - 1].now)
  }

  /** The tokens call i finds. */
  function Before(p: Params, start: nat, calls: seq<Call>, i: nat): (tokens: real)
    requires CallsOk(p, start, calls) && i < |calls|
    ensures tokens <= p.burst as real
    decreases i, 1
  {
    Refilled(p, After(p, start, calls, i), calls[i].now)
  }

  /** Call i is not refused. */
  predicate IsGranted(p: Params, start: nat, calls: seq<Call>, i: nat)
    requires CallsOk(p, start, calls) && i < |calls|
  {
    Fits(p, Before(p, start, calls, i), calls[i].bytes)
  }

  /** The delay call i is given; a refused one need not wait. */
  function Delay(p: Params, start: nat, calls: seq<Call>, i: nat): nat
    requires CallsOk(p, start, calls) && i < |calls|
  {
    if IsGranted(p, start, calls, i) then Wait(p, Before(p, start, calls, i), calls[i].bytes) else 0
  }

  /** When call i's packet may go. */
  function Release(p: Params, start: nat, calls: seq<Call>, i: nat): nat
    requires CallsOk(p, start, calls) && i < |calls|
  {
    calls[i].now + Delay(p, start, calls, i) * 1000
  }

  /** Bytes granted in calls i up to but not including n. */
  function BytesOf(p: Params, start: nat, calls: seq<Call>, i: nat, n: nat): nat
    requires CallsOk(p, start, calls) && i <= n <= |calls|
    decreases n
  {
    if n == i then 0
    else BytesOf(p, start, calls, i, n - 1) + if IsGranted(p, start, calls, n - 1) then calls[n - 1].bytes else 0
  }

  lemma EarnedAdds(rate: nat, a: nat, b: nat)
    ensures Earned(rate, a) + Earned(rate, b) == Earned(rate, a + b)
  {
    var r := rate as real;
    assert (a + b) as real == a as real + b as real;
    assert r * (a as real + b as real) == r * (a as real) + r * (b as real);
  }

  lemma EarnedMonotone(rate: nat, a: nat, b: nat)
    requires a <= b
    ensures Earned(rate, a) <= Earned(rate, b)
  {
    EarnedAdds(rate, a, b - a);
    assert a + (b - a) == b;
  }

  /** A refill never gives more than the time since the last call earns. */
  lemma RefillBound(p: Params, b: Bucket, now: nat)
    requires b.last <= now
    ensures Refilled(p, b, now) <= b.tokens + Earned(p.rate, now - b.last)
  {
    EarnedMonotone(p.rate, (now - b.last) / 1000 * 1000, now - b.last);
  }

  /** From call i on, tokens are at most a full bucket, less what was granted, plus what was earned. */
  lemma {:induction false} Ledger(p: Params, start: nat, calls: seq<Call>, i: nat, j: nat)
    requires CallsOk(p, start, calls) && i <= j < |calls|
    ensures After(p, start, calls, j + 1).tokens
         <= p.burst as real - BytesOf(p, start, calls, i, j + 1) as real + Earned(p.rate, calls[j].now - calls[i].now)
    decreases j
  {
    hide Earned, Refilled, Wait;
    if j == i {
      assert BytesOf(p, start, calls, i, i) == 0;
    } else {
      Ledger(p, start, calls, i, j - 1);
      RefillBound(p, After(p, start, calls, j), calls[j].now);
      EarnedAdds(p.rate, calls[j - 1].now - calls[i].now, calls[j].now - calls[j - 1].now);
    }
  }

  lemma EnvelopeEarned(p: Params, start: nat, calls: seq<Call>, i: nat, j: nat)
    requires CallsOk(p, start, calls) && i <= j < |calls| && IsGranted(p, start, calls, j)
    ensures Release(p, start, calls, j) >= calls[i].now
    ensures BytesOf(p, start, calls, i, j + 1) as real
         <= p.burst as real + Earned(p.rate, Release(p, start, calls, j) - calls[i].now)
  {
    hide Earned, Refilled, Wait;
    Ledger(p, start, calls, i, j);
    var delay := Delay(p, start, calls, j);
    WaitCovers(p, Before(p, start, calls, j), calls[j].bytes);
    EarnedAdds(p.rate, calls[j].now - calls[i].now, delay * 1000);
  }

  lemma InNumbers(rate: nat, ns: nat)
    ensures Earned(rate, ns) == rate as real * ns as real / 8000000000.0
  {
  }

  /** The envelope: from call i to the release of a granted call j at most a burst and what the rate earns in
      that time is granted.  It needs no waiting by the callers. */
  lemma Envelope(p: Params, start: nat, calls: seq<Call>, i: nat, j: nat)
    requires CallsOk(p, start, calls) && i <= j < |calls| && IsGranted(p, start, calls, j)
    ensures BytesOf(p, start, calls, i, j + 1) as real
         <= p.burst as real + p.rate as real * (Release(p, start, calls, j) - calls[i].now) as real / 8000000000.0
  {
    hide IsGranted, Release, BytesOf, Earned;
    EnvelopeEarned(p, start, calls, i, j);
    InNumbers(p.rate, Release(p, start, calls, j) - calls[i].now);
  }

  lemma WaitCovers(p: Params, tokens: real, bytes: nat)
    requires 0 < p.rate
    ensures bytes as real - tokens <= Earned(p.rate, Wait(p, tokens, bytes) * 1000)
  {
  }

  /** What the rate makes of a span that may be negative. */
  function Gain(rate: nat, ns: int): real {
    rate as real * ns as real / 8000000000.0
  }

  lemma GainAdds(rate: nat, a: int, b: int)
    ensures Gain(rate, a + b) == Gain(rate, a) + Gain(rate, b)
  {
    var r := rate as real;
    assert r * (a + b) as real == r * a as real + r * b as real;
  }

  lemma GainGrows(rate: nat, a: int, b: int)
    requires a <= b
    ensures Gain(rate, a) <= Gain(rate, b) == rate as real * b as real / 8000000000.0
  {
    MonotoneProduct(a as real, b as real, rate as real);
  }

  /** One call loses less than what a microsecond earns. */
  lemma CreditOnce(p: Params, b: Bucket, now: nat)
    requires b.last <= now && Refilled(p, b, now) < p.burst as real
    ensures Refilled(p, b, now) >= b.tokens + Gain(p.rate, now - b.last - 1000)
  {
    var us := (now - b.last) / 1000;
    RefilledIs(p, b, now);
    InNumbers(p.rate, us * 1000);
    EarnedIs(p.rate, us);
    assert now - b.last - 1000 <= us * 1000;
    hide Refilled, Earned;
    GainGrows(p.rate, now - b.last - 1000, us * 1000);
  }

  lemma CallTakes(p: Params, start: nat, calls: seq<Call>, i: nat, j: nat)
    requires CallsOk(p, start, calls) && i <= j < |calls|
    ensures After(p, start, calls, j + 1).tokens - Before(p, start, calls, j)
         == BytesOf(p, start, calls, i, j) as real - BytesOf(p, start, calls, i, j + 1) as real
  {
    hide Earned, Refilled, Wait;
  }

  lemma CreditStep(p: Params, start: nat, calls: seq<Call>, i: nat, j: nat)
    requires CallsOk(p, start, calls) && i < j < |calls| && Before(p, start, calls, j) < p.burst as real
    ensures After(p, start, calls, j + 1).tokens + BytesOf(p, start, calls, i + 1, j + 1) as real
         >= After(p, start, calls, j).tokens + BytesOf(p, start, calls, i + 1, j) as real
            + Gain(p.rate, calls[j].now - calls[j - 1].now - 1000)
  {
    hide Gain, BytesOf, Refilled, Taken;
    var b := After(p, start, calls, j);
    assert Before(p, start, calls, j) == Refilled(p, b, calls[j].now);
    CreditOnce(p, b, calls[j].now);
    CallTakes(p, start, calls, i + 1, j);
  }

  lemma {:induction false} CreditGains(p: Params, start: nat, calls: seq<Call>, i: nat, j: nat)
    requires CallsOk(p, start, calls) && i <= j < |calls|
    requires forall k :: i < k <= j ==> Before(p, start, calls, k) < p.burst as real
    ensures After(p, start, calls, j + 1).tokens + BytesOf(p, start, calls, i + 1, j + 1) as real
         >= After(p, start, calls, i + 1).tokens + Gain(p.rate, calls[j].now - calls[i].now - 1000 * (j - i))
  {
    if i == j {
      assert Gain(p.rate, 0) == 0.0;
    } else {
      CreditGains(p, start, calls, i, j - 1);
      CreditStep(p, start, calls, i, j);
      hide *;
      GainAdds(p.rate, calls[j - 1].now - calls[i].now - 1000 * (j - 1 - i), calls[j].now - calls[j - 1].now - 1000);
      assert (calls[j - 1].now - calls[i].now - 1000 * (j - 1 - i)) + (calls[j].now - calls[j - 1].now - 1000)
          == calls[j].now - calls[i].now - 1000 * (j - i);
    }
  }

  /** The other side: while no call finds a full bucket, nothing that was earned is lost but the part of a
      microsecond before each call. */
  lemma Credit(p: Params, start: nat, calls: seq<Call>, i: nat, j: nat)
    requires CallsOk(p, start, calls) && i <= j < |calls|
    requires forall k :: i < k <= j ==> Before(p, start, calls, k) < p.burst as real
    ensures After(p, start, calls, j + 1).tokens + BytesOf(p, start, calls, i + 1, j + 1) as real
         >= After(p, start, calls, i + 1).tokens
            + p.rate as real * (calls[j].now - calls[i].now - 1000 * (j - i)) as real / 8000000000.0
  {
    hide After, Before, BytesOf, CallsOk;
    CreditGains(p, start, calls, i, j);
  }

  /** Each caller waits the delay it was given before the next call. */
  predicate Waits(p: Params, start: nat, calls: seq<Call>)
    requires CallsOk(p, start, calls)
  {
    forall i :: 0 < i < |calls| ==> Release(p, start, calls, i - 1) <= calls[i].now
  }

  /** A caller that waited has earned its debt. */
  lemma DebtEarned(p: Params, b: Bucket, tokens: real, bytes: nat, now: nat)
    requires 0 < p.rate && b.tokens == tokens - bytes as real && b.last + Wait(p, tokens, bytes) * 1000 <= now
    requires tokens <= p.burst as real
    ensures Refilled(p, b, now) >= 0.0
  {
    var delay, us := Wait(p, tokens, bytes), (now - b.last) / 1000;
    assert delay <= us;
    EarnedMonotone(p.rate, delay * 1000, us * 1000);
    WaitCovers(p, tokens, bytes);
    if us == 0 { assert delay == 0; }
  }

  lemma {:induction false} NoDebtAtCalls(p: Params, start: nat, calls: seq<Call>, i: nat)
    requires CallsOk(p, start, calls) && Waits(p, start, calls) && i < |calls|
    ensures Before(p, start, calls, i) >= 0.0
  {
    if i > 0 {
      assert Release(p, start, calls, i - 1) <= calls[i].now;
      if IsGranted(p, start, calls, i - 1) {
        DebtEarned(p, After(p, start, calls, i), Before(p, start, calls, i - 1), calls[i - 1].bytes, calls[i].now);
      } else {
        NoDebtAtCalls(p, start, calls, i - 1);
      }
    }
  }

  /** With waiting callers tokens stay within a burst of zero on either side. */
  lemma TokensBounded(p: Params, start: nat, calls: seq<Call>, n: nat)
    requires CallsOk(p, start, calls) && Waits(p, start, calls) && n <= |calls|
    ensures -(p.burst as real) <= After(p, start, calls, n).tokens <= p.burst as real
  {
    hide Refilled;
    if n > 0 { NoDebtAtCalls(p, start, calls, n - 1); }
  }

  /** And no delay is longer than it takes to earn one burst, rounded up. */
  lemma DelayBounded(p: Params, start: nat, calls: seq<Call>, i: nat)
    requires CallsOk(p, start, calls) && Waits(p, start, calls) && i < |calls|
    ensures Delay(p, start, calls, i) <= Ceil(p.burst as real * 8000000.0 / p.rate as real)
  {
    NoDebtAtCalls(p, start, calls, i);
    WaitBound(p, Before(p, start, calls, i), calls[i].bytes);
  }

  /** So with waiting callers no packet is ever refused for its wait, if the time of one burst fits the
      clock. */
  lemma AllGranted(p: Params, start: nat, calls: seq<Call>, i: nat)
    requires CallsOk(p, start, calls) && Waits(p, start, calls) && i < |calls|
    requires Ceil(p.burst as real * 8000000.0 / p.rate as real) <= MAX_DELAY
    ensures IsGranted(p, start, calls, i)
  {
    NoDebtAtCalls(p, start, calls, i);
    WaitBound(p, Before(p, start, calls, i), calls[i].bytes);
  }

  lemma WaitBound(p: Params, tokens: real, bytes: nat)
    requires 0 < p.rate && 0.0 <= tokens && bytes <= p.burst
    ensures Wait(p, tokens, bytes) <= Ceil(p.burst as real * 8000000.0 / p.rate as real)
  {
    var limit := p.burst as real * 8000000.0 / p.rate as real;
    if tokens < bytes as real {
      var exact := (bytes as real - tokens) * 8000000.0 / p.rate as real;
      QuotientMonotone((bytes as real - tokens) * 8000000.0, p.burst as real * 8000000.0, p.rate as real);
      CeilMonotone(exact, limit);
    } else {
      QuotientMonotone(0.0, p.burst as real * 8000000.0, p.rate as real);
      assert 0.0 / p.rate as real == 0.0;
    }
  }

  lemma QuotientMonotone(a: real, b: real, r: real)
    requires a <= b && r > 0.0
    ensures a / r <= b / r
  {
  }

  lemma CeilMonotone(a: real, b: real)
    requires a <= b
    ensures Ceil(a) <= Ceil(b)
  {
  }
}
