/** NeuroStressBuffer of vitality/protocol.py: a token bucket, a circuit breaker and a throttle, over real numbers.

The monotonic clock's reading at each call is an argument. */
module StressBuffer {
  import opened Common
  import opened Reals

  datatype Config = Config(
    rateLimit: real, burstCapacity: int, circuitPct: real, latencyCeiling: real, windowLength: nat)

  const LATENCY_WINDOW := 50

  datatype State = State(
    tokens: real, lastRefill: real, circuitOpen: bool, latencies: seq<real>, threats: seq<bool>,
    throttled: nat, blocked: nat)

  // What `acquire` returns, or the ZeroDivisionError it raises.
  datatype Outcome = Permitted(delay: real) | Refused(wait: real) | DividedByZero

  function Initial(c: Config, now: real): State {
    State(c.burstCapacity as real, now, false, [], [], 0, 0)
  }

  // deque.append with a maximal length
  function Pushed<T>(q: seq<T>, x: T, maxLength: nat): (q': seq<T>)
    ensures |q'| <= maxLength || |q'| <= |q|
  {
    if maxLength == 0 then []
    else if |q| >= maxLength then q[|q| - maxLength + 1..] + [x]
    else q + [x]
  }

  function Filled(tokens: real, elapsed: real, rate: real, capacity: real): real {
    Min(capacity, tokens + elapsed * rate)
  }

  function Refilled(c: Config, s: State, now: real): State {
    s.(tokens := Filled(s.tokens, now - s.lastRefill, c.rateLimit, c.burstCapacity as real), lastRefill := now)
  }

  // The recommended delay; None where a zero ceiling is divided by.
  function ThrottleDelay(c: Config, latencies: seq<real>): (delay: Option<real>)
    ensures delay.None? ==> c.latencyCeiling == 0.0
    ensures delay.Some? ==> delay.value <= 0.1
  {
    if latencies == [] then Some(0.0)
    else
      var average := Sum(latencies) / |latencies| as real;
      if average <= c.latencyCeiling then Some(0.0)
      else if c.latencyCeiling == 0.0 then None
      else Some(Min(0.1, (average - c.latencyCeiling) / c.latencyCeiling * 0.05))
  }

  // No delay up to the ceiling, then one that grows with the excess, and the longest from three times the ceiling on;
  // `average` is the mean latency, without the division.
  lemma {:induction false} ThrottleFollowsLatency(c: Config, latencies: seq<real>, average: real)
    requires latencies != [] && average * |latencies| as real == Sum(latencies)
    ensures
      var delay := ThrottleDelay(c, latencies);
      && (delay == Some(0.0) <==> average <= c.latencyCeiling)
      && (delay.None? <==> c.latencyCeiling == 0.0 && average > 0.0)
      && (c.latencyCeiling > 0.0 ==>
            && (delay == Some(0.1) <==> average >= 3.0 * c.latencyCeiling)
            && (c.latencyCeiling <= average <= 3.0 * c.latencyCeiling ==>
                  delay.value * 20.0 * c.latencyCeiling == average - c.latencyCeiling))
      && (c.latencyCeiling < 0.0 < average - c.latencyCeiling ==> delay.value < 0.0)
  {
    MeanOf(Sum(latencies), |latencies| as real, average);
    if c.latencyCeiling != 0.0 {
      ExcessRatio(average - c.latencyCeiling, c.latencyCeiling, (average - c.latencyCeiling) / c.latencyCeiling);
    }
  }

  lemma MeanOf(sum: real, count: real, average: real)
    requires count > 0.0 && average * count == sum
    ensures sum / count == average
  {
  }

  lemma ExcessRatio(excess: real, ceiling: real, ratio: real)
    requires ceiling != 0.0 && ratio == excess / ceiling
    ensures ratio * ceiling == excess
    ensures ceiling > 0.0 ==> (ratio >= 2.0 <==> excess >= 2.0 * ceiling) && (ratio > 0.0 <==> excess > 0.0)
    ensures ceiling < 0.0 < excess ==> ratio < 0.0
  {
    QuotientTimes(excess, ceiling);
  }

  function Acquired(c: Config, s: State, now: real): (State, Outcome) {
    var r := Refilled(c, s, now);
    if r.circuitOpen then (r.(blocked := r.blocked + 1), Refused(0.0))
    else if r.tokens >= 1.0 then
      var paid := r.(tokens := r.tokens - 1.0);
      var delay := ThrottleDelay(c, paid.latencies);
      if delay.None? then (paid, DividedByZero)
      else ((if delay.value > 0.0 then paid.(throttled := paid.throttled + 1) else paid), Permitted(delay.value))
    else
      var refused := r.(blocked := r.blocked + 1);
      if c.rateLimit == 0.0 then (refused, DividedByZero)
      else (refused, Refused((1.0 - r.tokens) / c.rateLimit))
  }

  // What one call does, outcome by outcome: `tokens` is what refilling leaves, up to the capacity.
  lemma {:induction false} AcquireAnswers(c: Config, s: State, now: real, tokens: real)
    requires tokens == Min(c.burstCapacity as real, s.tokens + (now - s.lastRefill) * c.rateLimit)
    ensures
      var (after, outcome) := Acquired(c, s, now);
      var granted := !s.circuitOpen && tokens >= 1.0;
      && after.lastRefill == now && after.circuitOpen == s.circuitOpen
      && after.latencies == s.latencies && after.threats == s.threats
      && after.tokens == (if granted then tokens - 1.0 else tokens)
      && after.blocked == (if granted then s.blocked else s.blocked + 1)
      && after.throttled == (if outcome.Permitted? && outcome.delay > 0.0 then s.throttled + 1 else s.throttled)
      && (s.circuitOpen ==> outcome == Refused(0.0))
      && (granted ==>
            outcome == match ThrottleDelay(c, s.latencies) case Some(d) => Permitted(d) case None => DividedByZero)
      && (!s.circuitOpen && tokens < 1.0 ==>
            outcome == if c.rateLimit == 0.0 then DividedByZero else Refused((1.0 - tokens) / c.rateLimit))
  {
  }

  function Count(threats: seq<bool>): (n: nat)
    ensures n <= |threats|
  {
    if threats == [] then 0 else Count(threats[..|threats| - 1]) + if threats[|threats| - 1] then 1 else 0
  }

  // sum(threats) / len(threats), compared with a bound, without the division.
  predicate AtLeast(count: nat, size: nat, bound: real) {
    count as real >= bound * size as real
  }

  predicate RateAtLeast(threats: seq<bool>, bound: real) {
    AtLeast(Count(threats), |threats|, bound)
  }

  // The rate below which an open circuit closes.
  function ClosingPct(c: Config): real {
    c.circuitPct * 0.5
  }

  function CircuitAfter(c: Config, threats: seq<bool>, circuitOpen: bool): bool {
    if |threats| < 10 then circuitOpen
    else if RateAtLeast(threats, c.circuitPct) then true
    else if !RateAtLeast(threats, ClosingPct(c)) then false
    else circuitOpen
  }

  function Recorded(c: Config, s: State, latency: real, threat: bool): State {
    var threats := Pushed(s.threats, threat, c.windowLength);
    s.(latencies := Pushed(s.latencies, latency, LATENCY_WINDOW),
       threats := threats,
       circuitOpen := CircuitAfter(c, threats, s.circuitOpen))
  }

  // ----- Runs -----

  datatype Op = Acquire(now: real) | Record(latency: real, threat: bool)

  function Step(c: Config, s: State, op: Op): State {
    match op
    case Acquire(now) => Acquired(c, s, now).0
    case Record(latency, threat) => Recorded(c, s, latency, threat)
  }

  function Run(c: Config, s: State, ops: seq<Op>): State {
    if ops == [] then s else Step(c, Run(c, s, ops[..|ops| - 1]), ops[|ops| - 1])
  }

  function Granted(c: Config, s: State, op: Op): nat {
    if op.Acquire? && Acquired(c, s, op.now).1.Permitted? then 1 else 0
  }

  // The permits given by a run.
  function Permits(c: Config, s: State, ops: seq<Op>): nat {
    if ops == [] then 0
    else Permits(c, s, ops[..|ops| - 1]) + Granted(c, Run(c, s, ops[..|ops| - 1]), ops[|ops| - 1])
  }

  // The last `length` entries.
  function Window<T>(entries: seq<T>, length: nat): seq<T> {
    if |entries| > length then entries[|entries| - length..] else entries
  }

  lemma WindowGrows<T>(entries: seq<T>, x: T, length: nat)
    ensures Pushed(Window(entries, length), x, length) == Window(entries + [x], length)
  {
  }

  // What a run records.
  function LatenciesOf(ops: seq<Op>): seq<real> {
    if ops == [] then []
    else LatenciesOf(ops[..|ops| - 1]) + if ops[|ops| - 1].Record? then [ops[|ops| - 1].latency] else []
  }

  function ThreatsOf(ops: seq<Op>): seq<bool> {
    if ops == [] then []
    else ThreatsOf(ops[..|ops| - 1]) + if ops[|ops| - 1].Record? then [ops[|ops| - 1].threat] else []
  }

  // The last 50 latencies recorded, and the last threats, are what the delay and the circuit go by.
  lemma {:induction false} RecordedLast(c: Config, s: State, ops: seq<Op>)
    requires |s.latencies| <= 50 && |s.threats| <= c.windowLength
    ensures Run(c, s, ops).latencies == Window(s.latencies + LatenciesOf(ops), 50)
    ensures Run(c, s, ops).threats == Window(s.threats + ThreatsOf(ops), c.windowLength)
  {
    if ops == [] {
      assert s.latencies + [] == s.latencies && s.threats + [] == s.threats;
    } else {
      var front, op := ops[..|ops| - 1], ops[|ops| - 1];
      RecordedLast(c, s, front);
      RecordedNext(c, Run(c, s, front), op, s.latencies + LatenciesOf(front), s.threats + ThreatsOf(front));
      if op.Record? {
        AppendRegroups(s.latencies, LatenciesOf(front), op.latency);
        AppendRegroups(s.threats, ThreatsOf(front), op.threat);
      } else {
        assert LatenciesOf(ops) == LatenciesOf(front) && ThreatsOf(ops) == ThreatsOf(front);
      }
    }
  }

  lemma AppendRegroups<T>(a: seq<T>, b: seq<T>, x: T)
    ensures a + (b + [x]) == a + b + [x]
  {
  }

  lemma RecordedNext(c: Config, s: State, op: Op, latencies: seq<real>, threats: seq<bool>)
    requires s.latencies == Window(latencies, 50) && s.threats == Window(threats, c.windowLength)
    ensures Step(c, s, op).latencies == Window(if op.Record? then latencies + [op.latency] else latencies, 50)
    ensures Step(c, s, op).threats == Window(if op.Record? then threats + [op.threat] else threats, c.windowLength)
  {
    if op.Record? {
      WindowGrows(latencies, op.latency, 50);
      WindowGrows(threats, op.threat, c.windowLength);
    }
  }

  // The clock does not go back.
  predicate Timely(c: Config, s: State, ops: seq<Op>) {
    ops == [] ||
    (Timely(c, s, ops[..|ops| - 1]) &&
     (ops[|ops| - 1].Acquire? ==> ops[|ops| - 1].now >= Run(c, s, ops[..|ops| - 1]).lastRefill))
  }

  predicate Sane(c: Config) {
    c.rateLimit >= 0.0 && c.burstCapacity >= 0
  }

  predicate Bounded(c: Config, s: State) {
    0.0 <= s.tokens <= c.burstCapacity as real
  }

  // ----- The rate bound -----

  // From time t0 to t1, with `before` tokens at first and `after` at last, no more was spent than refilling earned.
  predicate Earned(rate: real, t0: real, t1: real, before: real, spent: real, after: real) {
    after + spent <= before + rate * (t1 - t0)
  }

  lemma EarnedAdds(rate: real, t0: real, t1: real, t2: real, k0: real, k1: real, k2: real, p: real, q: real)
    requires Earned(rate, t0, t1, k0, p, k1) && Earned(rate, t1, t2, k1, q, k2)
    ensures Earned(rate, t0, t2, k0, p + q, k2)
  {
    assert rate * (t1 - t0) + rate * (t2 - t1) == rate * (t2 - t0);
  }

  lemma EarnedIdle(rate: real, t0: real, t1: real, before: real, spent: real, after: real)
    requires rate >= 0.0 && t0 <= t1 && after + spent <= before
    ensures Earned(rate, t0, t1, before, spent, after)
  {
    assert rate * (t1 - t0) >= 0.0;
  }

  lemma EarnedLonger(rate: real, t0: real, t1: real, t2: real, before: real, spent: real, after: real)
    requires rate >= 0.0 && t1 <= t2 && Earned(rate, t0, t1, before, spent, after)
    ensures Earned(rate, t0, t2, before, spent, after)
  {
    EarnedIdle(rate, t1, t2, after, 0.0, after);
    EarnedAdds(rate, t0, t1, t2, before, after, after, spent, 0.0);
  }

  lemma FilledBounds(tokens: real, t0: real, t1: real, rate: real, capacity: real)
    requires 0.0 <= tokens <= capacity && t0 <= t1 && rate >= 0.0
    ensures 0.0 <= Filled(tokens, t1 - t0, rate, capacity) <= capacity
    ensures Earned(rate, t0, t1, tokens, 0.0, Filled(tokens, t1 - t0, rate, capacity))
  {
    assert (t1 - t0) * rate == rate * (t1 - t0);
    assert rate * (t1 - t0) >= 0.0;
  }

  // A grant costs a token, and refilling earns no more than the rate.
  lemma StepSpends(c: Config, s: State, op: Op)
    requires Sane(c) && Bounded(c, s) && (op.Acquire? ==> op.now >= s.lastRefill)
    ensures
      var s' := Step(c, s, op);
      && Bounded(c, s') && s'.lastRefill >= s.lastRefill
      && Earned(c.rateLimit, s.lastRefill, s'.lastRefill, s.tokens, Granted(c, s, op) as real, s'.tokens)
      && (op.Acquire? ==> s'.lastRefill == op.now && s'.tokens + Granted(c, s, op) as real <= c.burstCapacity as real)
  {
    if op.Acquire? {
      FilledBounds(s.tokens, s.lastRefill, op.now, c.rateLimit, c.burstCapacity as real);
      AcquirePays(c, s, op.now);
      var filled := Refilled(c, s, op.now).tokens;
      var s' := Step(c, s, op);
      EarnedIdle(c.rateLimit, op.now, op.now, filled, Granted(c, s, op) as real, s'.tokens);
      EarnedAdds(c.rateLimit, s.lastRefill, op.now, op.now, s.tokens, filled, s'.tokens, 0.0, Granted(c, s, op) as real);
    } else {
      EarnedIdle(c.rateLimit, s.lastRefill, s.lastRefill, s.tokens, 0.0, s.tokens);
    }
  }

  lemma AcquirePays(c: Config, s: State, now: real)
    requires Refilled(c, s, now).tokens >= 0.0
    ensures
      var (s', outcome) := Acquired(c, s, now);
      && 0.0 <= s'.tokens <= Refilled(c, s, now).tokens && s'.lastRefill == now
      && s'.tokens + (if outcome.Permitted? then 1.0 else 0.0) <= Refilled(c, s, now).tokens
  {
  }

  lemma {:induction false} RunSpends(c: Config, s: State, ops: seq<Op>)
    requires Sane(c) && Bounded(c, s) && Timely(c, s, ops)
    ensures
      var s' := Run(c, s, ops);
      && Bounded(c, s') && s'.lastRefill >= s.lastRefill
      && Earned(c.rateLimit, s.lastRefill, s'.lastRefill, s.tokens, Permits(c, s, ops) as real, s'.tokens)
  {
    if ops == [] {
      EarnedIdle(c.rateLimit, s.lastRefill, s.lastRefill, s.tokens, 0.0, s.tokens);
    } else {
      var front, op := ops[..|ops| - 1], ops[|ops| - 1];
      var before, after := Run(c, s, front), Run(c, s, ops);
      RunSpends(c, s, front);
      StepSpends(c, before, op);
      EarnedAdds(c.rateLimit, s.lastRefill, before.lastRefill, after.lastRefill, s.tokens, before.tokens, after.tokens,
                 Permits(c, s, front) as real, Granted(c, before, op) as real);
    }
  }

  // Every acquire of the window falls between `a` and `b`.
  predicate Within(ops: seq<Op>, a: real, b: real) {
    forall i :: 0 <= i < |ops| && ops[i].Acquire? ==> a <= ops[i].now <= b
  }

  // The permits of a window, counted from its first acquire.
  lemma {:induction false} WindowFromFirst(c: Config, s: State, ops: seq<Op>, a: real, b: real)
    requires Sane(c) && Bounded(c, s) && Timely(c, s, ops) && Within(ops, a, b) && a <= b
    ensures
      var s' := Run(c, s, ops);
      && Bounded(c, s')
      && (Permits(c, s, ops) == 0 ||
          (a <= s'.lastRefill <= b &&
           Earned(c.rateLimit, a, s'.lastRefill, c.burstCapacity as real, Permits(c, s, ops) as real, s'.tokens)))
  {
    if ops != [] {
      var front, op := ops[..|ops| - 1], ops[|ops| - 1];
      assert forall i :: 0 <= i < |front| ==> front[i] == ops[i];
      var before, after := Run(c, s, front), Run(c, s, ops);
      WindowFromFirst(c, s, front, a, b);
      StepSpends(c, before, op);
      if Permits(c, s, front) > 0 {
        EarnedAdds(c.rateLimit, a, before.lastRefill, after.lastRefill, c.burstCapacity as real, before.tokens, after.tokens,
                   Permits(c, s, front) as real, Granted(c, before, op) as real);
      } else if op.Acquire? {
        EarnedIdle(c.rateLimit, a, op.now, c.burstCapacity as real, Granted(c, before, op) as real, after.tokens);
      }
    }
  }

  lemma WindowEarned(c: Config, s: State, window: seq<Op>, a: real, b: real)
    requires Sane(c) && Bounded(c, s) && Timely(c, s, window) && Within(window, a, b) && a <= b
    ensures Earned(c.rateLimit, a, b, c.burstCapacity as real, Permits(c, s, window) as real, 0.0)
  {
    var capacity, permits, after := c.burstCapacity as real, Permits(c, s, window) as real, Run(c, s, window);
    WindowFromFirst(c, s, window, a, b);
    if Permits(c, s, window) > 0 {
      EarnedLonger(c.rateLimit, a, after.lastRefill, b, capacity, permits, after.tokens);
      EarnedLess(c.rateLimit, a, b, capacity, permits, after.tokens);
    } else {
      EarnedIdle(c.rateLimit, a, b, capacity, permits, 0.0);
    }
  }

  lemma EarnedLess(rate: real, t0: real, t1: real, before: real, spent: real, after: real)
    requires Earned(rate, t0, t1, before, spent, after) && after >= 0.0
    ensures Earned(rate, t0, t1, before, spent, 0.0)
  {
  }

  // In every run, the permits given between times `a` and `b` are at most capacity + rate * (b - a).
  lemma WindowBound(c: Config, start: real, before: seq<Op>, window: seq<Op>, a: real, b: real)
    requires Sane(c) && a <= b && Within(window, a, b)
    requires Timely(c, Initial(c, start), before) && Timely(c, Run(c, Initial(c, start), before), window)
    ensures Permits(c, Run(c, Initial(c, start), before), window) as real
            <= c.burstCapacity as real + c.rateLimit * (b - a)
  {
    RunSpends(c, Initial(c, start), before);
    WindowEarned(c, Run(c, Initial(c, start), before), window, a, b);
  }

  // ----- The wait hint -----

  lemma WaitSuffices(tokens: real, rate: real, wait: real, delay: real)
    requires rate > 0.0 && wait == (1.0 - tokens) / rate
    ensures tokens + delay * rate >= 1.0 <==> delay >= wait
  {
    WaitTimesRate(1.0 - tokens, rate, wait);
    if delay >= wait { assert (delay - wait) * rate >= 0.0; } else { assert (wait - delay) * rate > 0.0; }
  }

  lemma WaitTimesRate(missing: real, rate: real, wait: real)
    requires rate > 0.0 && wait == missing / rate
    ensures wait * rate == missing
  {
  }

  // A lone retry after a refusal is refused again exactly when the circuit is open, nothing is refilled, the delay is
  // less than the hint or the bucket cannot hold one token; what is not refused is permitted, or divides by a zero
  // latency ceiling.
  lemma WaitHintIsExact(c: Config, s: State, now: real, delay: real)
    requires Acquired(c, s, now).1.Refused? && delay >= 0.0
    ensures
      var (s', refusal) := Acquired(c, s, now);
      var retry := Acquired(c, s', now + delay).1;
      && (!retry.Refused? <==> !s.circuitOpen && c.rateLimit > 0.0 && delay >= refusal.wait && c.burstCapacity >= 1)
      && (retry.DividedByZero? <==> !retry.Refused? && ThrottleDelay(c, s.latencies).None?)
  {
    var (s', refusal) := Acquired(c, s, now);
    assert now + delay - s'.lastRefill == delay;
    if !s.circuitOpen {
      if c.rateLimit > 0.0 {
        WaitSuffices(s'.tokens, c.rateLimit, refusal.wait, delay);
      } else {
        NothingRefilled(c.rateLimit, delay);
      }
    }
  }

  lemma NothingRefilled(rate: real, delay: real)
    requires rate <= 0.0 && delay >= 0.0
    ensures delay * rate <= 0.0
  {
  }

  // ----- The circuit -----

  function Records(ops: seq<Op>): (n: nat)
    ensures n <= |ops|
  {
    if ops == [] then 0 else Records(ops[..|ops| - 1]) + if ops[|ops| - 1].Record? then 1 else 0
  }

  lemma {:induction false} CountOfTail(threats: seq<bool>)
    requires threats != []
    ensures Count(threats[1..]) >= Count(threats) - 1
  {
    if |threats| > 1 {
      var front := threats[..|threats| - 1];
      CountOfTail(front);
      assert threats[1..][..|threats| - 2] == front[1..];
    }
  }

  // One more result evicts at most one threat, and none while the window is not full.
  lemma PushedCount(threats: seq<bool>, threat: bool, length: nat)
    requires 1 <= length && |threats| <= length
    ensures
      var after := Pushed(threats, threat, length);
      && |after| == (if |threats| < length then |threats| + 1 else length)
      && Count(after) >= Count(threats) - if |threats| < length then 0 else 1
  {
    if |threats| < length {
      assert (threats + [threat])[..|threats|] == threats;
    } else {
      CountOfTail(threats);
      assert (threats[1..] + [threat])[..|threats| - 1] == threats[1..];
    }
  }

  // The window `m` results later, when it was `n` long with `k` threats and may be `length` long.
  predicate Later(threats: seq<bool>, n: nat, k: nat, m: nat, length: nat)
    requires n <= length
  {
    && |threats| == (if n + m < length then n + m else length)
    && Count(threats) >= k - if n + m < length then 0 else n + m - length
  }

  // m results are at most circuit_pct * n / 2.
  predicate FewResults(pct: real, n: nat, m: nat) {
    m as real <= pct * n as real * 0.5
  }

  // So few results leave the rate at half the threshold or above.
  lemma {:induction false} HalfRateKept(tripping: seq<bool>, threats: seq<bool>, m: nat, length: nat, pct: real, half: real)
    requires 1 <= |tripping| <= length && Later(threats, |tripping|, Count(tripping), m, length)
    requires RateAtLeast(tripping, pct) && FewResults(pct, |tripping|, m) && half == pct * 0.5
    ensures RateAtLeast(threats, half)
  {
    HalfRateOf(pct, half, |tripping|, Count(tripping), m, length, |threats|, Count(threats));
  }

  lemma HalfRateOf(pct: real, half: real, n: nat, k: nat, m: nat, length: nat, size: nat, count: nat)
    requires 1 <= n <= length && k <= n && AtLeast(k, n, pct) && FewResults(pct, n, m) && half == pct * 0.5
    requires size == (if n + m < length then n + m else length)
    requires count >= k - if n + m < length then 0 else n + m - length
    ensures AtLeast(count, size, half)
  {
    HalfRate(pct, n as real, k as real, m as real, length as real, size as real, count as real,
             pct * n as real, half * size as real);
  }

  lemma HalfRate(
    pct: real, n: real, k: real, m: real, length: real, size: real, count: real, threshold: real, half: real)
    requires 1.0 <= n <= length && threshold <= k <= n && 0.0 <= m <= threshold * 0.5
    requires if n + m < length then size == n + m && count >= k else size == length && count >= k - (n + m - length)
    requires threshold == pct * n && half == pct * 0.5 * size
    ensures count >= half
  {
    var slack := 1.0 - pct;
    SlackSign(n, slack, n - threshold);
    var whole := pct * size;
    Excess(pct, size - n, n, size, threshold, whole);
    assert half == whole * 0.5;
  }

  lemma SlackSign(n: real, slack: real, product: real)
    requires n > 0.0 && product == n * slack
    ensures product >= 0.0 <==> slack >= 0.0
  {
    if slack < 0.0 { assert n * slack < 0.0; }
  }

  // A longer window raises the threshold by no more than it grows.
  lemma Excess(pct: real, more: real, n: real, size: real, threshold: real, whole: real)
    requires pct <= 1.0 && more >= 0.0 && size == n + more && threshold == pct * n && whole == pct * size
    ensures whole <= threshold + more
  {
    assert whole == threshold + pct * more;
    assert (1.0 - pct) * more >= 0.0;
  }

  lemma FewerResults(pct: real, n: nat, m: nat, fewer: nat)
    requires FewResults(pct, n, m) && fewer <= m
    ensures FewResults(pct, n, fewer)
  {
  }

  lemma CircuitKept(c: Config, threats: seq<bool>)
    requires RateAtLeast(threats, ClosingPct(c))
    ensures CircuitAfter(c, threats, true)
  {
  }

  // The window of a tripped circuit some results later.
  predicate Tripped(c: Config, s: State, s': State, m: nat)
    requires |s.threats| <= c.windowLength
  {
    s'.circuitOpen && Later(s'.threats, |s.threats|, Count(s.threats), m, c.windowLength)
  }

  lemma {:induction false} RecordKeepsTripped(c: Config, s: State, before: State, m: nat, latency: real, threat: bool)
    requires 10 <= |s.threats| <= c.windowLength && RateAtLeast(s.threats, c.circuitPct)
    requires Tripped(c, s, before, m) && FewResults(c.circuitPct, |s.threats|, m + 1)
    ensures Tripped(c, s, Recorded(c, before, latency, threat), m + 1)
  {
    var after := Pushed(before.threats, threat, c.windowLength);
    LaterGrows(s.threats, before.threats, m, threat, c.windowLength);
    HalfRateKept(s.threats, after, m + 1, c.windowLength, c.circuitPct, ClosingPct(c));
    CircuitKept(c, after);
  }

  lemma {:induction false} LaterGrows(tripping: seq<bool>, threats: seq<bool>, m: nat, threat: bool, length: nat)
    requires 1 <= |tripping| <= length && Later(threats, |tripping|, Count(tripping), m, length)
    ensures Later(Pushed(threats, threat, length), |tripping|, Count(tripping), m + 1, length)
  {
    PushedCount(threats, threat, length);
  }

  lemma {:induction false} OpenPersists(c: Config, s: State, ops: seq<Op>)
    requires s.circuitOpen && 10 <= |s.threats| <= c.windowLength && RateAtLeast(s.threats, c.circuitPct)
    requires FewResults(c.circuitPct, |s.threats|, Records(ops))
    ensures Tripped(c, s, Run(c, s, ops), Records(ops))
  {
    if ops != [] {
      var front, op := ops[..|ops| - 1], ops[|ops| - 1];
      FewerResults(c.circuitPct, |s.threats|, Records(ops), Records(front));
      OpenPersists(c, s, front);
      if op.Record? {
        RecordKeepsTripped(c, s, Run(c, s, front), Records(front), op.latency, op.threat);
      }
    }
  }

  // A circuit that has just opened on a window of n results cannot close before more than circuit_pct * n / 2
  // further ones, however the acquires fall between them.
  lemma CircuitStaysOpen(c: Config, s: State, latency: real, threat: bool, ops: seq<Op>)
    requires !s.circuitOpen && |s.threats| <= c.windowLength && Recorded(c, s, latency, threat).circuitOpen
    requires !Run(c, Recorded(c, s, latency, threat), ops).circuitOpen
    ensures !FewResults(c.circuitPct, |Recorded(c, s, latency, threat).threats|, Records(ops))
  {
    var tripped := Recorded(c, s, latency, threat);
    JustOpened(c, Pushed(s.threats, threat, c.windowLength));
    if FewResults(c.circuitPct, |tripped.threats|, Records(ops)) {
      OpenPersists(c, tripped, ops);
    }
  }

  lemma JustOpened(c: Config, threats: seq<bool>)
    requires CircuitAfter(c, threats, false)
    ensures |threats| >= 10 && RateAtLeast(threats, c.circuitPct)
  {
  }

  // ----- Behind adjudicate_with_vitality -----

  // One call: nothing is recorded unless the request was permitted.
  function Gate(c: Config, s: State, now: real, latency: real, threat: bool): State {
    var (s', outcome) := Acquired(c, s, now);
    if outcome.Permitted? then Recorded(c, s', latency, threat) else s'
  }

  datatype Call = Call(now: real, latency: real, threat: bool)

  function Gated(c: Config, s: State, calls: seq<Call>): State {
    if calls == [] then s
    else
      var last := calls[|calls| - 1];
      Gate(c, Gated(c, s, calls[..|calls| - 1]), last.now, last.latency, last.threat)
  }

  // Through the gate alone, an open circuit stays open and its window stays as it is, for ever.
  lemma {:induction false} GateLatchesOpen(c: Config, s: State, calls: seq<Call>)
    requires s.circuitOpen
    ensures Gated(c, s, calls).circuitOpen && Gated(c, s, calls).threats == s.threats
    ensures Gated(c, s, calls).blocked == s.blocked + |calls|
  {
    if calls != [] { GateLatchesOpen(c, s, calls[..|calls| - 1]); }
  }

  function GateCalls(now: real, n: nat): seq<Call> {
    seq(n, i => Call(now, 0.0, true))
  }

  // The state after n threats at one instant, each permitted.
  predicate Burst(c: Config, s: State, now: real, n: nat) {
    && s.tokens == (c.burstCapacity - n) as real && s.lastRefill == now
    && |s.latencies| == n && Sum(s.latencies) == 0.0
    && |s.threats| == n && Count(s.threats) == n
    && (s.circuitOpen <==> n == 10)
  }

  lemma BurstGrows(c: Config, s: State, now: real, n: nat)
    requires c.burstCapacity >= 10 && c.windowLength >= 10 && c.circuitPct <= 1.0
    requires n < 10 && Burst(c, s, now, n)
    ensures Burst(c, Gate(c, s, now, 0.0, true), now, n + 1)
  {
    assert (s.latencies + [0.0])[..n] == s.latencies;
    assert (s.threats + [true])[..n] == s.threats;
    assert Filled(s.tokens, 0.0, c.rateLimit, c.burstCapacity as real) == s.tokens;
  }

  lemma {:induction false} BurstAfter(c: Config, now: real, n: nat)
    requires c.burstCapacity >= 10 && c.windowLength >= 10 && c.circuitPct <= 1.0 && n <= 10
    ensures Burst(c, Gated(c, Initial(c, now), GateCalls(now, n)), now, n)
  {
    if n > 0 {
      BurstAfter(c, now, n - 1);
      assert GateCalls(now, n)[..n - 1] == GateCalls(now, n - 1);
      BurstGrows(c, Gated(c, Initial(c, now), GateCalls(now, n - 1)), now, n - 1);
    }
  }

  // The gate does open circuits: from the start, ten threats at one instant do it.
  lemma BurstOpensGate(c: Config, now: real)
    requires c.burstCapacity >= 10 && c.windowLength >= 10 && c.circuitPct <= 1.0
    ensures Gated(c, Initial(c, now), GateCalls(now, 10)).circuitOpen
  {
    BurstAfter(c, now, 10);
  }

  lemma {:induction false} GatedSplits(c: Config, s: State, calls: seq<Call>, n: nat)
    requires n <= |calls|
    ensures Gated(c, s, calls) == Gated(c, Gated(c, s, calls[..n]), calls[n..])
    decreases |calls|
  {
    if n == |calls| {
      assert calls[..n] == calls;
    } else {
      var front := calls[..|calls| - 1];
      GatedSplits(c, s, front, n);
      assert front[..n] == calls[..n] && calls[n..][..|calls| - n - 1] == front[n..];
    }
  }

  // A gated run ends with a closed circuit exactly when the circuit was never open during it.
  lemma {:induction false} GatedClosedIff(c: Config, s: State, calls: seq<Call>)
    ensures !Gated(c, s, calls).circuitOpen <==>
            forall n :: 0 <= n <= |calls| ==> !Gated(c, s, calls[..n]).circuitOpen
  {
    assert calls[..|calls|] == calls;
    forall n | 0 <= n <= |calls| && Gated(c, s, calls[..n]).circuitOpen ensures Gated(c, s, calls).circuitOpen {
      GatedSplits(c, s, calls, n);
      GateLatchesOpen(c, Gated(c, s, calls[..n]), calls[n..]);
    }
  }

  // The results that a gated run records: those of the calls that were permitted.
  function Results(c: Config, s: State, calls: seq<Call>): seq<bool> {
    if calls == [] then []
    else
      var front, last := calls[..|calls| - 1], calls[|calls| - 1];
      Results(c, s, front) +
      if Acquired(c, Gated(c, s, front), last.now).1.Permitted? then [last.threat] else []
  }


  // Ten results or more, at the opening rate.
  predicate Overloaded(c: Config, window: seq<bool>) {
    |window| >= 10 && RateAtLeast(window, c.circuitPct)
  }


  lemma Regroup(a: seq<bool>, b: seq<bool>, x: bool)
    ensures a + (b + [x]) == a + b + [x]
    ensures b + [] == b
  {
  }

  lemma {:induction false} WindowOfResults(c: Config, s: State, calls: seq<Call>)
    requires |s.threats| <= c.windowLength
    ensures Gated(c, s, calls).threats == Window(s.threats + Results(c, s, calls), c.windowLength)
  {
    if calls == [] {
      assert s.threats + [] == s.threats;
    } else {
      var front, last := calls[..|calls| - 1], calls[|calls| - 1];
      var all := s.threats + Results(c, s, front);
      WindowOfResults(c, s, front);
      WindowGrows(all, last.threat, c.windowLength);
      Regroup(s.threats, Results(c, s, front), last.threat);
    }
  }

  // The window after the first `n` calls.
  function WindowAt(c: Config, s: State, calls: seq<Call>, n: nat): seq<bool>
    requires n <= |calls|
  {
    Window(s.threats + Results(c, s, calls[..n]), c.windowLength)
  }

  lemma OpensIff(c: Config, threats: seq<bool>)
    ensures CircuitAfter(c, threats, false) <==> Overloaded(c, threats)
  {
  }

  lemma GateOpensIff(c: Config, s: State, call: Call)
    requires !s.circuitOpen && !Overloaded(c, s.threats)
    ensures Gate(c, s, call.now, call.latency, call.threat).circuitOpen <==>
            Overloaded(c, Gate(c, s, call.now, call.latency, call.threat).threats)
  {
    OpensIff(c, Pushed(s.threats, call.threat, c.windowLength));
  }

  // After some of the calls, the last results permitted were at least ten, and threats at the opening rate or above.
  predicate SomeOverload(c: Config, s: State, calls: seq<Call>) {
    exists n :: 0 <= n <= |calls| && Overloaded(c, WindowAt(c, s, calls, n))
  }

  lemma NoCallsNoOverload(c: Config, s: State)
    requires |s.threats| <= c.windowLength && !Overloaded(c, s.threats)
    ensures !SomeOverload(c, s, [])
  {
    var none: seq<Call> := [];
    assert none[..0] == none && s.threats + [] == s.threats;
    assert WindowAt(c, s, none, 0) == s.threats;
  }

  lemma EarlierWindow(c: Config, s: State, calls: seq<Call>, n: nat)
    requires n < |calls|
    ensures WindowAt(c, s, calls, n) == WindowAt(c, s, calls[..|calls| - 1], n)
  {
    assert calls[..n] == calls[..|calls| - 1][..n];
  }

  lemma OneMoreOverloadIff(c: Config, s: State, calls: seq<Call>)
    requires calls != []
    ensures SomeOverload(c, s, calls) <==>
            SomeOverload(c, s, calls[..|calls| - 1]) || Overloaded(c, WindowAt(c, s, calls, |calls|))
  {
    if SomeOverload(c, s, calls) {
      var n :| 0 <= n <= |calls| && Overloaded(c, WindowAt(c, s, calls, n));
      if n < |calls| { EarlierWindow(c, s, calls, n); }
    }
    if SomeOverload(c, s, calls[..|calls| - 1]) {
      var n :| 0 <= n <= |calls| - 1 && Overloaded(c, WindowAt(c, s, calls[..|calls| - 1], n));
      EarlierWindow(c, s, calls, n);
    }
  }

  lemma LastWindow(c: Config, s: State, calls: seq<Call>)
    requires |s.threats| <= c.windowLength
    ensures WindowAt(c, s, calls, |calls|) == Gated(c, s, calls).threats
  {
    WindowOfResults(c, s, calls);
    assert calls[..|calls|] == calls;
  }

  // From a closed circuit, a gated run ends with an open one exactly when its results were overloaded at some point.
  lemma {:induction false} GatedOpenIff(c: Config, s: State, calls: seq<Call>)
    requires !s.circuitOpen && |s.threats| <= c.windowLength && !Overloaded(c, s.threats)
    ensures Gated(c, s, calls).circuitOpen <==> SomeOverload(c, s, calls)
  {
    if calls == [] {
      NoCallsNoOverload(c, s);
    } else {
      var front, last := calls[..|calls| - 1], calls[|calls| - 1];
      GatedOpenIff(c, s, front);
      OneMoreOverloadIff(c, s, calls);
      LastWindow(c, s, calls);
      LastWindow(c, s, front);
      if !SomeOverload(c, s, front) {
        assert !Overloaded(c, WindowAt(c, s, front, |front|));
        GateOpensIff(c, Gated(c, s, front), last);
      }
    }
  }

  // ----- The class -----

  class NeuroStressBuffer {
    const config: Config
    var bucketTokens: real
    var lastRefill: real
    var circuitOpen: bool
    var recentLatencies: seq<real>
    var recentThreats: seq<bool>
    var totalThrottled: nat
    var totalBlocked: nat

    ghost function Model(): State
      reads this
    {
      State(bucketTokens, lastRefill, circuitOpen, recentLatencies, recentThreats, totalThrottled, totalBlocked)
    }

    constructor (config: Config, now: real)
      ensures this.config == config && Model() == Initial(config, now)
      ensures bucketTokens == config.burstCapacity as real && lastRefill == now && !circuitOpen
      ensures recentLatencies == [] && recentThreats == [] && totalThrottled == 0 && totalBlocked == 0
    {
      this.config := config;
      bucketTokens, lastRefill, circuitOpen := config.burstCapacity as real, now, false;
      recentLatencies, recentThreats, totalThrottled, totalBlocked := [], [], 0, 0;
    }

    method RefillBucket(now: real)
      modifies this
      ensures Model() == Refilled(config, old(Model()), now)
    {
      var elapsed := now - lastRefill;
      var refill := elapsed * config.rateLimit;
      bucketTokens := Min(config.burstCapacity as real, bucketTokens + refill);
      lastRefill := now;
    }

    method Acquire(now: real) returns (outcome: Outcome)
      modifies this
      ensures Model() == Acquired(config, old(Model()), now).0
      ensures outcome == Acquired(config, old(Model()), now).1
    {
      RefillBucket(now);
      if circuitOpen {
        totalBlocked := totalBlocked + 1;
        return Refused(0.0);
      }
      if bucketTokens >= 1.0 {
        bucketTokens := bucketTokens - 1.0;
        var delay := ThrottleDelay(config, recentLatencies);
        if delay.None? {
          return DividedByZero;
        }
        if delay.value > 0.0 {
          totalThrottled := totalThrottled + 1;
        }
        return Permitted(delay.value);
      }
      totalBlocked := totalBlocked + 1;
      if config.rateLimit == 0.0 {
        return DividedByZero;
      }
      return Refused((1.0 - bucketTokens) / config.rateLimit);
    }

    method RecordResult(latency: real, threat: bool)
      modifies this
      ensures Model() == Recorded(config, old(Model()), latency, threat)
    {
      recentLatencies := Pushed(recentLatencies, latency, LATENCY_WINDOW);
      recentThreats := Pushed(recentThreats, threat, config.windowLength);
      UpdateCircuit();
    }

    method UpdateCircuit()
      modifies this`circuitOpen
      ensures circuitOpen == CircuitAfter(config, recentThreats, old(circuitOpen))
    {
      if |recentThreats| >= 10 {
        if RateAtLeast(recentThreats, config.circuitPct) {
          circuitOpen := true;
        } else if !RateAtLeast(recentThreats, ClosingPct(config)) {
          circuitOpen := false;
        }
      }
    }
  }
}
