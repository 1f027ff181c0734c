/**
 One key of the hybrid limiter: a token bucket together with a sliding-window log.

 The script keeps the bucket in fractional tokens.  Here one token is `restoreOver` units, so a
 millisecond restores exactly `immediate` units, a request costs `restoreOver` units, the bucket
 holds at most `immediate * restoreOver` of them, and every quantity is an exact integer.
 */
module HybridLimit {
  import opened Wrappers

  /** Durations are whole milliseconds, the unit in which they reach the script. */
  datatype Rule = Rule(immediate: int, restoreOver: int, maximum: int, window: int)

  /** At least one request and one millisecond each. */
  predicate WholeMilliseconds(rule: Rule) {
    && rule.immediate >= 1
    && rule.restoreOver >= 1
    && rule.maximum >= 1
    && rule.window >= 1
  }

  type ValidRule = r: Rule | WholeMilliseconds(r) witness Rule(1, 1, 1, 1)

  datatype Bucket = Bucket(tokens: int, updatedAt: int)

  /** A missing bucket key is `None`; a missing window key is the empty log. */
  datatype State = State(bucket: Option<Bucket>, window: seq<int>)

  const FRESH := State(None, [])

  datatype Decision = Decision(allowed: bool, retryAfter: int)

  function Min(a: int, b: int): int { if a < b then a else b }

  function Max(a: int, b: int): int { if a < b then b else a }

  /** The least integer that is at least `a / b`. */
  function CeilDiv(a: int, b: int): int
    requires b > 0
  {
    (a + b - 1) / b
  }

  /** How long an idle key is kept. */
  function TimeToLive(r: Rule): int { Max(r.restoreOver, r.window) * 2 }

  function Capacity(r: Rule): int { r.immediate * r.restoreOver }

  /** What the bucket holds at `now`, refilled for the time since it was last written. */
  function Refilled(r: Rule, bucket: Option<Bucket>, now: int): int {
    match bucket
    case None => Capacity(r)
    case Some(b) => Min(Capacity(r), b.tokens + Max(0, now - b.updatedAt) * r.immediate)
  }

  /** The log entries left once every score up to `cutoff` is removed. */
  function After(times: seq<int>, cutoff: int): seq<int> {
    if times == [] then []
    else
      var rest := After(times[..|times| - 1], cutoff);
      if times[|times| - 1] > cutoff then rest + [times[|times| - 1]] else rest
  }

  /** The smallest score in the log. */
  function Oldest(times: seq<int>): int
    requires times != []
  {
    var last := times[|times| - 1];
    if |times| == 1 then last else Min(Oldest(times[..|times| - 1]), last)
  }

  function TokenRetry(r: ValidRule, tokens: int): int {
    if tokens < r.restoreOver then CeilDiv(r.restoreOver - tokens, r.immediate) else 0
  }

  function WindowRetry(r: Rule, count: int, window: seq<int>, now: int): int {
    if count >= r.maximum && window != [] then Max(0, Oldest(window) + r.window - now) else 0
  }

  function Admits(r: Rule, s: State, now: int): bool {
    && Refilled(r, s.bucket, now) >= r.restoreOver
    && |After(s.window, now - r.window)| < r.maximum
  }

  /** The key's contents after one call of the script at `now`. */
  function Next(r: Rule, s: State, now: int): State {
    var tokens := Refilled(r, s.bucket, now);
    var live := After(s.window, now - r.window);
    if Admits(r, s, now) then State(Some(Bucket(tokens - r.restoreOver, now)), live + [now])
    else State(Some(Bucket(tokens, now)), live)
  }

  /** The pair the script returns for a call at `now`. */
  function Decide(r: ValidRule, s: State, now: int): Decision {
    var next := Next(r, s, now);
    var live := After(s.window, now - r.window);
    Decision(
      Admits(r, s, now),
      Max(TokenRetry(r, next.bucket.value.tokens), WindowRetry(r, |live|, next.window, now)))
  }

  /** What holds of a stored key whatever clock readings its calls carried. */
  ghost predicate Valid(r: Rule, s: State) {
    && (s.bucket.Some? ==> 0 <= s.bucket.value.tokens <= Capacity(r))
    && |s.window| <= r.maximum
  }

  /** The bucket was last written no later than `t`. */
  predicate Ready(s: State, t: int) {
    s.bucket.Some? ==> s.bucket.value.updatedAt <= t
  }

  // ----- arithmetic -----

  lemma MulMonotone(a: int, b: int, k: int)
    requires 0 <= k
    ensures a <= b ==> a * k <= b * k
  {
  }

  lemma RulePositive(r: ValidRule)
    ensures r.immediate >= 1 && r.restoreOver >= 1 && r.maximum >= 1 && r.window >= 1
  {
  }

  lemma CapacityBounds(r: ValidRule)
    ensures Capacity(r) >= r.restoreOver
    ensures Capacity(r) >= r.restoreOver + r.immediate - 1
  {
    assert (r.immediate - 1) * (r.restoreOver - 1) >= 0;
    assert Capacity(r) == (r.immediate - 1) * (r.restoreOver - 1) + r.restoreOver + r.immediate - 1;
  }

  lemma CeilDivLeast(a: int, b: int, d: int)
    requires b > 0
    ensures d * b >= a <==> d >= CeilDiv(a, b)
  {
    var q := CeilDiv(a, b);
    assert a <= q * b < a + b;
    if d >= q { MulMonotone(q, d, b); } else { MulMonotone(d, q - 1, b); }
  }

  // ----- the log -----

  lemma AfterLast(times: seq<int>, t: int, cutoff: int)
    ensures After(times + [t], cutoff) == if t > cutoff then After(times, cutoff) + [t] else After(times, cutoff)
  {
    assert (times + [t])[..|times|] == times;
  }

  lemma {:induction false} AfterConcat(a: seq<int>, b: seq<int>, cutoff: int)
    ensures After(a + b, cutoff) == After(a, cutoff) + After(b, cutoff)
  {
    if b == [] {
      assert a + b == a;
    } else {
      var init, last := b[..|b| - 1], b[|b| - 1];
      AfterConcat(a, init, cutoff);
      assert a + b == (a + init) + [last];
      AfterLast(a + init, last, cutoff);
    }
  }

  /** Eviction is monotone: an earlier, smaller cutoff leaves no trace behind a later one. */
  lemma {:induction false} AfterAfter(times: seq<int>, early: int, late: int)
    requires early <= late
    ensures After(After(times, early), late) == After(times, late)
  {
    if times != [] {
      var init, last := times[..|times| - 1], times[|times| - 1];
      AfterAfter(init, early, late);
      AfterLast(After(init, early), last, late);
    }
  }

  lemma {:induction false} AfterSize(times: seq<int>, cutoff: int)
    ensures |After(times, cutoff)| <= |times|
    ensures |After(times, cutoff)| < |times| <==> times != [] && Oldest(times) <= cutoff
  {
    if times != [] {
      AfterSize(times[..|times| - 1], cutoff);
    }
  }

  lemma {:induction false} AfterEvictsAll(times: seq<int>, cutoff: int)
    requires forall t :: t in times ==> t <= cutoff
    ensures After(times, cutoff) == []
  {
    if times != [] {
      var init := times[..|times| - 1];
      assert times[|times| - 1] in times && forall t :: t in init ==> t in times;
      AfterEvictsAll(init, cutoff);
    }
  }

  lemma {:induction false} AfterKeepsLater(times: seq<int>, cutoff: int)
    ensures forall t :: t in After(times, cutoff) ==> t in times && t > cutoff
  {
    if times != [] {
      AfterKeepsLater(times[..|times| - 1], cutoff);
    }
  }

  // ----- one call -----

  lemma RefilledBounds(r: ValidRule, s: State, now: int)
    requires Valid(r, s)
    ensures 0 <= Refilled(r, s.bucket, now) <= Capacity(r)
  {
    CapacityBounds(r);
    if s.bucket.Some? { MulMonotone(0, Max(0, now - s.bucket.value.updatedAt), r.immediate); }
  }

  /** Capped refills compose: reading the bucket early and refilling from there loses nothing. */
  lemma RefilledCompose(r: ValidRule, s: State, t: int, u: int)
    requires Valid(r, s) && Ready(s, t) && t <= u
    ensures Refilled(r, s.bucket, u) == Min(Capacity(r), Refilled(r, s.bucket, t) + (u - t) * r.immediate)
  {
    MulMonotone(0, u - t, r.immediate);
    if s.bucket.Some? {
      var at := s.bucket.value.updatedAt;
      assert (u - at) * r.immediate == (t - at) * r.immediate + (u - t) * r.immediate;
    }
  }

  /**
   Tokens stay between zero and the capacity and the log never outgrows the hard limit,
   with no assumption about the order of clock readings.
   */
  lemma NextValid(r: ValidRule, s: State, now: int)
    requires Valid(r, s)
    ensures Valid(r, Next(r, s, now)) && Ready(Next(r, s, now), now)
  {
    RefilledBounds(r, s, now);
    AfterSize(s.window, now - r.window);
  }
}
