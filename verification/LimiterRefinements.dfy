/** What a caller cannot observe of one key (denied calls, key expiry), and what the retry hint promises. */
module LimiterRefinements {
  import opened Wrappers
  import opened HybridLimit
  import opened LimiterRuns

  /** The answers to the calls, in order. */
  function Decisions(r: ValidRule, s: State, calls: seq<int>): (answers: seq<Decision>)
    ensures |answers| == |calls|
    decreases |calls|
  {
    if calls == [] then [] else [Decide(r, s, calls[0])] + Decisions(r, Next(r, s, calls[0]), calls[1..])
  }

  /** From `t` on the two contents can no longer be told apart by any call. */
  ghost predicate Agrees(r: ValidRule, s: State, s': State, t: int) {
    && StartsAt(r, s, t)
    && StartsAt(r, s', t)
    && Refilled(r, s.bucket, t) == Refilled(r, s'.bucket, t)
    && After(s.window, t - r.window) == After(s'.window, t - r.window)
  }

  lemma AgreesLater(r: ValidRule, s: State, s': State, t: int, u: int)
    requires Agrees(r, s, s', t) && t <= u
    ensures Agrees(r, s, s', u)
  {
    RefilledCompose(r, s, t, u);
    RefilledCompose(r, s', t, u);
    AfterAfter(s.window, t - r.window, u - r.window);
    AfterAfter(s'.window, t - r.window, u - r.window);
  }

  lemma RefilledAtOnce(r: ValidRule, tokens: int, t: int)
    requires 0 <= tokens <= Capacity(r)
    ensures Refilled(r, Some(Bucket(tokens, t)), t) == tokens
  {
  }

  /** A denied call rewrites tokens, timestamp and log, but not what later calls see. */
  lemma DeniedAgrees(r: ValidRule, s: State, c: int)
    requires StartsAt(r, s, c) && !Admits(r, s, c)
    ensures Agrees(r, Next(r, s, c), s, c)
  {
    hide Refilled;
    hide After;
    NextValid(r, s, c);
    RefilledBounds(r, s, c);
    RefilledAtOnce(r, Refilled(r, s.bucket, c), c);
    AfterAfter(s.window, c - r.window, c - r.window);
  }

  /** Contents that agree answer a call alike and are left identical by it. */
  lemma AgreesStep(r: ValidRule, s: State, s': State, t: int, c: int)
    requires Agrees(r, s, s', t) && t <= c
    ensures Decide(r, s, c) == Decide(r, s', c) && Admits(r, s, c) == Admits(r, s', c)
    ensures Next(r, s, c) == Next(r, s', c)
    ensures Agrees(r, Next(r, s, c), Next(r, s, c), c)
    ensures !Admits(r, s, c) ==> Agrees(r, Next(r, s, c), s', c)
  {
    AgreesLater(r, s, s', t, c);
    NextValid(r, s, c);
    if !Admits(r, s, c) {
      DeniedAgrees(r, s', c);
    }
  }

  // ----- denied calls -----

  function Select<T>(xs: seq<T>, keep: seq<bool>): seq<T>
    requires |xs| == |keep|
    decreases |xs|
  {
    if xs == [] then [] else (if keep[0] then [xs[0]] else []) + Select(xs[1..], keep[1..])
  }

  lemma SelectCons<T>(x: T, xs: seq<T>, keep: seq<bool>)
    requires 1 + |xs| == |keep|
    ensures Select([x] + xs, keep) == (if keep[0] then [x] else []) + Select(xs, keep[1..])
  {
    assert ([x] + xs)[1..] == xs;
  }

  /** Only denied calls are dropped. */
  predicate DropsOnlyDenied(r: ValidRule, s: State, calls: seq<int>, keep: seq<bool>)
    requires |calls| == |keep|
    decreases |calls|
  {
    calls == []
    || ((keep[0] || !Admits(r, s, calls[0])) && DropsOnlyDenied(r, Next(r, s, calls[0]), calls[1..], keep[1..]))
  }

  lemma {:induction false} InertFrom(r: ValidRule, s: State, s': State, t: int, calls: seq<int>, keep: seq<bool>)
    requires |calls| == |keep| && Agrees(r, s, s', t) && Chronological(t, calls)
    requires DropsOnlyDenied(r, s, calls, keep)
    ensures Decisions(r, s', Select(calls, keep)) == Select(Decisions(r, s, calls), keep)
    decreases |calls|
  {
    if calls != [] {
      var c, next, rest := calls[0], Next(r, s, calls[0]), calls[1..];
      AgreesStep(r, s, s', t, c);
      SelectCons(c, rest, keep);
      SelectCons(Decide(r, s, c), Decisions(r, next, rest), keep);
      assert [c] + rest == calls;
      InertFrom(r, next, if keep[0] then next else s', c, rest, keep[1..]);
      var others := Select(rest, keep[1..]);
      assert ([c] + others)[1..] == others && [] + others == others;
      var answers := Select(Decisions(r, next, rest), keep[1..]);
      assert [] + answers == answers;
    }
  }

  /** Deleting any set of denied calls from a run changes no answer, decision or retry, of the calls that remain. */
  lemma DeniedCallsAreInert(r: ValidRule, calls: seq<int>, keep: seq<bool>, start: int)
    requires |calls| == |keep| && Chronological(start, calls) && DropsOnlyDenied(r, FRESH, calls, keep)
    ensures Decisions(r, FRESH, Select(calls, keep)) == Select(Decisions(r, FRESH, calls), keep)
  {
    CapacityBounds(r);
    InertFrom(r, FRESH, FRESH, start, calls, keep);
  }

  // ----- key expiry -----

  /** A call of the script, or one of its two keys vanishing. */
  datatype Event = Called(at: int) | BucketExpires(at: int) | WindowExpires(at: int)

  /** Events in time order; a key may vanish only after it has been idle for its time to live. */
  predicate Legal(r: Rule, lastCall: Option<int>, from: int, events: seq<Event>)
    decreases |events|
  {
    events == []
    || (var e := events[0];
        && from <= e.at
        && (!e.Called? && lastCall.Some? ==> lastCall.value + TimeToLive(r) <= e.at)
        && Legal(r, if e.Called? then Some(e.at) else lastCall, e.at, events[1..]))
  }

  function Answers(r: ValidRule, s: State, events: seq<Event>): seq<Decision>
    decreases |events|
  {
    if events == [] then []
    else
      match events[0]
      case Called(now) => [Decide(r, s, now)] + Answers(r, Next(r, s, now), events[1..])
      case BucketExpires(_) => Answers(r, s.(bucket := None), events[1..])
      case WindowExpires(_) => Answers(r, s.(window := []), events[1..])
  }

  function Calls(events: seq<Event>): seq<int>
    decreases |events|
  {
    if events == [] then []
    else (if events[0].Called? then [events[0].at] else []) + Calls(events[1..])
  }

  /** Nothing stored is later than the last call. */
  ghost predicate StoredBy(s: State, lastCall: Option<int>) {
    match lastCall
    case None => s == FRESH
    case Some(t) => Ready(s, t) && forall e :: e in s.window ==> e <= t
  }

  lemma StoredNext(r: ValidRule, s: State, lastCall: Option<int>, now: int)
    requires StoredBy(s, lastCall) && (lastCall.Some? ==> lastCall.value <= now)
    ensures StoredBy(Next(r, s, now), Some(now))
  {
    AfterKeepsLater(s.window, now - r.window);
  }

  /** Idle for half its time to live, a bucket has refilled and a log has emptied: losing either is losing nothing. */
  lemma IdleIsFresh(r: ValidRule, s: State, lastCall: Option<int>, now: int)
    requires StoredBy(s, lastCall) && Valid(r, s)
    requires lastCall.Some? ==> lastCall.value + Max(r.restoreOver, r.window) <= now
    ensures Refilled(r, s.bucket, now) == Capacity(r)
    ensures After(s.window, now - r.window) == []
  {
    if lastCall.Some? {
      AfterEvictsAll(s.window, now - r.window);
      if s.bucket.Some? {
        MulMonotone(r.restoreOver, now - s.bucket.value.updatedAt, r.immediate);
      }
    }
  }

  lemma {:induction false} ExpiryFrom(
    r: ValidRule, s: State, s': State, lastCall: Option<int>, t: int, events: seq<Event>)
    requires Agrees(r, s, s', t) && StoredBy(s', lastCall) && (lastCall.Some? ==> lastCall.value <= t)
    requires Legal(r, lastCall, t, events)
    ensures Answers(r, s, events) == Decisions(r, s', Calls(events))
    decreases |events|
  {
    if events != [] {
      var e, rest := events[0], events[1..];
      match e {
        case Called(now) =>
          var next := Next(r, s', now);
          AgreesStep(r, s, s', t, now);
          StoredNext(r, s', lastCall, now);
          ExpiryFrom(r, next, next, Some(now), now, rest);
          assert ([now] + Calls(rest))[1..] == Calls(rest);
        case BucketExpires(now) =>
          AgreesLater(r, s, s', t, now);
          IdleIsFresh(r, s', lastCall, now);
          ExpiryFrom(r, s.(bucket := None), s', lastCall, now, rest);
        case WindowExpires(now) =>
          AgreesLater(r, s, s', t, now);
          IdleIsFresh(r, s', lastCall, now);
          ExpiryFrom(r, s.(window := []), s', lastCall, now, rest);
      }
      assert !e.Called? ==> [] + Calls(rest) == Calls(rest);
    }
  }

  /** With keys vanishing whenever their idle time allows, every answer is the one given by keys kept forever. */
  lemma ExpiryIsUnobservable(r: ValidRule, start: int, events: seq<Event>)
    requires Legal(r, None, start, events)
    ensures Answers(r, FRESH, events) == Decisions(r, FRESH, Calls(events))
  {
    CapacityBounds(r);
    ExpiryFrom(r, FRESH, FRESH, None, start, events);
  }

  // ----- the retry hint -----

  lemma RetryExactAtOnce(r: ValidRule, s: State, t: int, d: nat)
    requires Valid(r, s) && !Admits(r, s, t)
    ensures Decide(r, s, t).retryAfter >= 1
    ensures Admits(r, Next(r, s, t), t + d) <==> d >= Decide(r, s, t).retryAfter
  {
    DenialWaits(r, s, t, 0);
    DenialWaits(r, s, t, d);
  }

  /** After a denial each of the two limits opens exactly when its own wait has passed. */
  lemma DenialWaits(r: ValidRule, s: State, t: int, d: nat)
    requires Valid(r, s) && !Admits(r, s, t)
    ensures
      var tokens, live := Refilled(r, s.bucket, t), After(s.window, t - r.window);
      && Decide(r, s, t).retryAfter == Max(TokenRetry(r, tokens), WindowRetry(r, |live|, live, t))
      && (Admits(r, Next(r, s, t), t + d) <==> d >= TokenRetry(r, tokens) && d >= WindowRetry(r, |live|, live, t))
      && (d == 0 ==> !Admits(r, Next(r, s, t), t + d))
  {
    hide Refilled;
    hide After;
    hide CeilDiv;
    var live := After(s.window, t - r.window);
    RefilledBounds(r, s, t);
    AfterSize(s.window, t - r.window);
    AfterAfter(s.window, t - r.window, t - r.window);
    TokenWait(r, Refilled(r, s.bucket, t), t, d);
    TokenWait(r, Refilled(r, s.bucket, t), t, 0);
    CeilDivLeast(r.restoreOver - Refilled(r, s.bucket, t), r.immediate, 0);
    WindowWait(r, live, t, 0);
    WindowWait(r, live, t, d);
  }

  /** A bucket left with `tokens` affords a request exactly when the token hint has passed. */
  lemma TokenWait(r: ValidRule, tokens: int, t: int, d: nat)
    requires 0 <= tokens <= Capacity(r)
    ensures Refilled(r, Some(Bucket(tokens, t)), t + d) >= r.restoreOver <==> d >= TokenRetry(r, tokens)
  {
    CapacityBounds(r);
    MulMonotone(0, d, r.immediate);
    CeilDivLeast(r.restoreOver - tokens, r.immediate, d);
    assert t + d - t == d;
    hide CeilDiv;
  }

  /** The hint given with an allowed call says when the bucket, though perhaps not the window, affords another. */
  lemma AllowedRetryExact(r: ValidRule, s: State, t: int, d: nat)
    requires Valid(r, s) && Admits(r, s, t)
    ensures Decide(r, s, t).retryAfter >= 0
    ensures Refilled(r, Next(r, s, t).bucket, t + d) >= r.restoreOver <==> d >= Decide(r, s, t).retryAfter
  {
    hide Refilled;
    hide After;
    hide CeilDiv;
    RefilledBounds(r, s, t);
    TokenWait(r, Refilled(r, s.bucket, t) - r.restoreOver, t, d);
    CeilDivLeast(2 * r.restoreOver - Refilled(r, s.bucket, t), r.immediate, 0);
  }

  /** A log has room exactly when its oldest entry has left the window, if it was full. */
  lemma WindowWait(r: ValidRule, live: seq<int>, t: int, d: nat)
    requires |live| <= r.maximum
    ensures |After(live, t + d - r.window)| < r.maximum <==> d >= WindowRetry(r, |live|, live, t)
  {
    AfterSize(live, t + d - r.window);
  }

  lemma {:induction false} AllDenied(r: ValidRule, s: State, t: int, calls: seq<int>, u: int)
    requires StartsAt(r, s, t) && Spans(t, calls, u) && AllowedTimes(r, s, calls) == []
    ensures Agrees(r, Final(r, s, calls), s, u)
    decreases |calls|
  {
    if calls == [] {
      AgreesLater(r, s, s, t, u);
    } else {
      var c, next := calls[0], Next(r, s, calls[0]);
      NextValid(r, s, c);
      SpansOrder(c, calls[1..], u);
      AllDenied(r, next, c, calls[1..], u);
      DeniedAgrees(r, s, c);
      AgreesLater(r, next, s, c, u);
    }
  }

  /**
   The retry hint is exact: after a denial at `t`, and any further calls that were all denied,
   a call at `t + d` is allowed if and only if `d` has reached the hint.
   */
  lemma RetryExact(r: ValidRule, s: State, t: int, between: seq<int>, d: nat)
    requires Valid(r, s) && !Admits(r, s, t)
    requires Spans(t, between, t + d) && AllowedTimes(r, Next(r, s, t), between) == []
    ensures Decide(r, s, t).retryAfter >= 1
    ensures Admits(r, Final(r, Next(r, s, t), between), t + d) <==> d >= Decide(r, s, t).retryAfter
  {
    NextValid(r, s, t);
    AllDenied(r, Next(r, s, t), t, between, t + d);
    RetryExactAtOnce(r, s, t, d);
  }

  /** Until the hint has passed every further call is denied, however many there are. */
  lemma {:induction false} NothingBeforeRetry(r: ValidRule, s: State, t: int, calls: seq<int>)
    requires Valid(r, s) && !Admits(r, s, t)
    requires Spans(t, calls, t + Decide(r, s, t).retryAfter - 1)
    ensures AllowedTimes(r, Next(r, s, t), calls) == []
    decreases |calls|
  {
    NextValid(r, s, t);
    RetryExactAtOnce(r, s, t, 0);
    StillDenied(r, Next(r, s, t), s, t, t, calls);
  }

  lemma {:induction false} StillDenied(r: ValidRule, now: State, s: State, t: int, u: int, calls: seq<int>)
    requires Valid(r, s) && !Admits(r, s, t) && t <= u
    requires Agrees(r, now, Next(r, s, t), u)
    requires Spans(u, calls, t + Decide(r, s, t).retryAfter - 1)
    ensures AllowedTimes(r, now, calls) == []
    decreases |calls|
  {
    if calls != [] {
      var c := calls[0];
      AgreesLater(r, now, Next(r, s, t), u, c);
      SpansOrder(c, calls[1..], t + Decide(r, s, t).retryAfter - 1);
      RetryExactAtOnce(r, s, t, c - t);
      DeniedAgrees(r, now, c);
      StillDenied(r, Next(r, now, c), s, t, c, calls[1..]);
    }
  }
}
