/**
 The limiter as it runs against Redis: the script over a keyspace whose keys expire, with the
 bucket kept in fractional tokens.  `Script` is what one run of it does to the keyspace, for every
 rule and whatever the keys hold; under a rule of whole milliseconds it is one step of the
 exact-integer model of `HybridLimit`.
 */
module RedisScript {
  import opened Wrappers
  import opened HybridLimit

  // ----- sorted sets -----

  /** A member of a sorted set.  The order in which a log lists its members carries no meaning. */
  datatype Event = Event(member: string, score: int)

  function Scores(events: seq<Event>): (scores: seq<int>)
    ensures |scores| == |events|
    ensures forall i :: 0 <= i < |events| ==> scores[i] == events[i].score
  {
    seq(|events|, i requires 0 <= i < |events| => events[i].score)
  }

  /** ZREMRANGEBYSCORE from minus infinity to `cutoff`. */
  function RemoveUpTo(events: seq<Event>, cutoff: int): seq<Event> {
    if events == [] then []
    else
      var rest := RemoveUpTo(events[..|events| - 1], cutoff);
      if events[|events| - 1].score > cutoff then rest + [events[|events| - 1]] else rest
  }

  predicate HasMember(events: seq<Event>, member: string) {
    exists i :: 0 <= i < |events| && events[i].member == member
  }

  /** ZADD: a new member is added, one the set holds already gets the new score. */
  function Add(events: seq<Event>, member: string, score: int): seq<Event> {
    if HasMember(events, member) then
      seq(|events|, i requires 0 <= i < |events| => if events[i].member == member then Event(member, score) else events[i])
    else events + [Event(member, score)]
  }

  lemma {:induction false} RemoveUpToScores(events: seq<Event>, cutoff: int)
    ensures Scores(RemoveUpTo(events, cutoff)) == After(Scores(events), cutoff)
    ensures forall m :: HasMember(RemoveUpTo(events, cutoff), m) ==> HasMember(events, m)
  {
    if events == [] {
      assert Scores(events) == [];
    } else {
      var init, last := events[..|events| - 1], events[|events| - 1];
      RemoveUpToScores(init, cutoff);
      assert Scores(events) == Scores(init) + [last.score];
      AfterLast(Scores(init), last.score, cutoff);
      var kept := RemoveUpTo(init, cutoff);
      assert Scores(kept + [last]) == Scores(kept) + [last.score];
      forall m | HasMember(RemoveUpTo(events, cutoff), m) ensures HasMember(events, m) {
        if HasMember(kept, m) {
          assert HasMember(init, m);
          var i :| 0 <= i < |init| && init[i].member == m;
          assert events[i].member == m;
        } else {
          assert events[|events| - 1].member == m;
        }
      }
    }
  }

  // ----- fractional tokens -----

  function RealMin(a: real, b: real): real { if a < b then a else b }

  function Ceil(x: real): int { -((-x).Floor) }

  /** `tokens` is a whole number of the units in which the integer model counts. */
  ghost predicate Exact(r: Rule, tokens: real, units: int) {
    tokens * r.restoreOver as real == units as real
  }

  ghost function Units(r: Rule, tokens: real): int {
    (tokens * r.restoreOver as real).Floor
  }

  lemma UnitsExact(r: Rule, tokens: real, units: int)
    requires Exact(r, tokens, units)
    ensures Units(r, tokens) == units
  {
  }

  lemma DivideBack(x: real, p: real)
    requires p > 0.0
    ensures x / p * p == x
  {
  }

  lemma Product(a: int, b: int)
    ensures (a * b) as real == a as real * b as real
  {
  }

  lemma ScaleOrder(a: real, b: real, p: real)
    requires p > 0.0
    ensures a < b <==> a * p < b * p
  {
    if a < b { assert (b - a) * p > 0.0; } else { assert (a - b) * p >= 0.0; }
  }

  /** The script's refill is the integer refill. */
  lemma RefillExact(r: ValidRule, tokens: real, units: int, elapsed: nat)
    requires Exact(r, tokens, units)
    ensures
      var restored := elapsed as real * r.immediate as real / r.restoreOver as real;
      Exact(r, RealMin(r.immediate as real, tokens + restored), Min(Capacity(r), units + elapsed * r.immediate))
  {
    var p := r.restoreOver as real;
    var gain := elapsed as real * r.immediate as real;
    DivideBack(gain, p);
    Product(elapsed, r.immediate);
    Product(r.immediate, r.restoreOver);
    assert (tokens + gain / p) * p == tokens * p + gain / p * p;
    ScaleOrder(r.immediate as real, tokens + gain / p, p);
  }

  /** One token is one request's worth of units. */
  lemma SpendExact(r: ValidRule, tokens: real, units: int)
    requires Exact(r, tokens, units)
    ensures tokens >= 1.0 <==> units >= r.restoreOver
    ensures Exact(r, tokens - 1.0, units - r.restoreOver)
  {
    var p := r.restoreOver as real;
    ScaleOrder(tokens, 1.0, p);
    assert (tokens - 1.0) * p == tokens * p - p;
  }

  lemma BelowRatio(q: int, a: int, b: int)
    requires b > 0
    ensures q as real < a as real / b as real <==> q * b < a
  {
    DivideBack(a as real, b as real);
    Product(q, b);
    ScaleOrder(q as real, a as real / b as real, b as real);
  }

  lemma CeilingOf(x: real, q: int)
    requires (q - 1) as real < x && !(q as real < x)
    ensures Ceil(x) == q
  {
  }

  lemma CeilExact(a: int, b: int)
    requires b > 0
    ensures Ceil(a as real / b as real) == CeilDiv(a, b)
  {
    var q := CeilDiv(a, b);
    CeilDivLeast(a, b, q);
    CeilDivLeast(a, b, q - 1);
    BelowRatio(q, a, b);
    BelowRatio(q - 1, a, b);
    hide CeilDiv;
    CeilingOf(a as real / b as real, q);
  }

  // ----- the script's arithmetic -----

  /** A rule as the script receives it: a duration under a millisecond arrives as zero. */
  type ScriptRule = r: Rule | r.immediate >= 1 && r.restoreOver >= 0 && r.maximum >= 1 && r.window >= 0
    witness Rule(1, 0, 1, 0)

  /** Fields read from the bucket hash, or nothing when the hash is missing. */
  datatype Fields = Fields(tokens: real, updatedAt: int)

  /**
   The tokens after the refill.  Without a period the script divides by zero, and its `math.min` keeps
   the limit whether the quotient is infinite or no number at all.
   */
  function Restored(r: ScriptRule, stored: Option<Fields>, now: int): real {
    match stored
    case None => r.immediate as real
    case Some(f) =>
      if r.restoreOver == 0 then r.immediate as real
      else
        RealMin(r.immediate as real,
                f.tokens + Max(0, now - f.updatedAt) as real * r.immediate as real / r.restoreOver as real)
  }

  function MissingWait(r: ScriptRule, remaining: real): int {
    Ceil(Missing(r, remaining) / r.immediate as real)
  }

  function Missing(r: ScriptRule, remaining: real): real {
    (1.0 - remaining) * r.restoreOver as real
  }

  /** The longer of the two waits, for the tokens and the log as the call leaves them. */
  function Waits(r: ScriptRule, remaining: real, count: int, events: seq<Event>, now: int): int {
    var tokenRetry := if remaining < 1.0 then MissingWait(r, remaining) else 0;
    var windowRetry :=
      if count >= r.maximum && events != [] then Max(0, Oldest(Scores(events)) + r.window - now) else 0;
    Max(tokenRetry, windowRetry)
  }

  /** What PEXPIRE leaves of a log: a time to live of zero deletes it at once. */
  function Kept(r: ScriptRule, events: seq<Event>): seq<Event> {
    if TimeToLive(r) == 0 then [] else events
  }

  datatype Outcome = Outcome(remaining: real, events: seq<Event>, decision: Decision)

  function Evaluated(r: ScriptRule, stored: Option<Fields>, log: seq<Event>, now: int, member: string): Outcome {
    var restored := Restored(r, stored, now);
    var live := RemoveUpTo(log, now - r.window);
    var allowed := restored >= 1.0 && |live| < r.maximum;
    var remaining := if allowed then restored - 1.0 else restored;
    var events := if allowed then Add(live, member, now) else live;
    Outcome(remaining, events, Decision(allowed, Waits(r, remaining, |live|, Kept(r, events), now)))
  }

  method Refill(r: ScriptRule, stored: Option<Fields>, now: int) returns (remaining: real)
    ensures remaining == Restored(r, stored, now)
  {
    remaining := r.immediate as real;
    var updatedAt := now;
    if stored.Some? {
      remaining, updatedAt := stored.value.tokens, stored.value.updatedAt;
    }
    var elapsed := Max(0, now - updatedAt);
    if r.restoreOver == 0 {
      remaining := r.immediate as real;
    } else {
      remaining := RealMin(r.immediate as real,
                           remaining + elapsed as real * r.immediate as real / r.restoreOver as real);
      assert stored == None ==> elapsed as real * r.immediate as real == 0.0;
    }
  }

  method Evaluate(r: ScriptRule, stored: Option<Fields>, log: seq<Event>, now: int, member: string)
    returns (remaining: real, events: seq<Event>, allowed: bool, retry: int)
    ensures Outcome(remaining, events, Decision(allowed, retry)) == Evaluated(r, stored, log, now, member)
  {
    hide Restored;
    hide RemoveUpTo;
    hide Add;
    hide Waits;
    remaining := Refill(r, stored, now);
    events := RemoveUpTo(log, now - r.window);
    var count := |events|;
    allowed := remaining >= 1.0 && count < r.maximum;
    if allowed {
      remaining := remaining - 1.0;
      events := Add(events, member, now);
    }
    retry := Wait(r, remaining, count, Kept(r, events), now);
  }

  method Wait(r: ScriptRule, remaining: real, count: int, events: seq<Event>, now: int) returns (retry: int)
    ensures retry == Waits(r, remaining, count, events, now)
  {
    hide MissingWait;
    hide Oldest;
    var tokenRetry := 0;
    if remaining < 1.0 {
      tokenRetry := MissingWait(r, remaining);
    }
    var windowRetry := 0;
    if count >= r.maximum && events != [] {
      windowRetry := Max(0, Oldest(Scores(events)) + r.window - now);
    }
    retry := Max(tokenRetry, windowRetry);
  }

  // ----- the script's arithmetic is the integer model's -----

  /** Stored values stand for a state of the integer model. */
  ghost predicate Represents(r: Rule, stored: Option<Fields>, events: seq<Event>, s: State) {
    && Scores(events) == s.window
    && match stored
       case None => s.bucket == None
       case Some(f) =>
         s.bucket.Some? && s.bucket.value.updatedAt == f.updatedAt && Exact(r, f.tokens, s.bucket.value.tokens)
  }

  lemma RestoredExact(r: ValidRule, stored: Option<Fields>, events: seq<Event>, s: State, now: int)
    requires Represents(r, stored, events, s)
    ensures Exact(r, Restored(r, stored, now), Refilled(r, s.bucket, now))
  {
    Product(r.immediate, r.restoreOver);
    if stored.Some? {
      RefillExact(r, stored.value.tokens, s.bucket.value.tokens, Max(0, now - stored.value.updatedAt));
    }
  }

  lemma MissingUnits(r: ValidRule, tokens: real, units: int)
    requires Exact(r, tokens, units)
    ensures Missing(r, tokens) == (r.restoreOver - units) as real
  {
    var p := r.restoreOver as real;
    assert (1.0 - tokens) * p == p - tokens * p;
  }

  /** The script's ceiling over fractional tokens is the integer ceiling over missing units. */
  lemma RetryExactly(r: ValidRule, tokens: real, units: int)
    requires Exact(r, tokens, units)
    ensures MissingWait(r, tokens) == CeilDiv(r.restoreOver - units, r.immediate)
  {
    hide Missing;
    hide Ceil;
    hide CeilDiv;
    hide Exact;
    MissingUnits(r, tokens, units);
    CeilExact(r.restoreOver - units, r.immediate);
  }

  lemma WaitsExact(r: ValidRule, remaining: real, units: int, count: int, events: seq<Event>, now: int)
    requires Exact(r, remaining, units)
    ensures Waits(r, remaining, count, events, now)
            == Max(TokenRetry(r, units), WindowRetry(r, count, Scores(events), now))
  {
    hide Exact;
    hide MissingWait;
    hide CeilDiv;
    hide Oldest;
    SpendExact(r, remaining, units);
    RetryExactly(r, remaining, units);
  }

  lemma KeptAll(r: ValidRule, events: seq<Event>)
    ensures Kept(r, events) == events
  {
  }

  /** The outcome computed with fractional tokens is the integer model's. */
  lemma EvaluatedExact(r: ValidRule, stored: Option<Fields>, log: seq<Event>, now: int, member: string, s: State)
    requires Represents(r, stored, log, s) && !HasMember(log, member)
    ensures
      var o := Evaluated(r, stored, log, now, member);
      && o.decision == Decide(r, s, now)
      && Represents(r, Some(Fields(o.remaining, now)), o.events, Next(r, s, now))
      && forall m :: HasMember(o.events, m) ==> m == member || HasMember(log, m)
  {
    var restored, units := Restored(r, stored, now), Refilled(r, s.bucket, now);
    var live := RemoveUpTo(log, now - r.window);
    RestoredExact(r, stored, log, s, now);
    RemoveUpToScores(log, now - r.window);
    SpendExact(r, restored, units);
    assert !HasMember(live, member);
    assert Scores(live + [Event(member, now)]) == Scores(live) + [now];
    var o := Evaluated(r, stored, log, now, member);
    hide Restored;
    hide Refilled;
    hide RemoveUpTo;
    hide After;
    hide Waits;
    hide Exact;
    hide Kept;
    hide Scores;
    hide CeilDiv;
    hide Oldest;
    KeptAll(r, o.events);
    WaitsExact(r, o.remaining, if o.decision.allowed then units - r.restoreOver else units, |live|, o.events, now);
  }

  // ----- the keyspace -----

  // A key is shown up to and including the millisecond at which it expires.

  /** HSET with its expiry. */
  datatype BucketEntry = BucketEntry(tokens: real, updatedAt: int, expiresAt: int)

  /** A sorted set with its expiry; Redis keeps no empty ones. */
  datatype WindowEntry = WindowEntry(events: seq<Event>, expiresAt: int)

  datatype Keyspace = Keyspace(buckets: map<string, BucketEntry>, windows: map<string, WindowEntry>)

  const EMPTY := Keyspace(map[], map[])

  /** The members of the log the server still shows at `serverNow`. */
  function LiveEvents(k: Keyspace, window: string, serverNow: int): seq<Event> {
    if window in k.windows && serverNow <= k.windows[window].expiresAt then k.windows[window].events else []
  }

  function LiveFields(k: Keyspace, bucket: string, serverNow: int): Option<Fields> {
    if bucket in k.buckets && serverNow <= k.buckets[bucket].expiresAt
    then Some(Fields(k.buckets[bucket].tokens, k.buckets[bucket].updatedAt))
    else None
  }

  /** What one run of the script makes of the keyspace, and what it answers. */
  function Script(
    k: Keyspace, bucket: string, window: string, now: int, r: ScriptRule, member: string, serverNow: int)
    : (Keyspace, Decision)
  {
    var o := Evaluated(r, LiveFields(k, bucket, serverNow), LiveEvents(k, window, serverNow), now, member);
    var expiresAt := serverNow + TimeToLive(r);
    (Keyspace(if TimeToLive(r) == 0 then k.buckets - {bucket}
              else k.buckets[bucket := BucketEntry(o.remaining, now, expiresAt)],
              if Kept(r, o.events) == [] then k.windows - {window}
              else k.windows[window := WindowEntry(o.events, expiresAt)]),
     o.decision)
  }

  class Redis {
    var keys: Keyspace

    constructor ()
      ensures keys == EMPTY
    {
      keys := EMPTY;
    }

    /** The script.  `serverNow` is the server's clock, which times expiry; `now` is the caller's. */
    method HybridLimitScript(bucket: string, window: string, now: int, r: ScriptRule, member: string, serverNow: int)
      returns (allowed: int, retry: int)
      modifies this
      ensures (keys, Decision(allowed == 1, retry)) == Script(old(keys), bucket, window, now, r, member, serverNow)
      ensures allowed == 0 || allowed == 1
    {
      hide Evaluated;
      var remaining, events, admitted, wait :=
        Evaluate(r, LiveFields(keys, bucket, serverNow), LiveEvents(keys, window, serverNow), now, member);
      var ttl := Max(r.restoreOver, r.window) * 2;
      keys := keys.(buckets := if ttl == 0 then keys.buckets - {bucket}
                               else keys.buckets[bucket := BucketEntry(remaining, now, serverNow + ttl)]);
      keys := keys.(windows := if events == [] || ttl == 0 then keys.windows - {window}
                               else keys.windows[window := WindowEntry(events, serverNow + ttl)]);
      allowed, retry := if admitted then 1 else 0, wait;
    }
  }

  // ----- the keyspace as the integer model sees it -----

  ghost function Contents(r: Rule, k: Keyspace, bucket: string, window: string, serverNow: int): State {
    var fields := LiveFields(k, bucket, serverNow);
    State(
      if fields.Some? then Some(Bucket(Units(r, fields.value.tokens), fields.value.updatedAt)) else None,
      Scores(LiveEvents(k, window, serverNow)))
  }

  /** A bucket last written under `r` holds a whole number of units. */
  ghost predicate Scaled(r: Rule, k: Keyspace, bucket: string) {
    bucket in k.buckets ==> Exact(r, k.buckets[bucket].tokens, Units(r, k.buckets[bucket].tokens))
  }

  /** One run of the script is one step of the integer model. */
  lemma ScriptSteps(
    k: Keyspace, bucket: string, window: string, now: int, r: ValidRule, member: string, serverNow: int)
    requires Scaled(r, k, bucket) && !HasMember(LiveEvents(k, window, serverNow), member)
    ensures
      var (after, answer) := Script(k, bucket, window, now, r, member, serverNow);
      var s := Contents(r, k, bucket, window, serverNow);
      && answer == Decide(r, s, now)
      && Contents(r, after, bucket, window, serverNow) == Next(r, s, now)
      && Scaled(r, after, bucket)
      && forall m :: HasMember(LiveEvents(after, window, serverNow), m)
                     ==> m == member || HasMember(LiveEvents(k, window, serverNow), m)
  {
    var s := Contents(r, k, bucket, window, serverNow);
    var fields, log := LiveFields(k, bucket, serverNow), LiveEvents(k, window, serverNow);
    EvaluatedExact(r, fields, log, now, member, s);
    var o := Evaluated(r, fields, log, now, member);
    hide Evaluated;
    hide Next;
    hide Decide;
    assert Next(r, s, now).bucket.Some?;
    UnitsExact(r, o.remaining, Next(r, s, now).bucket.value.tokens);
    assert Scores([]) == [];
  }

  /** Whatever the call's outcome, both expiries start anew. */
  lemma ScriptRenews(
    k: Keyspace, bucket: string, window: string, now: int, r: ValidRule, member: string, serverNow: int)
    ensures
      var after := Script(k, bucket, window, now, r, member, serverNow).0;
      && bucket in after.buckets && after.buckets[bucket].expiresAt == serverNow + TimeToLive(r)
      && (window in after.windows ==> after.windows[window].expiresAt == serverNow + TimeToLive(r))
      && TimeToLive(r) == if r.restoreOver > r.window then 2 * r.restoreOver else 2 * r.window
  {
    hide Evaluated;
  }

  /** A rule with both durations under a millisecond leaves nothing stored. */
  lemma NothingStored(
    k: Keyspace, bucket: string, window: string, now: int, r: ScriptRule, member: string, serverNow: int)
    requires r.restoreOver == 0 && r.window == 0
    ensures Script(k, bucket, window, now, r, member, serverNow).0 == Keyspace(k.buckets - {bucket}, k.windows - {window})
  {
    hide Evaluated;
  }

  /** A run on one pair of keys leaves every other pair as it was. */
  lemma ScriptElsewhere(
    k: Keyspace, bucket: string, window: string, now: int, r: ScriptRule, member: string, serverNow: int,
    bucket': string, window': string, q: Rule, u: int)
    requires bucket != bucket' && window != window'
    ensures
      var after := Script(k, bucket, window, now, r, member, serverNow).0;
      && (bucket' in after.buckets <==> bucket' in k.buckets) && (window' in after.windows <==> window' in k.windows)
      && (bucket' in k.buckets ==> after.buckets[bucket'] == k.buckets[bucket'])
      && (window' in k.windows ==> after.windows[window'] == k.windows[window'])
      && Contents(q, after, bucket', window', u) == Contents(q, k, bucket', window', u)
      && LiveEvents(after, window', u) == LiveEvents(k, window', u)
      && Scaled(q, after, bucket') == Scaled(q, k, bucket')
  {
    hide Evaluated;
  }

  /** Untouched since a run at `t`, a pair of keys reads the same until its time to live is over, and then as new. */
  lemma IdleContents(r: ValidRule, k: Keyspace, bucket: string, window: string, t: int, u: int)
    requires t <= u && bucket in k.buckets && k.buckets[bucket].expiresAt == t + TimeToLive(r)
    requires window in k.windows ==> k.windows[window].expiresAt == t + TimeToLive(r)
    ensures Contents(r, k, bucket, window, u)
            == if t + TimeToLive(r) < u then FRESH else Contents(r, k, bucket, window, t)
    ensures LiveEvents(k, window, u) == if t + TimeToLive(r) < u then [] else LiveEvents(k, window, t)
  {
    assert Scores([]) == [];
  }
}
