/**
 One check of an attempt, and one request through the HTTP limiter, over Redis: what the calls do, with
 other callers' scripts running between the two charges of a check.
 */
module GuardChecks {
  import opened Wrappers
  import opened HybridLimit
  import opened LimiterRuns
  import opened KeyspaceRuns
  import opened GuardRuns
  import opened LimiterRefinements
  import opened RedisScript
  import opened RedisLimiter
  import opened AttemptGuards

  datatype Verdict = Pass | AttemptBlocked | Fault(error: Error)

  lemma {:induction false} TrimIdempotent(s: string)
    ensures TrimSpace(TrimSpace(s)) == TrimSpace(s)
  {
  }

  /** The parts of a charge survive the limiter's trimming and are not empty. */
  lemma ChargeParts(c: Charge, a: Attempt)
    requires c in Charges(a)
    ensures TrimSpace(c.operation) != ""
    ensures TrimSpace(c.dimension) == c.dimension != "" && TrimSpace(c.identity) == c.identity != ""
  {
    NotBlank(Prefix(a.guard) + a.operation);
    Words();
    TrimIdempotent(a.source);
    TrimIdempotent(a.email);
    TrimIdempotent(a.subject);
    hide TrimSpace;
  }

  lemma MadeParts(c: Charge)
    requires Made(c)
    ensures TrimSpace(c.operation) == c.operation && TrimSpace(c.dimension) == c.dimension
    ensures TrimSpace(c.identity) == c.identity
  {
    MadeTrimmed(c);
    if a: Attempt :| c in Charges(a) {
      ChargeParts(c, a);
    } else {
      var method', ip :| c == HttpCharge(method', ip);
      Words();
      TrimIdempotent(ip);
    }
    hide TrimSpace;
  }

  lemma Words()
    ensures TrimSpace("ip") == "ip" && TrimSpace("email") == "email" && TrimSpace("account") == "account"
    ensures TrimSpace("unknown") == "unknown"
  {
  }

  lemma NotBlank(s: string)
    requires s != "" && !IsSpace(s[0])
    ensures TrimSpace(s) != ""
    decreases |s|
  {
    if IsSpace(s[|s| - 1]) {
      NotBlank(s[..|s| - 1]);
    }
  }

  class AttemptGuard {
    const limiter: RedisLimiter

    constructor (limiter: RedisLimiter)
      ensures this.limiter == limiter
    {
      this.limiter := limiter;
    }

    function Key(c: Charge): string {
      limiter.Key(c.operation, c.dimension, c.identity)
    }

    /** The script run a delivered charge is answered by. */
    function AnswerTo(k: Keyspace, c: Charge, m: Moment): Decision
      requires m.reply.Delivered?
    {
      Answer(k, Call(Key(c), c.rule, m.now, m.reply.member, m.serverNow))
    }

    function KeysOnce(k: Keyspace, c: Charge, m: Moment): Keyspace {
      KeysAfter(k, Key(c), c.rule, m.now, m.serverNow, m.reply)
    }

    /** A guard's charge goes to the key the run model gives it. */
    lemma SameKeyString(c: Charge)
      requires Made(c)
      ensures Key(c) == KeyString(Naming(limiter.prefix, limiter.digest), KeyOf(c))
    {
      MadeParts(c);
      hide TrimSpace;
      hide IdentityKey;
    }

    /** Denials become the library's refusal; every other error is passed on, so a check fails closed. */
    method Charge(c: Charge, m: Moment) returns (verdict: Verdict)
      requires limiter.Complete(c.operation, c.dimension, c.identity)
      modifies limiter.redis
      ensures verdict == Pass <==> m.reply.Delivered? && AnswerTo(old(limiter.redis.keys), c, m).allowed
      ensures verdict == AttemptBlocked <==> m.reply.Delivered? && !AnswerTo(old(limiter.redis.keys), c, m).allowed
      ensures !m.reply.Delivered? ==> verdict == Fault(if m.reply.NoRandomness? then NoEntropy else Unavailable)
      ensures limiter.redis.keys == KeysOnce(old(limiter.redis.keys), c, m)
    {
      WholeRule(c.rule);
      hide Answer;
      hide KeysAfter;
      hide TrimSpace;
      hide IdentityKey;
      var result := limiter.Allow(c.operation, c.dimension, c.identity, Nanoseconds(c.rule), m.now, m.serverNow, m.reply);
      match result {
        case Ok(_) => verdict := Pass;
        case Err(LimitExceeded(_)) => verdict := AttemptBlocked;
        case Err(e) => verdict := Fault(e);
      }
    }

    /** Scripts that other callers run. */
    method Interfere(others: seq<Call>)
      modifies limiter.redis
      ensures limiter.redis.keys == RanAll(old(limiter.redis.keys), others)
    {
      hide Script;
      for i := 0 to |others|
        invariant limiter.redis.keys == RanAll(old(limiter.redis.keys), others[..i])
      {
        var c := others[i];
        assert others[..i + 1][..i] == others[..i];
        var allowed, retry :=
          limiter.redis.HybridLimitScript(BucketName(c.key), WindowName(c.key), c.now, c.rule, c.member, c.serverNow);
      }
      assert others[..|others|] == others;
    }

    /** What the run model makes of the two charges of a check, with other callers' scripts between them. */
    ghost function FlowAfter(before: Keyspace, a: Attempt, first: Moment, between: seq<Call>, second: Moment): Flow {
      var naming := Naming(limiter.prefix, limiter.digest);
      var begun := System(before, map[0 := Flow(Charges(a), [], Pending)], [], []);
      var once := ChargeMade(naming, begun, 0, first);
      if once.flows[0].phase != Pending || |Charges(a)| == 1 then once.flows[0]
      else ChargeMade(naming, once.(keys := RanAll(once.keys, between)), 0, second).flows[0]
    }

    /** The charge is admitted, and its caller is told so. */
    ghost predicate Admitted(k: Keyspace, c: Charge, m: Moment) {
      m.reply.Delivered? && AnswerTo(k, c, m).allowed
    }

    /** What one charge of a flow comes to, in terms of the guard's own key. */
    lemma ChargeOfFlow(s: System, c: Charge, m: Moment)
      requires Made(c) && 0 in s.flows && |s.flows[0].admitted| < |s.flows[0].charges|
      requires c == s.flows[0].charges[|s.flows[0].admitted|]
      ensures
        var f, after := s.flows[0], ChargeMade(Naming(limiter.prefix, limiter.digest), s, 0, m);
        && after.keys == KeysOnce(s.keys, c, m)
        && after.flows ==
           s.flows[0 :=
             if !m.reply.Delivered? then Flow(f.charges, f.admitted, Failed)
             else if !AnswerTo(s.keys, c, m).allowed then Flow(f.charges, f.admitted, Blocked)
             else Flow(f.charges, f.admitted + [m.now], if |f.admitted| + 1 == |f.charges| then Passed else Pending)]
    {
      hide ChargeMade;
      hide Made;
      hide KeyString;
      hide KeysAfter;
      hide Answer;
      hide IdentityKey;
      hide TrimSpace;
      SameKeyString(c);
      ChargeJudged(Naming(limiter.prefix, limiter.digest), s, 0, m);
    }

    lemma ChargesMade(a: Attempt)
      requires TrimSpace(a.operation) == a.operation
      ensures Charges(a) == if IdentityCharge(a) == None then [IPCharge(a)] else [IPCharge(a), IdentityCharge(a).value]
      ensures Made(IPCharge(a)) && (IdentityCharge(a).Some? ==> Made(IdentityCharge(a).value))
    {
      assert IPCharge(a) in Charges(a) && (IdentityCharge(a).Some? ==> IdentityCharge(a).value in Charges(a));
      hide IPCharge;
      hide IdentityCharge;
      hide TrimSpace;
    }

    /** The run model's flow of a check passes, or is blocked, exactly when its charges say so. */
    lemma FlowPhase(before: Keyspace, a: Attempt, first: Moment, between: seq<Call>, second: Moment)
      requires TrimSpace(a.operation) == a.operation
      ensures
        var ip, identity, flow := IPCharge(a), IdentityCharge(a), FlowAfter(before, a, first, between, second);
        var then' := RanAll(KeysOnce(before, ip, first), between);
        && (flow.phase == Passed <==>
              Admitted(before, ip, first) && (identity.Some? ==> Admitted(then', identity.value, second)))
        && (flow.phase == Blocked <==>
              || (first.reply.Delivered? && !AnswerTo(before, ip, first).allowed)
              || (Admitted(before, ip, first) && identity.Some? && second.reply.Delivered?
                  && !AnswerTo(then', identity.value, second).allowed))
        && flow.phase != Pending
    {
      hide ChargeMade;
      hide AnswerTo;
      hide KeysOnce;
      hide RanAll;
      hide IPCharge;
      hide IdentityCharge;
      hide TrimSpace;
      hide Charges;
      hide Made;
      ChargesMade(a);
      var begun := System(before, map[0 := Flow(Charges(a), [], Pending)], [], []);
      ChargeOfFlow(begun, IPCharge(a), first);
      if IdentityCharge(a).Some? && Admitted(before, IPCharge(a), first) {
        var once := ChargeMade(Naming(limiter.prefix, limiter.digest), begun, 0, first);
        ChargeOfFlow(once.(keys := RanAll(once.keys, between)), IdentityCharge(a).value, second);
      }
    }

    /**
     The address is charged first; only if it passes is the email or account charged, after whatever
     `between` other callers have run by then.
     */
    method Check(a: Attempt, first: Moment, between: seq<Call>, second: Moment) returns (verdict: Verdict)
      modifies limiter.redis
      ensures
        var before, ip, identity := old(limiter.redis.keys), IPCharge(a), IdentityCharge(a);
        var then' := RanAll(KeysOnce(before, ip, first), between);
        if !first.reply.Delivered? then
          && verdict == Fault(if first.reply.NoRandomness? then NoEntropy else Unavailable)
          && limiter.redis.keys == KeysOnce(before, ip, first)
        else if !AnswerTo(before, ip, first).allowed then
          verdict == AttemptBlocked && limiter.redis.keys == KeysOnce(before, ip, first)
        else if identity == None then
          verdict == Pass && limiter.redis.keys == KeysOnce(before, ip, first)
        else
          && limiter.redis.keys == KeysOnce(then', identity.value, second)
          && verdict == if !second.reply.Delivered? then Fault(if second.reply.NoRandomness? then NoEntropy else Unavailable)
                        else if AnswerTo(then', identity.value, second).allowed then Pass
                        else AttemptBlocked
      ensures TrimSpace(a.operation) == a.operation ==>
                var flow := FlowAfter(old(limiter.redis.keys), a, first, between, second);
                && (verdict == Pass <==> flow.phase == Passed)
                && (verdict == AttemptBlocked <==> flow.phase == Blocked)
                && (verdict.Fault? <==> flow.phase == Failed)
    {
      hide AnswerTo;
      hide KeysOnce;
      hide IPCharge;
      hide IdentityCharge;
      hide TrimSpace;
      hide IdentityKey;
      hide RanAll;
      hide FlowAfter;
      if TrimSpace(a.operation) == a.operation {
        FlowPhase(limiter.redis.keys, a, first, between, second);
      }
      var ip, identity := IPCharge(a), IdentityCharge(a);
      ChargeParts(ip, a);
      verdict := Charge(ip, first);
      if verdict != Pass || identity == None {
        return;
      }
      Interfere(between);
      assert identity.value in Charges(a);
      ChargeParts(identity.value, a);
      verdict := Charge(identity.value, second);
    }
  }

  // ----- the HTTP limiter -----

  datatype Response = Forwarded | TooManyRequests(retryAfterSeconds: int)

  const SECOND := 1000 * MILLISECOND

  /** The header value for a hint of `retry` milliseconds, computed on nanosecond durations. */
  function RetryAfterSeconds(retry: int): int {
    Max(1, (retry * MILLISECOND + SECOND - 1) / SECOND)
  }

  lemma RetryAfterCeiling(retry: int, k: int)
    requires retry >= 1 && k >= 1
    ensures 1000 * k >= retry <==> k >= RetryAfterSeconds(retry)
  {
  }

  /**
   The advertised wait is sufficient and least: it is positive, and after `k` whole seconds with no
   other allowed call the key admits a request exactly when `k` has reached the header value.
   */
  lemma AdvertisedWait(r: ValidRule, s: State, t: int, between: seq<int>, k: nat)
    requires Valid(r, s) && !Admits(r, s, t) && k >= 1
    requires Spans(t, between, t + 1000 * k) && AllowedTimes(r, Next(r, s, t), between) == []
    ensures Decide(r, s, t).retryAfter >= 1 && RetryAfterSeconds(Decide(r, s, t).retryAfter) >= 1
    ensures Admits(r, Final(r, Next(r, s, t), between), t + 1000 * k)
            <==> k >= RetryAfterSeconds(Decide(r, s, t).retryAfter)
  {
    hide Admits;
    hide Next;
    hide Decide;
    RetryExact(r, s, t, between, 1000 * k);
    RetryAfterCeiling(Decide(r, s, t).retryAfter, k);
  }

  /** The same over the keyspace all callers share, whatever calls of other identities ran in between. */
  lemma AdvertisedWaitHolds(r: ValidRule, calls: seq<Call>, n: nat, m: nat, k: nat)
    requires n < m < |calls| && calls[m].key == calls[n].key && k >= 1 && calls[m].now == calls[n].now + 1000 * k
    requires Orderly(calls, calls[n].key) && MeetsRule(calls, calls[n].key, r)
    requires !Answer(RanAll(EMPTY, calls[..n]), calls[n]).allowed && DeniedBetween(calls, calls[n].key, n, m)
    ensures Answer(RanAll(EMPTY, calls[..m]), calls[m]).allowed
            <==> k >= RetryAfterSeconds(Answer(RanAll(EMPTY, calls[..n]), calls[n]).retryAfter)
  {
    hide *;
    RetryHolds(r, calls, n, m);
    RetryAfterCeiling(Answer(RanAll(EMPTY, calls[..n]), calls[n]).retryAfter, k);
  }

  /** One request: a denial is answered with the wait, and an unavailable limiter lets the request through. */
  method RateLimitRequest(limiter: RedisLimiter, method': string, clientIP: string, m: Moment) returns (response: Response)
    modifies limiter.redis
    ensures
      var c, before := HttpCharge(method', clientIP), old(limiter.redis.keys);
      var key := limiter.Key(c.operation, c.dimension, c.identity);
      && limiter.redis.keys == KeysAfter(before, key, c.rule, m.now, m.serverNow, m.reply)
      && response == if !m.reply.Delivered? then Forwarded
                     else
                       var answer := Answer(before, Call(key, c.rule, m.now, m.reply.member, m.serverNow));
                       if answer.allowed then Forwarded else TooManyRequests(RetryAfterSeconds(answer.retryAfter))
  {
    var c := HttpCharge(method', clientIP);
    HttpTrimmed();
    Words();
    TrimIdempotent(clientIP);
    WholeRule(c.rule);
    hide TrimSpace;
    hide IdentityKey;
    hide Answer;
    hide KeysAfter;
    var result := limiter.Allow(c.operation, c.dimension, c.identity, Nanoseconds(c.rule), m.now, m.serverNow, m.reply);
    response := Forwarded;
    if result.Err? && result.error.LimitExceeded? {
      response := TooManyRequests(RetryAfterSeconds(result.error.decision.retryAfter));
    }
  }
}
