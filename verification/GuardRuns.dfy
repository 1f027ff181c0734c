/**
 Checks and requests of any number of callers over one Redis, interleaved charge by charge: between the
 two charges of a check any other caller's script may run, each charge reads its own clock, and a reply
 may be lost or a script never sent.
 */
module GuardRuns {
  import opened Wrappers
  import opened HybridLimit
  import opened KeyspaceRuns
  import opened RedisScript
  import opened RedisLimiter
  import opened AttemptGuards

  /** What the key string is derived from. */
  type KeyId = (string, string, string)

  function KeyOf(c: Charge): KeyId { (c.operation, c.dimension, c.identity) }

  /** The limiter's prefix and keyed hash. */
  datatype Naming = Naming(prefix: string, digest: string -> string)

  function KeyString(naming: Naming, k: KeyId): string {
    IdentityKey(naming.prefix, naming.digest, k.0, k.1, k.2)
  }

  /** When a charge is made, by both clocks, and what becomes of it. */
  datatype Moment = Moment(now: int, serverNow: int, reply: Reply)

  datatype Subject = Attempted(attempt: Attempt) | Requested(method': string, ip: string)

  function ChargesOf(subject: Subject): seq<Charge> {
    match subject
    case Attempted(a) => Charges(a)
    case Requested(method', ip) => [HttpCharge(method', ip)]
  }

  /** Operation names come without outer white space. */
  predicate Trimmed(subject: Subject) {
    subject.Attempted? ==> TrimSpace(subject.attempt.operation) == subject.attempt.operation
  }

  /** `Failed` is a fault: a guard then refuses the attempt, the HTTP limiter lets the request through. */
  datatype Phase = Pending | Passed | Blocked | Failed

  /** `admitted` holds the times of the charges admitted so far; the next one is `charges[|admitted|]`. */
  datatype Flow = Flow(charges: seq<Charge>, admitted: seq<int>, phase: Phase)

  /** Redis and the flows, with the history of what the server ran: the calls, and the charges they were for. */
  datatype System = System(keys: Keyspace, flows: map<nat, Flow>, calls: seq<Call>, charged: seq<Charge>)

  function Judged(f: Flow, answer: Result<Decision, Error>, now: int): Flow {
    match answer
    case Ok(_) => Flow(f.charges, f.admitted + [now], if |f.admitted| + 1 == |f.charges| then Passed else Pending)
    case Err(LimitExceeded(_)) => f.(phase := Blocked)
    case Err(_) => f.(phase := Failed)
  }

  /** The script run a charge amounts to, if it reaches the server. */
  function CallsOf(naming: Naming, c: Charge, m: Moment): seq<Call> {
    match m.reply
    case NoRandomness => []
    case NotSent(_) => []
    case ReplyLost(member) => [Call(KeyString(naming, KeyOf(c)), c.rule, m.now, member, m.serverNow)]
    case Delivered(member) => [Call(KeyString(naming, KeyOf(c)), c.rule, m.now, member, m.serverNow)]
  }

  datatype Action = Arrive(id: nat, subject: Subject) | Charging(id: nat, moment: Moment)

  function ChargeMade(naming: Naming, s: System, id: nat, m: Moment): System
    requires id in s.flows && |s.flows[id].admitted| < |s.flows[id].charges|
  {
    var f := s.flows[id];
    var c := f.charges[|f.admitted|];
    var key, calls := KeyString(naming, KeyOf(c)), CallsOf(naming, c, m);
    System(
      KeysAfter(s.keys, key, c.rule, m.now, m.serverNow, m.reply),
      s.flows[id := Judged(f, Answered(s.keys, key, c.rule, m.now, m.serverNow, m.reply), m.now)],
      s.calls + calls,
      s.charged + if calls == [] then [] else [c])
  }

  predicate StepBy(naming: Naming, s: System, s': System, action: Action) {
    match action
    case Arrive(id, subject) =>
      && id !in s.flows && Trimmed(subject)
      && s' == s.(flows := s.flows[id := Flow(ChargesOf(subject), [], Pending)])
    case Charging(id, m) =>
      && id in s.flows && s.flows[id].phase == Pending && |s.flows[id].admitted| < |s.flows[id].charges|
      && s' == ChargeMade(naming, s, id, m)
  }

  ghost predicate Run(naming: Naming, states: seq<System>, actions: seq<Action>) {
    && |states| == |actions| + 1 && states[0] == System(EMPTY, map[], [], [])
    && forall i :: 0 <= i < |actions| ==> StepBy(naming, states[i], states[i + 1], actions[i])
  }

  /** A delivered charge is judged by the script's answer, any other is a fault. */
  lemma ChargeJudged(naming: Naming, s: System, id: nat, m: Moment)
    requires id in s.flows && |s.flows[id].admitted| < |s.flows[id].charges|
    ensures
      var f, after := s.flows[id], ChargeMade(naming, s, id, m);
      var c := f.charges[|f.admitted|];
      var key := KeyString(naming, KeyOf(c));
      && after.keys == KeysAfter(s.keys, key, c.rule, m.now, m.serverNow, m.reply)
      && after.flows ==
         s.flows[id :=
           if !m.reply.Delivered? then Flow(f.charges, f.admitted, Failed)
           else if !Answer(s.keys, Call(key, c.rule, m.now, m.reply.member, m.serverNow)).allowed
           then Flow(f.charges, f.admitted, Blocked)
           else Flow(f.charges, f.admitted + [m.now], if |f.admitted| + 1 == |f.charges| then Passed else Pending)]
  {
    hide KeyString;
    hide KeysAfter;
    hide Answer;
    hide CallsOf;
  }

  // ----- what a run keeps -----

  /** Redis holds what the recorded calls made of it, and each call was made for its charge. */
  ghost predicate Recorded(naming: Naming, s: System) {
    && s.keys == RanAll(EMPTY, s.calls) && |s.charged| == |s.calls|
    && forall i :: 0 <= i < |s.calls| ==>
         && s.calls[i].key == KeyString(naming, KeyOf(s.charged[i])) && s.calls[i].rule == s.charged[i].rule
         && Made(s.charged[i])
  }

  ghost predicate FlowSound(f: Flow) {
    && (forall c :: c in f.charges ==> Made(c))
    && |f.admitted| <= |f.charges| && (f.phase == Pending ==> |f.admitted| < |f.charges|)
    && (f.phase == Passed ==> |f.admitted| == |f.charges|)
  }

  ghost predicate FlowsSound(s: System) {
    forall id :: id in s.flows ==> FlowSound(s.flows[id])
  }

  lemma ArrivalSound(subject: Subject)
    requires Trimmed(subject)
    ensures FlowSound(Flow(ChargesOf(subject), [], Pending))
  {
    match subject {
      case Attempted(a) =>
        hide Charges;
        assert forall c :: c in ChargesOf(subject) ==> c in Charges(a);
        assert |Charges(a)| >= 1;
      case Requested(method', ip) =>
        assert forall c :: c in ChargesOf(subject) ==> c == HttpCharge(method', ip);
        hide HttpCharge;
    }
  }

  lemma ChargeRecorded(naming: Naming, s: System, id: nat, m: Moment)
    requires Recorded(naming, s) && FlowsSound(s)
    requires id in s.flows && |s.flows[id].admitted| < |s.flows[id].charges|
    ensures Recorded(naming, ChargeMade(naming, s, id, m))
  {
    hide IdentityKey;
    hide Made;
    hide Script;
    var f := s.flows[id];
    var c := f.charges[|f.admitted|];
    var calls := CallsOf(naming, c, m);
    assert FlowSound(f) && c in f.charges;
    if calls == [] {
      assert s.calls + [] == s.calls && s.charged + [] == s.charged;
    } else {
      assert (s.calls + calls)[..|s.calls|] == s.calls;
    }
  }

  lemma JudgedSound(f: Flow, answer: Result<Decision, Error>, now: int)
    requires FlowSound(f) && |f.admitted| < |f.charges|
    ensures FlowSound(Judged(f, answer, now))
  {
    hide Made;
  }

  lemma StepSound(naming: Naming, s: System, s': System, action: Action)
    requires Recorded(naming, s) && FlowsSound(s) && StepBy(naming, s, s', action)
    ensures Recorded(naming, s') && FlowsSound(s')
  {
    match action {
      case Arrive(id, subject) =>
        ArrivalSound(subject);
        hide ChargesOf;
        hide Made;
      case Charging(id, m) =>
        ChargeRecorded(naming, s, id, m);
        var f := s.flows[id];
        var c := f.charges[|f.admitted|];
        JudgedSound(f, Answered(s.keys, KeyString(naming, KeyOf(c)), c.rule, m.now, m.serverNow, m.reply), m.now);
        hide Recorded;
        hide FlowSound;
        hide Judged;
        hide Answered;
        hide KeysAfter;
        hide CallsOf;
        hide KeyString;
    }
  }

  lemma {:induction false} RunSound(naming: Naming, states: seq<System>, actions: seq<Action>, n: nat)
    requires Run(naming, states, actions) && n < |states|
    ensures Recorded(naming, states[n]) && FlowsSound(states[n])
  {
    if n > 0 {
      RunSound(naming, states, actions, n - 1);
      StepSound(naming, states[n - 1], states[n], actions[n - 1]);
    }
  }

  // ----- counting -----

  /** The flow's charge on `k` was admitted at a time in `[from, to]`. */
  predicate AdmittedBy(f: Flow, k: KeyId, from: int, to: int) {
    exists i :: 0 <= i < |f.admitted| && i < |f.charges| && KeyOf(f.charges[i]) == k && from <= f.admitted[i] <= to
  }

  function AdmittedOn(s: System, k: KeyId, from: int, to: int): set<nat> {
    set id | id in s.flows && AdmittedBy(s.flows[id], k, from, to)
  }

  lemma SetSizes(a: set<nat>, b: set<nat>, id: nat)
    ensures a <= b ==> |a| <= |b|
    ensures a <= b + {id} ==> |a| <= |b| + 1
  {
    if a <= b {
      assert b == a + (b - a);
    }
    if a <= b + {id} {
      assert b + {id} == a + (b + {id} - a);
      assert |b + {id}| <= |b| + 1 by {
        assert b + {id} == b + ({id} - b);
      }
    }
  }

  lemma JudgedAdmits(f: Flow, answer: Result<Decision, Error>, now: int, k: KeyId, from: int, to: int)
    requires |f.admitted| < |f.charges| && AdmittedBy(Judged(f, answer, now), k, from, to)
    ensures AdmittedBy(f, k, from, to) || (answer.Ok? && KeyOf(f.charges[|f.admitted|]) == k && from <= now <= to)
  {
    var g := Judged(f, answer, now);
    var i :| 0 <= i < |g.admitted| && i < |g.charges| && KeyOf(g.charges[i]) == k && from <= g.admitted[i] <= to;
    assert i < |f.admitted| ==> g.admitted[i] == f.admitted[i];
  }

  /** The charge is admitted, to the caller's knowledge, on `k` and in `[from, to]`. */
  predicate Adds(naming: Naming, s: System, c: Charge, m: Moment, k: KeyId, from: int, to: int) {
    && Answered(s.keys, KeyString(naming, KeyOf(c)), c.rule, m.now, m.serverNow, m.reply).Ok?
    && KeyOf(c) == k && from <= m.now <= to
  }

  lemma ChargeAdmits(naming: Naming, s: System, id: nat, m: Moment, k: KeyId, from: int, to: int)
    requires id in s.flows && |s.flows[id].admitted| < |s.flows[id].charges|
    ensures var c := s.flows[id].charges[|s.flows[id].admitted|];
            |AdmittedOn(ChargeMade(naming, s, id, m), k, from, to)|
            <= |AdmittedOn(s, k, from, to)| + if Adds(naming, s, c, m, k, from, to) then 1 else 0
  {
    var s', f := ChargeMade(naming, s, id, m), s.flows[id];
    var c := f.charges[|f.admitted|];
    var more := Adds(naming, s, c, m, k, from, to);
    var answer := Answered(s.keys, KeyString(naming, KeyOf(c)), c.rule, m.now, m.serverNow, m.reply);
    assert s'.flows == s.flows[id := Judged(f, answer, m.now)];
    hide Answered;
    hide KeyString;
    hide KeysAfter;
    hide CallsOf;
    hide Judged;
    hide ChargeMade;
    hide AdmittedBy;
    forall other | other in AdmittedOn(s', k, from, to)
      ensures other in AdmittedOn(s, k, from, to) || (more && other == id)
    {
      if other == id {
        JudgedAdmits(f, answer, m.now, k, from, to);
      }
    }
    SetSizes(AdmittedOn(s', k, from, to), AdmittedOn(s, k, from, to), id);
  }

  lemma ChargeCalls(naming: Naming, s: System, id: nat, m: Moment, k: KeyId, from: int, to: int)
    requires s.keys == RanAll(EMPTY, s.calls)
    requires id in s.flows && |s.flows[id].admitted| < |s.flows[id].charges|
    ensures var c := s.flows[id].charges[|s.flows[id].admitted|];
            AdmittedWithin(ChargeMade(naming, s, id, m).calls, KeyString(naming, k), from, to)
            >= AdmittedWithin(s.calls, KeyString(naming, k), from, to)
               + if Adds(naming, s, c, m, k, from, to) then 1 else 0
  {
    var c := s.flows[id].charges[|s.flows[id].admitted|];
    var calls := CallsOf(naming, c, m);
    assert ChargeMade(naming, s, id, m).calls == s.calls + calls;
    hide ChargeMade;
    hide Answer;
    hide KeyString;
    if calls == [] {
      assert s.calls + [] == s.calls;
    } else {
      assert (s.calls + calls)[..|s.calls|] == s.calls;
    }
  }

  lemma StepCounts(naming: Naming, s: System, s': System, action: Action, k: KeyId, from: int, to: int)
    requires StepBy(naming, s, s', action) && s.keys == RanAll(EMPTY, s.calls)
    requires |AdmittedOn(s, k, from, to)| <= AdmittedWithin(s.calls, KeyString(naming, k), from, to)
    ensures |AdmittedOn(s', k, from, to)| <= AdmittedWithin(s'.calls, KeyString(naming, k), from, to)
  {
    hide KeyString;
    hide Adds;
    hide AdmittedWithin;
    hide ChargeMade;
    hide Trimmed;
    hide ChargesOf;
    match action {
      case Charging(id, m) =>
        hide AdmittedOn;
        ChargeAdmits(naming, s, id, m, k, from, to);
        ChargeCalls(naming, s, id, m, k, from, to);
      case Arrive(id, subject) =>
        assert AdmittedOn(s', k, from, to) == AdmittedOn(s, k, from, to);
    }
  }

  lemma RunStep(naming: Naming, states: seq<System>, actions: seq<Action>, n: nat)
    requires Run(naming, states, actions) && n < |actions|
    ensures |states| == |actions| + 1 && StepBy(naming, states[n], states[n + 1], actions[n])
    ensures states[n].keys == RanAll(EMPTY, states[n].calls)
  {
    RunSound(naming, states, actions, n);
    hide StepBy;
    hide FlowsSound;
  }

  lemma RunStarts(naming: Naming, states: seq<System>, actions: seq<Action>, k: KeyId, from: int, to: int)
    requires Run(naming, states, actions)
    ensures |states| == |actions| + 1 && |AdmittedOn(states[0], k, from, to)| == 0
  {
    hide StepBy;
    hide AdmittedBy;
    assert AdmittedOn(states[0], k, from, to) == {};
  }

  /** No more flows are admitted on a key than the calls on its string that were allowed. */
  lemma {:induction false} RunCounts(
    naming: Naming, states: seq<System>, actions: seq<Action>, n: nat, k: KeyId, from: int, to: int)
    requires Run(naming, states, actions) && n < |states|
    ensures |AdmittedOn(states[n], k, from, to)| <= AdmittedWithin(states[n].calls, KeyString(naming, k), from, to)
  {
    hide *;
    RunStarts(naming, states, actions, k, from, to);
    if n > 0 {
      RunCounts(naming, states, actions, n - 1, k, from, to);
      RunStep(naming, states, actions, n - 1);
      StepCounts(naming, states[n - 1], states[n], actions[n - 1], k, from, to);
    }
  }

  // ----- what a run guarantees per identity -----

  /** The digests of the charges made tell their messages from `c`'s; all digests are of one length. */
  ghost predicate NoCollision(naming: Naming, charged: seq<Charge>, c: Charge) {
    forall i :: 0 <= i < |charged| ==>
      var d := charged[i];
      var x, y := Message(c.operation, c.dimension, c.identity), Message(d.operation, d.dimension, d.identity);
      |naming.digest(x)| == |naming.digest(y)| && (naming.digest(x) == naming.digest(y) ==> x == y)
  }

  /** One key, one rule: calls on the string of a charge's key were made for the same key, under the same rule. */
  lemma CallsMeetRule(naming: Naming, s: System, c: Charge)
    requires Recorded(naming, s) && Made(c) && NoCollision(naming, s.charged, c)
    ensures MeetsRule(s.calls, KeyString(naming, KeyOf(c)), c.rule)
  {
    hide IdentityKey;
    hide Made;
    hide Message;
    hide RanAll;
    forall i | 0 <= i < |s.calls| && s.calls[i].key == KeyString(naming, KeyOf(c)) ensures s.calls[i].rule == c.rule {
      var d := s.charged[i];
      IdentityKeyInjective(naming.prefix, naming.digest,
                           c.operation, c.dimension, c.identity, d.operation, d.dimension, d.identity);
      SameKeySameRule(c, d);
    }
  }

  /** Each of the checks and requests `ids` has passed, with its charge for `c`'s identity admitted in `[from, to]`. */
  ghost predicate PassedFor(s: System, c: Charge, from: int, to: int, ids: set<nat>) {
    forall id :: id in ids ==>
      && id in s.flows && s.flows[id].phase == Passed
      && exists i :: 0 <= i < |s.flows[id].charges| && i < |s.flows[id].admitted|
                     && s.flows[id].charges[i].operation == c.operation && s.flows[id].charges[i].dimension == c.dimension
                     && s.flows[id].charges[i].identity == c.identity && from <= s.flows[id].admitted[i] <= to
  }

  /**
   Whatever the interleaving, the addresses the attempts come from and the faults on the way, any checks and
   requests that pass for one email, account or address in an interval obey that key's bucket and window bounds.
   */
  lemma PerIdentityBounds(
    naming: Naming, states: seq<System>, actions: seq<Action>, n: nat, c: Charge, from: int, to: int, ids: set<nat>)
    requires Run(naming, states, actions) && n < |states| && Made(c) && from <= to
    requires NoCollision(naming, states[n].charged, c)
    requires Orderly(states[n].calls, KeyString(naming, KeyOf(c)))
    requires PassedFor(states[n], c, from, to, ids)
    ensures |ids| * c.rule.restoreOver <= c.rule.immediate * c.rule.restoreOver + (to - from) * c.rule.immediate
    ensures to - from < c.rule.window ==> |ids| <= c.rule.maximum
  {
    hide *;
    RunSound(naming, states, actions, n);
    PassedCounts(naming, states, actions, n, c, from, to, ids, from);
    if to - from < c.rule.window {
      PassedCounts(naming, states, actions, n, c, from, to, ids, to - c.rule.window + 1);
      BoundsAt(naming, states[n], c, |ids|, |ids|, from, to);
    } else {
      BoundsAt(naming, states[n], c, |ids|, 0, from, to);
    }
  }

  lemma BoundsAt(naming: Naming, s: System, c: Charge, passed: nat, recent: nat, from: int, to: int)
    requires Recorded(naming, s) && Made(c) && NoCollision(naming, s.charged, c) && from <= to
    requires Orderly(s.calls, KeyString(naming, KeyOf(c)))
    requires passed <= AdmittedWithin(s.calls, KeyString(naming, KeyOf(c)), from, to)
    requires recent <= AdmittedWithin(s.calls, KeyString(naming, KeyOf(c)), to - c.rule.window + 1, to)
    ensures passed * c.rule.restoreOver <= c.rule.immediate * c.rule.restoreOver + (to - from) * c.rule.immediate
    ensures recent <= c.rule.maximum
  {
    hide *;
    var r, key := c.rule, KeyString(naming, KeyOf(c));
    RulePositive(r);
    CallsMeetRule(naming, s, c);
    KeyBounds(r, s.calls, key, from, to);
    MulMonotone(passed, AdmittedWithin(s.calls, key, from, to), r.restoreOver);
  }

  lemma PassedCounts(
    naming: Naming, states: seq<System>, actions: seq<Action>, n: nat, c: Charge, from: int, to: int, ids: set<nat>,
    since: int)
    requires Run(naming, states, actions) && n < |states| && PassedFor(states[n], c, from, to, ids) && since <= from
    ensures |ids| <= AdmittedWithin(states[n].calls, KeyString(naming, KeyOf(c)), since, to)
  {
    hide *;
    PassedAdmitted(states[n], c, from, to, ids, since);
    RunCounts(naming, states, actions, n, KeyOf(c), since, to);
    SetSizes(ids, AdmittedOn(states[n], KeyOf(c), since, to), 0);
  }

  lemma PassedAdmitted(s: System, c: Charge, from: int, to: int, ids: set<nat>, since: int)
    requires PassedFor(s, c, from, to, ids) && since <= from
    ensures ids <= AdmittedOn(s, KeyOf(c), since, to)
  {
    forall id | id in ids ensures AdmittedBy(s.flows[id], KeyOf(c), since, to) {
      var f := s.flows[id];
      var i :| 0 <= i < |f.charges| && i < |f.admitted|
               && f.charges[i].operation == c.operation && f.charges[i].dimension == c.dimension
               && f.charges[i].identity == c.identity && from <= f.admitted[i] <= to;
      assert KeyOf(f.charges[i]) == KeyOf(c);
    }
  }

  /**
   A charge is decided by the earlier calls on its own key alone, whatever else ran before it: the guard
   is answered as if there were no other identity and no key ever expired.
   */
  lemma ChargeDecides(naming: Naming, states: seq<System>, actions: seq<Action>, n: nat, id: nat, m: Moment)
    requires Run(naming, states, actions) && n < |actions| && actions[n] == Charging(id, m) && m.reply.Delivered?
    ensures id in states[n].flows && |states[n].flows[id].admitted| < |states[n].flows[id].charges|
    ensures var c := states[n].flows[id].charges[|states[n].flows[id].admitted|];
            var key := KeyString(naming, KeyOf(c));
            NoCollision(naming, states[n + 1].charged, c) && Orderly(states[n + 1].calls, key) ==>
              var answer := Decide(c.rule, Reached(c.rule, states[n].calls, key), m.now);
              states[n + 1].flows[id]
              == Judged(states[n].flows[id], if answer.allowed then Ok(answer) else Err(LimitExceeded(answer)), m.now)
  {
    RunStep(naming, states, actions, n);
    var s, s' := states[n], states[n + 1];
    var f := s.flows[id];
    var c := f.charges[|f.admitted|];
    if NoCollision(naming, s'.charged, c) && Orderly(s'.calls, KeyString(naming, KeyOf(c))) {
      RunSound(naming, states, actions, n);
      RunSound(naming, states, actions, n + 1);
      DeliveredCall(naming, s, s', id, m);
    }
  }

  lemma DeliveredCall(naming: Naming, s: System, s': System, id: nat, m: Moment)
    requires StepBy(naming, s, s', Charging(id, m)) && m.reply.Delivered?
    requires Recorded(naming, s) && FlowsSound(s) && Recorded(naming, s')
    requires var c := s.flows[id].charges[|s.flows[id].admitted|];
             NoCollision(naming, s'.charged, c) && Orderly(s'.calls, KeyString(naming, KeyOf(c)))
    ensures var c := s.flows[id].charges[|s.flows[id].admitted|];
            var answer := Decide(c.rule, Reached(c.rule, s.calls, KeyString(naming, KeyOf(c))), m.now);
            s'.flows[id] == Judged(s.flows[id], if answer.allowed then Ok(answer) else Err(LimitExceeded(answer)), m.now)
  {
    hide *;
    var c := PendingCharge(s, s', naming, id, m);
    RulePositive(c.rule);
    var key := KeyString(naming, KeyOf(c));
    var call := Call(key, c.rule, m.now, m.reply.member, m.serverNow);
    assert (s.calls + [call])[..|s.calls|] == s.calls && (s.calls + [call])[|s.calls|] == call;
    CallsMeetRule(naming, s', c);
    RunDecides(c.rule, s'.calls, |s.calls|);
  }

  lemma PendingCharge(s: System, s': System, naming: Naming, id: nat, m: Moment) returns (c: Charge)
    requires StepBy(naming, s, s', Charging(id, m)) && m.reply.Delivered? && Recorded(naming, s) && FlowsSound(s)
    ensures c == s.flows[id].charges[|s.flows[id].admitted|] && Made(c)
    ensures
      var call := Call(KeyString(naming, KeyOf(c)), c.rule, m.now, m.reply.member, m.serverNow);
      && s'.calls == s.calls + [call]
      && s'.flows[id] == Judged(s.flows[id],
                                if Answer(RanAll(EMPTY, s.calls), call).allowed then Ok(Answer(RanAll(EMPTY, s.calls), call))
                                else Err(LimitExceeded(Answer(RanAll(EMPTY, s.calls), call))), m.now)
  {
    c := s.flows[id].charges[|s.flows[id].admitted|];
    assert FlowSound(s.flows[id]) && c in s.flows[id].charges;
    hide Made;
    hide KeyString;
    hide RanAll;
    hide Answer;
    hide Ran;
    hide Judged;
    hide FlowsSound;
  }

  // ----- a denial ends the check -----

  lemma {:induction false} FinishedStays(
    naming: Naming, states: seq<System>, actions: seq<Action>, i: nat, j: nat, id: nat)
    requires Run(naming, states, actions) && i <= j < |states|
    requires id in states[i].flows && states[i].flows[id].phase != Pending
    ensures id in states[j].flows && states[j].flows[id] == states[i].flows[id]
  {
    if i < j {
      FinishedStays(naming, states, actions, i, j - 1, id);
      assert StepBy(naming, states[j - 1], states[j], actions[j - 1]);
      hide Judged;
      hide Answered;
      hide KeysAfter;
      hide CallsOf;
      hide ChargesOf;
      hide Trimmed;
    }
  }

  /** A check denied by address is over: no later step charges for it, so its email or account is never charged. */
  lemma AddressDenialStops(naming: Naming, states: seq<System>, actions: seq<Action>, i: nat, j: nat, id: nat)
    requires Run(naming, states, actions) && i <= j < |actions|
    requires id in states[i].flows && states[i].flows[id].phase == Blocked
    ensures actions[j].Charging? ==> actions[j].id != id
    ensures id in states[j + 1].flows && states[j + 1].flows[id] == states[i].flows[id]
  {
    FinishedStays(naming, states, actions, i, j, id);
    FinishedStays(naming, states, actions, i, j + 1, id);
    RunStep(naming, states, actions, j);
    hide Run;
    hide ChargeMade;
    hide ChargesOf;
    hide Trimmed;
    hide RanAll;
  }

  /** A charge, admitted, denied or lost, changes what Redis holds for its own key only. */
  lemma ChargeElsewhere(naming: Naming, s: System, id: nat, m: Moment, other: string, r: Rule, u: int)
    requires id in s.flows && |s.flows[id].admitted| < |s.flows[id].charges|
    requires other != KeyString(naming, KeyOf(s.flows[id].charges[|s.flows[id].admitted|]))
    ensures Contents(r, ChargeMade(naming, s, id, m).keys, BucketName(other), WindowName(other), u)
            == Contents(r, s.keys, BucketName(other), WindowName(other), u)
  {
    var c := s.flows[id].charges[|s.flows[id].admitted|];
    var key := KeyString(naming, KeyOf(c));
    NamesDiffer(key, other);
    assert ChargeMade(naming, s, id, m).keys == KeysAfter(s.keys, key, c.rule, m.now, m.serverNow, m.reply);
    hide ChargeMade;
    hide KeyString;
    hide Script;
    hide Contents;
    hide BucketName;
    hide WindowName;
    if m.reply.ReplyLost? || m.reply.Delivered? {
      ScriptElsewhere(s.keys, BucketName(key), WindowName(key), m.now, c.rule, m.reply.member, m.serverNow,
                      BucketName(other), WindowName(other), r, u);
    }
  }
}
