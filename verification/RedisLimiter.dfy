/** The call around the script: validation, trimming, key derivation and the answer's form. */
module RedisLimiter {
  import opened Wrappers
  import opened HybridLimit
  import opened KeyspaceRuns
  import opened RedisScript

  /** Why a call gives no permission.  A denial carries its retry hint. */
  datatype Error =
    | InvalidRule
    | MissingPart
    | NoEntropy
    | Unavailable
    | LimitExceeded(decision: Decision)

  /** What the random source and the connection do during one call. */
  datatype Reply =
    | NoRandomness
    | NotSent(member: string)
    | ReplyLost(member: string)
    | Delivered(member: string)

  // ----- rules as declared -----

  const MILLISECOND := 1_000_000

  /** A rule whose durations are in nanoseconds. */
  datatype DurationRule = DurationRule(immediate: int, restoreOver: int, maximum: int, window: int)

  predicate ValidateRule(rule: DurationRule) {
    !(rule.immediate < 1 || rule.restoreOver <= 0 || rule.maximum < 1 || rule.window <= 0)
  }

  /** The rule as it is sent to the script: durations lose what is below a millisecond. */
  function Milliseconds(rule: DurationRule): Rule {
    Rule(rule.immediate, rule.restoreOver / MILLISECOND, rule.maximum, rule.window / MILLISECOND)
  }

  function Nanoseconds(rule: Rule): DurationRule {
    DurationRule(rule.immediate, rule.restoreOver * MILLISECOND, rule.maximum, rule.window * MILLISECOND)
  }

  /** A rule of whole milliseconds passes the validation and reaches the script as it is. */
  lemma WholeRule(rule: ValidRule)
    ensures ValidateRule(Nanoseconds(rule)) && Milliseconds(Nanoseconds(rule)) == rule
  {
  }

  // ----- limits that truncation disables -----

  /** The script's decision, for any contents, is the window's. */
  ghost predicate WindowAloneDecides(rule: DurationRule)
    requires ValidateRule(rule)
  {
    forall stored, log, now, member ::
      Evaluated(Milliseconds(rule), stored, log, now, member).decision.allowed
      <==> |RemoveUpTo(log, now - rule.window / MILLISECOND)| < rule.maximum
  }

  lemma ShortPeriodNeverRunsOut(rule: DurationRule, stored: Option<Fields>, log: seq<Event>, now: int, member: string)
    requires ValidateRule(rule) && rule.restoreOver < MILLISECOND
    ensures Evaluated(Milliseconds(rule), stored, log, now, member).decision.allowed
            <==> |RemoveUpTo(log, now - rule.window / MILLISECOND)| < rule.maximum
  {
    assert Milliseconds(rule).restoreOver == 0;
    assert Restored(Milliseconds(rule), stored, now) == rule.immediate as real >= 1.0;
    hide RemoveUpTo;
    hide Waits;
    hide Add;
  }

  /** Of the rules the validation accepts, those with a period under a millisecond, and no others, have no bucket. */
  lemma BucketDisabled(rule: DurationRule)
    requires ValidateRule(rule)
    ensures WindowAloneDecides(rule) <==> rule.restoreOver < MILLISECOND
  {
    if rule.restoreOver < MILLISECOND {
      forall stored, log, now, member
        ensures Evaluated(Milliseconds(rule), stored, log, now, member).decision.allowed
                <==> |RemoveUpTo(log, now - rule.window / MILLISECOND)| < rule.maximum
      {
        ShortPeriodNeverRunsOut(rule, stored, log, now, member);
      }
    } else {
      EmptyBucketDenies(rule);
    }
  }

  lemma EmptyBucketDenies(rule: DurationRule)
    requires ValidateRule(rule) && rule.restoreOver >= MILLISECOND
    ensures !WindowAloneDecides(rule)
  {
    var r: ScriptRule := Milliseconds(rule);
    assert Restored(r, Some(Fields(0.0, 0)), 0) < 1.0;
    assert !Evaluated(r, Some(Fields(0.0, 0)), [], 0, "").decision.allowed;
    assert |RemoveUpTo([], 0 - rule.window / MILLISECOND)| < rule.maximum;
  }

  /** The log was written by clocks that have not gone back since. */
  predicate NoneLater(log: seq<Event>, now: int) {
    forall i :: 0 <= i < |log| ==> log[i].score <= now
  }

  predicate DistinctMembers(log: seq<Event>) {
    forall i, j :: 0 <= i < j < |log| ==> log[i].member != log[j].member
  }

  /** The script's decision, for any contents and a clock that does not go back, is the bucket's. */
  ghost predicate BucketAloneDecides(rule: DurationRule)
    requires ValidateRule(rule)
  {
    forall stored, log, now, member :: NoneLater(log, now) ==>
      (Evaluated(Milliseconds(rule), stored, log, now, member).decision.allowed
       <==> Restored(Milliseconds(rule), stored, now) >= 1.0)
  }

  /** Some log denies a call that finds a full bucket. */
  ghost predicate WindowCanDeny(rule: DurationRule)
    requires ValidateRule(rule)
  {
    exists log, now, member ::
      NoneLater(log, now) && DistinctMembers(log)
      && !Evaluated(Milliseconds(rule), None, log, now, member).decision.allowed
  }

  lemma ShortWindowEmpties(log: seq<Event>, now: int)
    requires NoneLater(log, now)
    ensures RemoveUpTo(log, now) == []
  {
    RemoveUpToScores(log, now);
    forall t | t in Scores(log) ensures t <= now {
      var i :| 0 <= i < |log| && Scores(log)[i] == t;
    }
    AfterEvictsAll(Scores(log), now);
  }

  /** `n` requests at `now`. */
  function FullLog(n: nat, now: int): seq<Event> {
    if n == 0 then [] else FullLog(n - 1, now) + [Event(seq(n, _ => 'm'), now)]
  }

  lemma {:induction false} FullLogStays(n: nat, now: int, cutoff: int)
    requires cutoff < now
    ensures |FullLog(n, now)| == n && RemoveUpTo(FullLog(n, now), cutoff) == FullLog(n, now)
    ensures forall i :: 0 <= i < n ==> FullLog(n, now)[i].score == now && |FullLog(n, now)[i].member| == i + 1
  {
    if n > 0 {
      FullLogStays(n - 1, now, cutoff);
      assert FullLog(n, now)[..n - 1] == FullLog(n - 1, now);
    }
  }

  lemma ShortWindowNeverDenies(rule: DurationRule, stored: Option<Fields>, log: seq<Event>, now: int, member: string)
    requires ValidateRule(rule) && rule.window < MILLISECOND && NoneLater(log, now)
    ensures Evaluated(Milliseconds(rule), stored, log, now, member).decision.allowed
            <==> Restored(Milliseconds(rule), stored, now) >= 1.0
  {
    ShortWindowEmpties(log, now);
    assert Milliseconds(rule).window == 0;
    hide Restored;
    hide RemoveUpTo;
    hide Waits;
    hide Add;
  }

  lemma FullLogShape(n: nat, now: int)
    ensures NoneLater(FullLog(n, now), now) && DistinctMembers(FullLog(n, now))
  {
    FullLogStays(n, now, now - 1);
    hide FullLog;
    hide RemoveUpTo;
  }

  /** As many requests at `now` as the hard limit admits keep out one more, with a full bucket. */
  lemma FullLogDenies(rule: DurationRule, now: int)
    requires ValidateRule(rule) && rule.window >= MILLISECOND
    ensures !Evaluated(Milliseconds(rule), None, FullLog(rule.maximum, now), now, "").decision.allowed
  {
    hide RemoveUpTo;
    hide Waits;
    hide Add;
    hide FullLog;
    hide Restored;
    FullLogStays(rule.maximum, now, now - rule.window / MILLISECOND);
  }

  /** Of the rules the validation accepts, those with a window under a millisecond, and no others, have no hard limit. */
  lemma WindowDisabled(rule: DurationRule)
    requires ValidateRule(rule)
    ensures BucketAloneDecides(rule) <==> rule.window < MILLISECOND
    ensures WindowCanDeny(rule) <==> rule.window >= MILLISECOND
  {
    if rule.window < MILLISECOND {
      forall stored, log, now, member | NoneLater(log, now)
        ensures Evaluated(Milliseconds(rule), stored, log, now, member).decision.allowed
                <==> Restored(Milliseconds(rule), stored, now) >= 1.0
      {
        ShortWindowNeverDenies(rule, stored, log, now, member);
      }
      hide Evaluated;
    } else {
      FullLogShape(rule.maximum, 0);
      FullLogDenies(rule, 0);
      hide Evaluated;
      hide FullLog;
    }
    assert Restored(Milliseconds(rule), None, 0) == rule.immediate as real >= 1.0;
  }

  // ----- key strings -----

  /** White space as Unicode has it. */
  predicate IsSpace(c: char) {
    || '\t' <= c <= '\r'
    || c in {' ', '\U{0085}', '\U{00A0}', '\U{1680}', '\U{2028}', '\U{2029}', '\U{202F}', '\U{205F}', '\U{3000}'}
    || '\U{2000}' <= c <= '\U{200A}'
  }

  lemma SpaceCodes(c: char)
    ensures IsSpace(c) <==>
            var n := c as int;
            || 0x09 <= n <= 0x0D || n == 0x20 || n == 0x85 || n == 0xA0 || n == 0x1680 || 0x2000 <= n <= 0x200A
            || n == 0x2028 || n == 0x2029 || n == 0x202F || n == 0x205F || n == 0x3000
  {
  }

  function TrimSpace(s: string): (t: string)
    ensures t == s || |t| < |s|
    ensures t != "" ==> !IsSpace(t[0]) && !IsSpace(t[|t| - 1])
  {
    if s == "" then s
    else if IsSpace(s[0]) then TrimSpace(s[1..])
    else if IsSpace(s[|s| - 1]) then TrimSpace(s[..|s| - 1])
    else s
  }

  predicate AllSpace(s: string) { forall i :: 0 <= i < |s| ==> IsSpace(s[i]) }

  lemma AllSpaceJoins(a: string, b: string)
    requires AllSpace(a) && AllSpace(b)
    ensures AllSpace(a + b)
  {
  }

  lemma Regroup(a: string, b: string, t: string, c: string)
    ensures a + (b + t + c) == (a + b) + t + c && (b + t + c) + a == b + t + (c + a)
  {
  }

  lemma SpaceEnds(s: string)
    requires s != ""
    ensures IsSpace(s[0]) ==> AllSpace(s[..1])
    ensures IsSpace(s[|s| - 1]) ==> AllSpace(s[|s| - 1..])
    ensures s == s[..1] + s[1..] && s == s[..|s| - 1] + s[|s| - 1..]
  {
    hide IsSpace;
  }

  lemma TrimOne(s: string)
    requires s != ""
    ensures TrimSpace(s) == if IsSpace(s[0]) then TrimSpace(s[1..])
                            else if IsSpace(s[|s| - 1]) then TrimSpace(s[..|s| - 1])
                            else s
  {
    hide IsSpace;
  }

  /** Trimming drops white space from the two ends and nothing else. */
  lemma {:induction false} TrimSpaceDropsEnds(s: string) returns (left: string, right: string)
    ensures s == left + TrimSpace(s) + right && AllSpace(left) && AllSpace(right)
  {
    left, right := "", "";
    if s != "" {
      SpaceEnds(s);
      TrimOne(s);
      assert AllSpace("");
      hide *;
      if IsSpace(s[0]) {
        left, right := TrimSpaceDropsEnds(s[1..]);
        AllSpaceJoins(s[..1], left);
        Regroup(s[..1], left, TrimSpace(s), right);
        left := s[..1] + left;
      } else if IsSpace(s[|s| - 1]) {
        left, right := TrimSpaceDropsEnds(s[..|s| - 1]);
        AllSpaceJoins(right, s[|s| - 1..]);
        Regroup(s[|s| - 1..], left, TrimSpace(s), right);
        right := right + s[|s| - 1..];
      }
    }
  }

  /** What the digest is taken over. */
  function Message(operation: string, dimension: string, identity: string): string {
    operation + "\0" + dimension + "\0" + identity
  }

  /** `digest` is the hexadecimal keyed hash. */
  function IdentityKey(
    prefix: string, digest: string -> string, operation: string, dimension: string, identity: string): string
  {
    prefix + ":" + operation + ":" + dimension + ":" + digest(Message(operation, dimension, identity))
  }

  lemma KeyText(prefix: string, digest: string -> string, op: string, dim: string, id: string)
    ensures IdentityKey(prefix, digest, op, dim, id)
            == prefix + ":" + op + ":" + dim + ":" + digest(op + "\0" + dim + "\0" + id)
  {
  }

  /**
   Two calls share a key only if all three parts agree, whatever separators the parts contain:
   the colons of the clear part and the zeros of the digested part cannot be moved together.
   */
  lemma IdentityKeyInjective(
    prefix: string, digest: string -> string,
    op: string, dim: string, id: string, op': string, dim': string, id': string)
    requires |digest(Message(op, dim, id))| == |digest(Message(op', dim', id'))|
    requires digest(Message(op, dim, id)) == digest(Message(op', dim', id'))
             ==> Message(op, dim, id) == Message(op', dim', id')
    ensures IdentityKey(prefix, digest, op, dim, id) == IdentityKey(prefix, digest, op', dim', id')
            <==> (op, dim, id) == (op', dim', id')
  {
    if IdentityKey(prefix, digest, op, dim, id) == IdentityKey(prefix, digest, op', dim', id') {
      var mac, mac' := digest(Message(op, dim, id)), digest(Message(op', dim', id'));
      var clear, clear' := op + ":" + dim + ":", op' + ":" + dim' + ":";
      assert IdentityKey(prefix, digest, op, dim, id) == (prefix + ":") + clear + mac;
      assert IdentityKey(prefix, digest, op', dim', id') == (prefix + ":") + clear' + mac';
      SplitEqual((prefix + ":") + clear, mac, (prefix + ":") + clear', mac');
      SameSuffix(prefix + ":", clear, clear');
      PartsEqual(op, dim, id, op', dim', id');
    }
  }

  lemma SplitEqual(a: string, b: string, a': string, b': string)
    requires a + b == a' + b' && |b| == |b'|
    ensures a == a' && b == b'
  {
    assert a == (a + b)[..|a|] && a' == (a' + b')[..|a|];
    assert b == (a + b)[|a|..] && b' == (a' + b')[|a|..];
  }

  lemma SameSuffix(p: string, a: string, b: string)
    requires p + a == p + b
    ensures a == b
  {
    assert a == (p + a)[|p|..] && b == (p + b)[|p|..];
  }

  lemma CharAt(a: string, c: char, rest: string, i: nat)
    requires i <= |a|
    ensures (a + [c] + rest)[i] == if i < |a| then a[i] else c
  {
  }

  lemma PartsEqual(op: string, dim: string, id: string, op': string, dim': string, id': string)
    requires op + ":" + dim + ":" == op' + ":" + dim' + ":"
    requires Message(op, dim, id) == Message(op', dim', id')
    ensures op == op' && dim == dim' && id == id'
  {
    var clear, clear' := op + ":" + dim + ":", op' + ":" + dim' + ":";
    var message, message' := Message(op, dim, id), Message(op', dim', id');
    // Were one operation shorter, its colon and its zero would both sit where the other has a single character.
    var i := if |op| < |op'| then |op| else |op'|;
    CharAt(op, ':', dim + ":", i);
    CharAt(op', ':', dim' + ":", i);
    CharAt(op, '\0', dim + "\0" + id, i);
    CharAt(op', '\0', dim' + "\0" + id', i);
    assert clear == op + [':'] + (dim + ":") && clear' == op' + [':'] + (dim' + ":");
    assert message == op + ['\0'] + (dim + "\0" + id) && message' == op' + ['\0'] + (dim' + "\0" + id');
    assert |op| == |op'|;
    assert op == clear[..|op|] && op' == clear'[..|op|];
    assert |dim| == |dim'|;
    assert dim == clear[|op| + 1..|op| + 1 + |dim|] && dim' == clear'[|op| + 1..|op| + 1 + |dim|];
    assert id == message[|op| + |dim| + 2..] && id' == message'[|op| + |dim| + 2..];
  }

  // ----- one call -----

  /** What a call makes of the keyspace: the script runs unless it was never sent. */
  function KeysAfter(k: Keyspace, key: string, r: ScriptRule, now: int, serverNow: int, reply: Reply): Keyspace {
    match reply
    case NoRandomness => k
    case NotSent(_) => k
    case ReplyLost(member) => Ran(k, Call(key, r, now, member, serverNow))
    case Delivered(member) => Ran(k, Call(key, r, now, member, serverNow))
  }

  function Answered(
    k: Keyspace, key: string, r: ScriptRule, now: int, serverNow: int, reply: Reply): Result<Decision, Error>
  {
    match reply
    case NoRandomness => Err(NoEntropy)
    case NotSent(_) => Err(Unavailable)
    case ReplyLost(_) => Err(Unavailable)
    case Delivered(member) =>
      var decision := Answer(k, Call(key, r, now, member, serverNow));
      if decision.allowed then Ok(decision) else Err(LimitExceeded(decision))
  }

  class RedisLimiter {
    const redis: Redis
    const prefix: string
    const digest: string -> string

    constructor (redis: Redis, digest: string -> string, keyPrefix: string)
      ensures this.redis == redis && this.digest == digest
      ensures prefix == if TrimSpace(keyPrefix) == "" then "consumel:rate-limit" else TrimSpace(keyPrefix)
    {
      var trimmed := TrimSpace(keyPrefix);
      this.redis := redis;
      this.digest := digest;
      this.prefix := if trimmed == "" then "consumel:rate-limit" else trimmed;
    }

    function Key(operation: string, dimension: string, identity: string): string {
      IdentityKey(prefix, digest, TrimSpace(operation), TrimSpace(dimension), TrimSpace(identity))
    }

    predicate Complete(operation: string, dimension: string, identity: string) {
      TrimSpace(operation) != "" && TrimSpace(dimension) != "" && TrimSpace(identity) != ""
    }

    method Allow(
      operation: string, dimension: string, identity: string, rule: DurationRule, now: int, serverNow: int, reply: Reply)
      returns (result: Result<Decision, Error>)
      modifies redis
      ensures
        if !ValidateRule(rule) then result == Err(InvalidRule) && redis.keys == old(redis.keys)
        else if !Complete(operation, dimension, identity) then result == Err(MissingPart) && redis.keys == old(redis.keys)
        else
          var key, r := Key(operation, dimension, identity), Milliseconds(rule);
          && result == Answered(old(redis.keys), key, r, now, serverNow, reply)
          && redis.keys == KeysAfter(old(redis.keys), key, r, now, serverNow, reply)
      ensures result == Err(InvalidRule) <==>
                rule.immediate < 1 || rule.restoreOver <= 0 || rule.maximum < 1 || rule.window <= 0
      ensures ValidateRule(rule) ==>
                var op, dim, id := TrimSpace(operation), TrimSpace(dimension), TrimSpace(identity);
                var key := prefix + ":" + op + ":" + dim + ":" + digest(op + "\0" + dim + "\0" + id);
                var r := Rule(rule.immediate, rule.restoreOver / 1_000_000, rule.maximum, rule.window / 1_000_000);
                && (result == Err(MissingPart) <==> op == "" || dim == "" || id == "")
                && (result == Err(NoEntropy) <==> op != "" && dim != "" && id != "" && reply.NoRandomness?)
                && (result == Err(Unavailable) <==>
                      op != "" && dim != "" && id != "" && (reply.NotSent? || reply.ReplyLost?))
                && if op == "" || dim == "" || id == "" || reply.NoRandomness? || reply.NotSent?
                   then redis.keys == old(redis.keys)
                   else
                     var ran := Script(old(redis.keys), key + ":bucket", key + ":window", now, r, reply.member, serverNow);
                     && redis.keys == ran.0
                     && (reply.Delivered? ==> result == if ran.1.allowed then Ok(ran.1) else Err(LimitExceeded(ran.1)))
    {
      hide Script;
      hide TrimSpace;
      hide IdentityKey;
      if !ValidateRule(rule) {
        return Err(InvalidRule);
      }
      var op, dim, id := TrimSpace(operation), TrimSpace(dimension), TrimSpace(identity);
      if op == "" || dim == "" || id == "" {
        return Err(MissingPart);
      }
      var key := IdentityKey(prefix, digest, op, dim, id);
      KeyText(prefix, digest, op, dim, id);
      if reply.NoRandomness? {
        return Err(NoEntropy);
      }
      if reply.NotSent? {
        return Err(Unavailable);
      }
      var allowed, retry :=
        redis.HybridLimitScript(key + ":bucket", key + ":window", now, Milliseconds(rule), reply.member, serverNow);
      if reply.ReplyLost? {
        return Err(Unavailable);
      }
      var decision := Decision(allowed == 1, retry);
      result := if decision.allowed then Ok(decision) else Err(LimitExceeded(decision));
    }
  }
}
