/**
 Whole runs of the script over one keyspace: calls of any number of identities, in the order in which
 the server runs them, with keys expiring on the server's clock.  A call whose reply is lost is a call
 like any other here.
 */
module KeyspaceRuns {
  import opened Wrappers
  import opened HybridLimit
  import opened LimiterRuns
  import opened LimiterRefinements
  import opened RedisScript

  function BucketName(key: string): string { key + ":bucket" }

  function WindowName(key: string): string { key + ":window" }

  /** One run of the script for an identity key. */
  datatype Call = Call(key: string, rule: ScriptRule, now: int, member: string, serverNow: int)

  function Ran(k: Keyspace, c: Call): Keyspace {
    Script(k, BucketName(c.key), WindowName(c.key), c.now, c.rule, c.member, c.serverNow).0
  }

  function Answer(k: Keyspace, c: Call): Decision {
    Script(k, BucketName(c.key), WindowName(c.key), c.now, c.rule, c.member, c.serverNow).1
  }

  function RanAll(k: Keyspace, calls: seq<Call>): Keyspace
    decreases |calls|
  {
    if calls == [] then k else Ran(RanAll(k, calls[..|calls| - 1]), calls[|calls| - 1])
  }

  /** The times of the calls on `key`, in the order in which they ran. */
  function OnKey(calls: seq<Call>, key: string): seq<int>
    decreases |calls|
  {
    if calls == [] then []
    else
      var c := calls[|calls| - 1];
      OnKey(calls[..|calls| - 1], key) + if c.key == key then [c.now] else []
  }

  /** The latest call on `key`. */
  function Latest(calls: seq<Call>, key: string): Option<Call>
    decreases |calls|
  {
    if calls == [] then None
    else
      var c := calls[|calls| - 1];
      if c.key == key then Some(c) else Latest(calls[..|calls| - 1], key)
  }

  /** How many calls on `key` at a time in `[from, to]` were allowed. */
  function AdmittedWithin(calls: seq<Call>, key: string, from: int, to: int): nat
    decreases |calls|
  {
    if calls == [] then 0
    else
      var init, c := calls[..|calls| - 1], calls[|calls| - 1];
      AdmittedWithin(init, key, from, to)
      + if c.key == key && from <= c.now <= to && Answer(RanAll(EMPTY, init), c).allowed then 1 else 0
  }

  predicate MeetsRule(calls: seq<Call>, key: string, r: Rule) {
    forall i :: 0 <= i < |calls| && calls[i].key == key ==> calls[i].rule == r
  }

  /**
   The next call on its key after `calls`: neither clock goes back, the callers' clocks do not fall behind
   the server's by more than the longer period between two calls, and the random member is new.
   */
  ghost predicate Follows(calls: seq<Call>, c: Call) {
    && (forall i :: 0 <= i < |calls| && calls[i].key == c.key ==> calls[i].member != c.member)
    && match Latest(calls, c.key)
       case None => true
       case Some(p) =>
         && p.now <= c.now && p.serverNow <= c.serverNow
         && c.serverNow - p.serverNow <= c.now - p.now + Max(c.rule.restoreOver, c.rule.window)
  }

  ghost predicate Orderly(calls: seq<Call>, key: string)
    decreases |calls|
  {
    calls == []
    || var init, c := calls[..|calls| - 1], calls[|calls| - 1];
       Orderly(init, key) && (c.key == key ==> Follows(init, c))
  }

  /** One clock that never goes back, shared by all, and members never drawn twice make any run orderly. */
  lemma {:induction false} SharedClockOrderly(calls: seq<Call>, key: string)
    requires forall i, j :: 0 <= i < j < |calls| ==> calls[i].now <= calls[j].now && calls[i].member != calls[j].member
    requires forall i :: 0 <= i < |calls| ==> calls[i].serverNow == calls[i].now && WholeMilliseconds(calls[i].rule)
    ensures Orderly(calls, key)
    ensures Latest(calls, key).Some? ==> Latest(calls, key).value in calls
    decreases |calls|
  {
    if calls != [] {
      var init, c := calls[..|calls| - 1], calls[|calls| - 1];
      SharedClockOrderly(init, key);
      assert Latest(init, key).Some? ==> exists i :: 0 <= i < |init| && init[i] == Latest(init, key).value;
      assert c.key == key ==> Follows(init, c);
    }
  }

  // ----- what the keyspace holds for one identity -----

  /** The state the integer model reaches by the key's own calls. */
  ghost function Reached(r: ValidRule, calls: seq<Call>, key: string): State {
    Final(r, FRESH, OnKey(calls, key))
  }

  ghost predicate KnownMembers(k: Keyspace, calls: seq<Call>, key: string, u: int) {
    forall m :: HasMember(LiveEvents(k, WindowName(key), u), m) ==>
      exists i :: 0 <= i < |calls| && calls[i].key == key && calls[i].member == m
  }

  /** What a key holds right after its latest call `p`, and until when. */
  ghost predicate HoldsSince(r: ValidRule, k: Keyspace, calls: seq<Call>, key: string, p: Call) {
    && BucketName(key) in k.buckets && k.buckets[BucketName(key)].expiresAt == p.serverNow + TimeToLive(r)
    && (WindowName(key) in k.windows ==> k.windows[WindowName(key)].expiresAt == p.serverNow + TimeToLive(r))
    && Contents(r, k, BucketName(key), WindowName(key), p.serverNow) == Reached(r, calls, key)
    && KnownMembers(k, calls, key, p.serverNow)
    && StoredBy(Reached(r, calls, key), Some(p.now)) && Valid(r, Reached(r, calls, key))
  }

  ghost predicate Tracks(r: ValidRule, k: Keyspace, calls: seq<Call>, key: string) {
    && Scaled(r, k, BucketName(key))
    && match Latest(calls, key)
       case None => BucketName(key) !in k.buckets && WindowName(key) !in k.windows && OnKey(calls, key) == []
       case Some(p) => HoldsSince(r, k, calls, key, p)
  }

  lemma NamesDiffer(a: string, b: string)
    requires a != b
    ensures BucketName(a) != BucketName(b) && WindowName(a) != WindowName(b)
  {
    assert BucketName(a)[..|BucketName(a)| - 7] == a && BucketName(b)[..|BucketName(b)| - 7] == b;
    assert WindowName(a)[..|WindowName(a)| - 7] == a && WindowName(b)[..|WindowName(b)| - 7] == b;
  }

  /** What a call on a tracked key finds answers like the state reached by all its calls, though the keys may be gone. */
  lemma FoundAgrees(r: ValidRule, k: Keyspace, calls: seq<Call>, c: Call)
    requires Tracks(r, k, calls, c.key) && Follows(calls, c) && c.rule == r
    ensures Agrees(r, Contents(r, k, BucketName(c.key), WindowName(c.key), c.serverNow), Reached(r, calls, c.key), c.now)
    ensures !HasMember(LiveEvents(k, WindowName(c.key), c.serverNow), c.member)
  {
    var s := Reached(r, calls, c.key);
    assert Scores([]) == [];
    CapacityBounds(r);
    match Latest(calls, c.key) {
      case None =>
        assert Contents(r, k, BucketName(c.key), WindowName(c.key), c.serverNow) == FRESH == s;
      case Some(p) =>
        IdleContents(r, k, BucketName(c.key), WindowName(c.key), p.serverNow, c.serverNow);
        hide Contents;
        hide LiveEvents;
        if p.serverNow + TimeToLive(r) < c.serverNow {
          IdleIsFresh(r, s, Some(p.now), c.now);
        }
    }
  }

  lemma ReachedNext(r: ValidRule, calls: seq<Call>, c: Call, p: Option<int>)
    requires StoredBy(Reached(r, calls, c.key), p) && Valid(r, Reached(r, calls, c.key)) && (p.Some? ==> p.value <= c.now)
    ensures Reached(r, calls + [c], c.key) == Next(r, Reached(r, calls, c.key), c.now)
    ensures StoredBy(Reached(r, calls + [c], c.key), Some(c.now)) && Valid(r, Reached(r, calls + [c], c.key))
  {
    assert (calls + [c])[..|calls|] == calls;
    FinalAppend(r, FRESH, OnKey(calls, c.key), c.now);
    StoredNext(r, Reached(r, calls, c.key), p, c.now);
    NextValid(r, Reached(r, calls, c.key), c.now);
    hide Final;
    hide Next;
    hide StoredBy;
    hide Valid;
  }

  lemma MembersStayKnown(k: Keyspace, k': Keyspace, calls: seq<Call>, c: Call, p: Option<int>)
    requires p.Some? ==> KnownMembers(k, calls, c.key, p.value)
    requires forall m :: HasMember(LiveEvents(k', WindowName(c.key), c.serverNow), m) ==>
               m == c.member || (p.Some? && HasMember(LiveEvents(k, WindowName(c.key), p.value), m))
    ensures KnownMembers(k', calls + [c], c.key, c.serverNow)
  {
    hide LiveEvents;
    hide HasMember;
    forall m | HasMember(LiveEvents(k', WindowName(c.key), c.serverNow), m)
      ensures exists i :: 0 <= i < |calls + [c]| && (calls + [c])[i].key == c.key && (calls + [c])[i].member == m
    {
      if m == c.member {
        assert (calls + [c])[|calls|] == c;
      } else {
        var i :| 0 <= i < |calls| && calls[i].key == c.key && calls[i].member == m;
        assert (calls + [c])[i] == calls[i];
      }
    }
  }

  /** A call on the key is answered as the key's own calls alone determine. */
  lemma CallAnswers(r: ValidRule, k: Keyspace, calls: seq<Call>, c: Call)
    requires Tracks(r, k, calls, c.key) && Follows(calls, c) && c.rule == r
    ensures Answer(k, c) == Decide(r, Reached(r, calls, c.key), c.now)
    ensures Contents(r, Ran(k, c), BucketName(c.key), WindowName(c.key), c.serverNow)
            == Next(r, Reached(r, calls, c.key), c.now)
    ensures Scaled(r, Ran(k, c), BucketName(c.key))
    ensures forall m :: HasMember(LiveEvents(Ran(k, c), WindowName(c.key), c.serverNow), m)
                        ==> m == c.member || HasMember(LiveEvents(k, WindowName(c.key), c.serverNow), m)
  {
    FoundAgrees(r, k, calls, c);
    hide Contents;
    hide LiveEvents;
    hide Script;
    hide Scaled;
    hide HasMember;
    hide Reached;
    hide HoldsSince;
    AgreesStep(r, Contents(r, k, BucketName(c.key), WindowName(c.key), c.serverNow), Reached(r, calls, c.key), c.now, c.now);
    ScriptSteps(k, BucketName(c.key), WindowName(c.key), c.now, r, c.member, c.serverNow);
    hide *;
  }

  lemma CallTracks(r: ValidRule, k: Keyspace, calls: seq<Call>, c: Call)
    requires Tracks(r, k, calls, c.key) && Follows(calls, c) && c.rule == r
    ensures Tracks(r, Ran(k, c), calls + [c], c.key)
  {
    CallAnswers(r, k, calls, c);
    ScriptRenews(k, BucketName(c.key), WindowName(c.key), c.now, r, c.member, c.serverNow);
    assert (calls + [c])[..|calls|] == calls;
    var latest := Latest(calls, c.key);
    if latest.Some? {
      var p := latest.value;
      IdleContents(r, k, BucketName(c.key), WindowName(c.key), p.serverNow, c.serverNow);
      ReachedNext(r, calls, c, Some(p.now));
      KnownAfterIdle(r, k, Ran(k, c), calls, c, p);
    } else {
      CapacityBounds(r);
      ReachedNext(r, calls, c, None);
      MembersStayKnown(k, Ran(k, c), calls, c, None);
    }
    hide Contents;
    hide LiveEvents;
    hide Script;
    hide Scaled;
    hide KnownMembers;
    hide Reached;
    hide Next;
    hide StoredBy;
    hide Valid;
  }

  lemma KnownAfterIdle(r: ValidRule, k: Keyspace, k': Keyspace, calls: seq<Call>, c: Call, p: Call)
    requires KnownMembers(k, calls, c.key, p.serverNow)
    requires LiveEvents(k, WindowName(c.key), c.serverNow) == [] ||
             LiveEvents(k, WindowName(c.key), c.serverNow) == LiveEvents(k, WindowName(c.key), p.serverNow)
    requires forall m :: HasMember(LiveEvents(k', WindowName(c.key), c.serverNow), m) ==>
               m == c.member || HasMember(LiveEvents(k, WindowName(c.key), c.serverNow), m)
    ensures KnownMembers(k', calls + [c], c.key, c.serverNow)
  {
    assert forall m :: !HasMember([], m);
    hide LiveEvents;
    hide HasMember;
    hide KnownMembers;
    MembersStayKnown(k, k', calls, c, Some(p.serverNow));
  }

  /** A call on another key changes nothing that is tracked of this one. */
  lemma ElsewhereTracks(r: ValidRule, k: Keyspace, calls: seq<Call>, c: Call, key: string)
    requires Tracks(r, k, calls, key) && c.key != key
    ensures Tracks(r, Ran(k, c), calls + [c], key)
  {
    NamesDiffer(c.key, key);
    assert (calls + [c])[..|calls|] == calls;
    assert OnKey(calls + [c], key) == OnKey(calls, key);
    assert Latest(calls + [c], key) == Latest(calls, key);
    var p := Latest(calls, key);
    ScriptElsewhere(k, BucketName(c.key), WindowName(c.key), c.now, c.rule, c.member, c.serverNow,
                    BucketName(key), WindowName(key), r, if p.Some? then p.value.serverNow else 0);
    hide Script;
    hide Contents;
    hide LiveEvents;
    hide Scaled;
    hide StoredBy;
    hide Valid;
    hide BucketName;
    hide WindowName;
    forall i | 0 <= i < |calls| ensures (calls + [c])[i] == calls[i] {
    }
  }

  lemma {:induction false} RunTracks(r: ValidRule, calls: seq<Call>, key: string)
    requires Orderly(calls, key) && MeetsRule(calls, key, r)
    ensures Tracks(r, RanAll(EMPTY, calls), calls, key)
    decreases |calls|
  {
    if calls != [] {
      var init, c := calls[..|calls| - 1], calls[|calls| - 1];
      assert calls == init + [c];
      RunTracks(r, init, key);
      hide Tracks;
      hide Ran;
      if c.key == key {
        CallTracks(r, RanAll(EMPTY, init), init, c);
      } else {
        ElsewhereTracks(r, RanAll(EMPTY, init), init, c, key);
      }
    }
  }

  // ----- what a whole run guarantees per identity -----

  lemma {:induction false} OrderlyPrefix(calls: seq<Call>, key: string, n: nat)
    requires Orderly(calls, key) && n <= |calls|
    ensures Orderly(calls[..n], key)
    decreases |calls|
  {
    if n == |calls| {
      assert calls[..n] == calls;
    } else {
      assert calls[..|calls| - 1][..n] == calls[..n];
      OrderlyPrefix(calls[..|calls| - 1], key, n);
    }
  }

  /**
   Every call of every run is answered, decision and retry, as if its key were kept forever and no
   other identity existed.
   */
  lemma RunDecides(r: ValidRule, calls: seq<Call>, n: nat)
    requires n < |calls| && Orderly(calls, calls[n].key) && MeetsRule(calls, calls[n].key, r)
    ensures Answer(RanAll(EMPTY, calls[..n]), calls[n])
            == Decide(r, Reached(r, calls[..n], calls[n].key), calls[n].now)
  {
    var init, c := calls[..n], calls[n];
    OrderlyPrefix(calls, c.key, n + 1);
    assert calls[..n + 1][..n] == init && calls[..n + 1][n] == c;
    assert MeetsRule(init, c.key, r);
    RunTracks(r, init, c.key);
    CallAnswers(r, RanAll(EMPTY, init), init, c);
  }

  lemma LaterCall(calls: seq<Call>, c: Call)
    requires Follows(calls, c) && Latest(calls, c.key).Some?
    ensures Latest(calls, c.key).value.now <= c.now
  {
  }

  lemma TimesExtend(times: seq<int>, last: int, now: int)
    requires times != [] && Spans(times[0], times, last) && last <= now
    ensures Spans((times + [now])[0], times + [now], now)
  {
    SpansLonger(times[0], times, last, now);
    SpansAppend(times[0], times, now);
  }

  lemma {:induction false} OnKeySpans(calls: seq<Call>, key: string)
    requires Orderly(calls, key)
    ensures Latest(calls, key).Some? <==> OnKey(calls, key) != []
    ensures OnKey(calls, key) != [] ==> Spans(OnKey(calls, key)[0], OnKey(calls, key), Latest(calls, key).value.now)
    decreases |calls|
  {
    if calls != [] {
      var init, c := calls[..|calls| - 1], calls[|calls| - 1];
      OnKeySpans(init, key);
      hide Follows;
      var times := OnKey(init, key);
      if c.key != key {
        assert times + [] == times;
      } else if times == [] {
        assert OnKey(calls, key) == [c.now] && [c.now][1..] == [];
      } else {
        LaterCall(init, c);
        TimesExtend(times, Latest(init, key).value.now, c.now);
        hide Spans;
      }
    }
  }

  lemma {:induction false} AdmittedCounts(r: ValidRule, calls: seq<Call>, key: string, from: int, to: int)
    requires Orderly(calls, key) && MeetsRule(calls, key, r)
    ensures AdmittedWithin(calls, key, from, to) == AllowedWithin(r, FRESH, OnKey(calls, key), from, to)
    decreases |calls|
  {
    if calls != [] {
      var init, c := calls[..|calls| - 1], calls[|calls| - 1];
      AdmittedCounts(r, init, key, from, to);
      if c.key == key {
        RunDecides(r, calls, |calls| - 1);
        AllowedAppend(r, FRESH, OnKey(init, key), c.now, from, to);
        assert OnKey(calls, key) == OnKey(init, key) + [c.now];
        hide Answer;
        hide Admits;
      } else {
        assert OnKey(init, key) + [] == OnKey(init, key);
      }
    }
  }

  /** Over one shared keyspace each key obeys both of its bounds, whatever calls of other keys run in between. */
  lemma KeyBounds(r: ValidRule, calls: seq<Call>, key: string, from: int, to: int)
    requires Orderly(calls, key) && MeetsRule(calls, key, r) && from <= to
    ensures AdmittedWithin(calls, key, from, to) * r.restoreOver
            <= r.immediate * r.restoreOver + (to - from) * r.immediate
    ensures AdmittedWithin(calls, key, to - r.window + 1, to) <= r.maximum
  {
    var times := OnKey(calls, key);
    var start := if times == [] then 0 else times[0];
    OnKeySpans(calls, key);
    assert Chronological(start, times) by {
      if times != [] {
        SpansOrder(start, times, Latest(calls, key).value.now);
      }
    }
    AdmittedCounts(r, calls, key, from, to);
    AdmittedCounts(r, calls, key, to - r.window + 1, to);
    hide *;
    TokenBucketBound(r, times, start, from, to);
    SlidingWindowBound(r, times, start, to);
  }

  // ----- the retry hint over a whole run -----

  predicate DeniedBetween(calls: seq<Call>, key: string, n: nat, m: nat)
    requires m <= |calls|
  {
    forall i :: n < i < m && calls[i].key == key ==> !Answer(RanAll(EMPTY, calls[..i]), calls[i]).allowed
  }

  lemma LatestStarts(r: ValidRule, calls: seq<Call>, n: nat)
    requires n < |calls| && Orderly(calls, calls[n].key) && MeetsRule(calls, calls[n].key, r)
    ensures Latest(calls[..n + 1], calls[n].key) == Some(calls[n])
    ensures StartsAt(r, Reached(r, calls[..n + 1], calls[n].key), calls[n].now)
    ensures Reached(r, calls[..n + 1], calls[n].key) == Next(r, Reached(r, calls[..n], calls[n].key), calls[n].now)
    ensures Latest(calls[..n], calls[n].key).Some? ==> Latest(calls[..n], calls[n].key).value.now <= calls[n].now
  {
    var key, init := calls[n].key, calls[..n + 1];
    OrderlyPrefix(calls, key, n + 1);
    assert init[..n] == calls[..n] && init[n] == calls[n];
    assert MeetsRule(init, key, r);
    RunTracks(r, init, key);
    FinalAppend(r, FRESH, OnKey(calls[..n], key), calls[n].now);
    hide Next;
    hide Contents;
    hide LiveEvents;
    hide RanAll;
    hide Scaled;
    hide KnownMembers;
    hide Valid;
  }

  lemma SkipOther(calls: seq<Call>, key: string, i: nat)
    requires i < |calls| && calls[i].key != key
    ensures OnKey(calls[..i + 1], key) == OnKey(calls[..i], key) && Latest(calls[..i + 1], key) == Latest(calls[..i], key)
  {
    assert calls[..i + 1][..i] == calls[..i] && calls[..i + 1][i] == calls[i];
    assert OnKey(calls[..i], key) + [] == OnKey(calls[..i], key);
  }

  lemma DeniedOnce(r: ValidRule, calls: seq<Call>, i: nat, base: State)
    requires i < |calls| && Orderly(calls, calls[i].key) && MeetsRule(calls, calls[i].key, r)
    requires !Answer(RanAll(EMPTY, calls[..i]), calls[i]).allowed
    requires Latest(calls[..i], calls[i].key).Some?
    requires Agrees(r, Reached(r, calls[..i], calls[i].key), base, Latest(calls[..i], calls[i].key).value.now)
    ensures Agrees(r, Reached(r, calls[..i + 1], calls[i].key), base, calls[i].now)
  {
    RunDecides(r, calls, i);
    LatestStarts(r, calls, i);
    var s := Reached(r, calls[..i], calls[i].key);
    assert !Admits(r, s, calls[i].now);
    hide *;
    AgreesStep(r, s, base, Latest(calls[..i], calls[i].key).value.now, calls[i].now);
  }

  /** Denied calls on the key leave it as good as untouched. */
  lemma {:induction false} DeniedLeaveAlone(r: ValidRule, calls: seq<Call>, n: nat, m: nat)
    requires n < m <= |calls| && Orderly(calls, calls[n].key) && MeetsRule(calls, calls[n].key, r)
    requires DeniedBetween(calls, calls[n].key, n, m)
    ensures Latest(calls[..m], calls[n].key).Some?
    ensures Agrees(r, Reached(r, calls[..m], calls[n].key), Reached(r, calls[..n + 1], calls[n].key),
                   Latest(calls[..m], calls[n].key).value.now)
  {
    hide *;
    var key, base := calls[n].key, Reached(r, calls[..n + 1], calls[n].key);
    if m == n + 1 {
      LatestStarts(r, calls, n);
      AgreesItself(r, base, calls[n].now);
    } else {
      DeniedSplit(calls, key, n, m);
      DeniedLeaveAlone(r, calls, n, m - 1);
      if calls[m - 1].key == key {
        LatestStarts(r, calls, m - 1);
        DeniedOnce(r, calls, m - 1, base);
      } else {
        SkipOther(calls, key, m - 1);
        SameReached(r, calls[..m], calls[..m - 1], key);
      }
    }
  }

  lemma AgreesItself(r: ValidRule, s: State, t: int)
    requires StartsAt(r, s, t)
    ensures Agrees(r, s, s, t)
  {
  }

  lemma DeniedSplit(calls: seq<Call>, key: string, n: nat, m: nat)
    requires n + 1 < m <= |calls| && DeniedBetween(calls, key, n, m)
    ensures DeniedBetween(calls, key, n, m - 1)
    ensures calls[m - 1].key == key ==> !Answer(RanAll(EMPTY, calls[..m - 1]), calls[m - 1]).allowed
  {
    hide Answer;
    hide RanAll;
  }

  lemma SameReached(r: ValidRule, calls: seq<Call>, calls': seq<Call>, key: string)
    requires OnKey(calls, key) == OnKey(calls', key)
    ensures Reached(r, calls, key) == Reached(r, calls', key)
  {
    hide OnKey;
    hide Final;
  }

  lemma ReachedValid(r: ValidRule, calls: seq<Call>, key: string)
    ensures Valid(r, Reached(r, calls, key))
  {
    CapacityBounds(r);
    ValidRun(r, FRESH, OnKey(calls, key));
  }

  lemma {:induction false} LatestNoEarlier(calls: seq<Call>, n: nat, m: nat)
    requires n < m <= |calls| && Orderly(calls, calls[n].key)
    ensures Latest(calls[..m], calls[n].key).Some? && calls[n].now <= Latest(calls[..m], calls[n].key).value.now
  {
    assert calls[..m][..m - 1] == calls[..m - 1] && calls[..m][m - 1] == calls[m - 1];
    if n + 1 < m {
      LatestNoEarlier(calls, n, m - 1);
      OrderlyPrefix(calls, calls[n].key, m);
      if calls[m - 1].key == calls[n].key {
        assert Follows(calls[..m - 1], calls[m - 1]);
      } else {
        SkipOther(calls, calls[n].key, m - 1);
      }
    }
  }

  /**
   The hint holds over the shared keyspace: after a denied call, with no other call of the key allowed in
   between, a later one is allowed if and only if the hint has passed.
   */
  lemma RetryHolds(r: ValidRule, calls: seq<Call>, n: nat, m: nat)
    requires n < m < |calls| && calls[m].key == calls[n].key
    requires Orderly(calls, calls[n].key) && MeetsRule(calls, calls[n].key, r)
    requires !Answer(RanAll(EMPTY, calls[..n]), calls[n]).allowed && DeniedBetween(calls, calls[n].key, n, m)
    ensures var hint := Answer(RanAll(EMPTY, calls[..n]), calls[n]).retryAfter;
            && hint >= 1 && calls[m].now >= calls[n].now
            && (Answer(RanAll(EMPTY, calls[..m]), calls[m]).allowed <==> calls[m].now - calls[n].now >= hint)
  {
    hide *;
    var key, t, u := calls[n].key, calls[n].now, calls[m].now;
    var s, late := Reached(r, calls[..n], key), Reached(r, calls[..m], key);
    RunDecides(r, calls, n);
    RunDecides(r, calls, m);
    DecideAdmits(r, s, t);
    LatestStarts(r, calls, n);
    LatestStarts(r, calls, m);
    ReachedValid(r, calls[..n], key);
    DeniedLeaveAlone(r, calls, n, m);
    LatestNoEarlier(calls, n, m);
    HintHolds(r, s, late, t, Latest(calls[..m], key).value.now, u);
  }

  lemma HintHolds(r: ValidRule, s: State, late: State, t: int, p: int, u: int)
    requires Valid(r, s) && !Admits(r, s, t) && Agrees(r, late, Next(r, s, t), p) && p <= u && t <= u
    ensures Decide(r, s, t).retryAfter >= 1
    ensures Decide(r, late, u).allowed <==> u - t >= Decide(r, s, t).retryAfter
  {
    hide *;
    AgreesStep(r, late, Next(r, s, t), p, u);
    RetryExactAtOnce(r, s, t, u - t);
    DecideAdmits(r, late, u);
    assert t + (u - t) == u;
  }

  lemma DecideAdmits(r: ValidRule, s: State, now: int)
    ensures Decide(r, s, now).allowed == Admits(r, s, now)
  {
  }
}
