/** Rate bounds over whole runs of calls on one key. */
module LimiterRuns {
  import opened HybridLimit

  /** Clock readings that start no earlier than `from` and never go back. */
  predicate Chronological(from: int, calls: seq<int>)
    decreases |calls|
  {
    calls == [] || (from <= calls[0] && Chronological(calls[0], calls[1..]))
  }

  /** The same, ending no later than `to`. */
  predicate Spans(from: int, calls: seq<int>, to: int)
    decreases |calls|
  {
    if calls == [] then from <= to else from <= calls[0] && Spans(calls[0], calls[1..], to)
  }

  /** The key's contents after the calls, starting from `s`. */
  function Final(r: Rule, s: State, calls: seq<int>): State
    decreases |calls|
  {
    if calls == [] then s else Final(r, Next(r, s, calls[0]), calls[1..])
  }

  function Charged(r: Rule, s: State, c: int): seq<int> {
    if Admits(r, s, c) then [c] else []
  }

  /** The times of the allowed calls, in order. */
  function AllowedTimes(r: Rule, s: State, calls: seq<int>): seq<int>
    decreases |calls|
  {
    if calls == [] then []
    else Charged(r, s, calls[0]) + AllowedTimes(r, Next(r, s, calls[0]), calls[1..])
  }

  /** How many calls were allowed at a time in `[from, to]`. */
  function AllowedWithin(r: Rule, s: State, calls: seq<int>, from: int, to: int): nat
    decreases |calls|
  {
    if calls == [] then 0
    else
      (if from <= calls[0] <= to && Admits(r, s, calls[0]) then 1 else 0)
      + AllowedWithin(r, Next(r, s, calls[0]), calls[1..], from, to)
  }

  /** Valid and last written no later than `t`: where a run with calls from `t` on may start. */
  ghost predicate StartsAt(r: ValidRule, s: State, t: int) {
    Valid(r, s) && Ready(s, t)
  }

  lemma {:induction false} ValidRun(r: ValidRule, s: State, calls: seq<int>)
    requires Valid(r, s)
    ensures Valid(r, Final(r, s, calls))
    decreases |calls|
  {
    if calls != [] {
      NextValid(r, s, calls[0]);
      ValidRun(r, Next(r, s, calls[0]), calls[1..]);
    }
  }

  /** Whatever the order of its clock readings, a run never overdraws the bucket or overfills the log. */
  lemma StateBounds(r: ValidRule, calls: seq<int>)
    requires calls != []
    ensures
      var s := Final(r, FRESH, calls);
      && s.bucket.Some?
      && 0 <= s.bucket.value.tokens <= r.immediate * r.restoreOver
      && |s.window| <= r.maximum
  {
    ValidRun(r, FRESH, calls);
    FinalWritten(r, FRESH, calls);
  }

  lemma {:induction false} FinalWritten(r: ValidRule, s: State, calls: seq<int>)
    requires calls != []
    ensures Final(r, s, calls).bucket.Some?
    ensures Final(r, s, calls).bucket.value.updatedAt == calls[|calls| - 1]
    decreases |calls|
  {
    if |calls| > 1 {
      FinalWritten(r, Next(r, s, calls[0]), calls[1..]);
    }
  }

  lemma {:induction false} SpansOrder(from: int, calls: seq<int>, to: int)
    requires Spans(from, calls, to)
    ensures from <= to && Chronological(from, calls)
    decreases |calls|
  {
    if calls != [] {
      SpansOrder(calls[0], calls[1..], to);
    }
  }

  lemma {:induction false} ReadyRun(r: ValidRule, s: State, calls: seq<int>, from: int, to: int)
    requires StartsAt(r, s, from) && Spans(from, calls, to)
    ensures StartsAt(r, Final(r, s, calls), to)
    decreases |calls|
  {
    if calls != [] {
      NextValid(r, s, calls[0]);
      ReadyRun(r, Next(r, s, calls[0]), calls[1..], calls[0], to);
    }
  }

  lemma {:induction false} NothingBeyond(r: ValidRule, s: State, calls: seq<int>, start: int, from: int, to: int)
    requires Chronological(start, calls) && start > to
    ensures AllowedWithin(r, s, calls, from, to) == 0
    decreases |calls|
  {
    if calls != [] {
      NothingBeyond(r, Next(r, s, calls[0]), calls[1..], calls[0], from, to);
    }
  }

  /** The calls made no later than `to`. */
  function UpTo(calls: seq<int>, to: int): seq<int>
    decreases |calls|
  {
    if calls == [] || calls[0] > to then [] else [calls[0]] + UpTo(calls[1..], to)
  }

  lemma {:induction false} Truncated(r: ValidRule, s: State, calls: seq<int>, start: int, from: int, to: int)
    requires Chronological(start, calls) && start <= to
    ensures Spans(start, UpTo(calls, to), to)
    ensures AllowedWithin(r, s, UpTo(calls, to), from, to) == AllowedWithin(r, s, calls, from, to)
    decreases |calls|
  {
    if calls != [] {
      var c, next, rest := calls[0], Next(r, s, calls[0]), calls[1..];
      if c > to {
        NothingBeyond(r, next, rest, c, from, to);
      } else {
        Truncated(r, next, rest, c, from, to);
        assert ([c] + UpTo(rest, to))[1..] == UpTo(rest, to);
      }
    }
  }

  // ----- one call more -----

  lemma {:induction false} FinalAppend(r: ValidRule, s: State, calls: seq<int>, c: int)
    ensures Final(r, s, calls + [c]) == Next(r, Final(r, s, calls), c)
    decreases |calls|
  {
    if calls == [] {
      assert [] + [c] == [c];
    } else {
      FinalAppend(r, Next(r, s, calls[0]), calls[1..], c);
      assert (calls + [c])[1..] == calls[1..] + [c];
    }
  }

  lemma {:induction false} SpansAppend(start: int, calls: seq<int>, c: int)
    requires Spans(start, calls, c)
    ensures Spans(start, calls + [c], c)
    decreases |calls|
  {
    if calls == [] {
      assert [] + [c] == [c];
    } else {
      SpansAppend(calls[0], calls[1..], c);
      assert (calls + [c])[1..] == calls[1..] + [c];
    }
  }

  lemma {:induction false} SpansLonger(start: int, calls: seq<int>, to: int, later: int)
    requires Spans(start, calls, to) && to <= later
    ensures Spans(start, calls, later)
    decreases |calls|
  {
    if calls != [] {
      SpansLonger(calls[0], calls[1..], to, later);
    }
  }

  lemma {:induction false} AllowedAppend(r: ValidRule, s: State, calls: seq<int>, c: int, from: int, to: int)
    ensures AllowedWithin(r, s, calls + [c], from, to)
            == AllowedWithin(r, s, calls, from, to) + if from <= c <= to && Admits(r, Final(r, s, calls), c) then 1 else 0
    decreases |calls|
  {
    hide Admits;
    hide Next;
    if calls == [] {
      assert [] + [c] == [c];
      assert [c][1..] == [];
    } else {
      AllowedAppend(r, Next(r, s, calls[0]), calls[1..], c, from, to);
      assert (calls + [c])[1..] == calls[1..] + [c];
    }
  }

  // ----- token bucket -----

  /** One call: the bucket pays a full token if the call is allowed and nothing otherwise. */
  lemma CallCost(r: ValidRule, s: State, from: int, c: int)
    requires StartsAt(r, s, from) && from <= c
    ensures StartsAt(r, Next(r, s, c), c)
    ensures Refilled(r, Next(r, s, c).bucket, c) + (if Admits(r, s, c) then r.restoreOver else 0)
            == Refilled(r, s.bucket, c)
            <= Refilled(r, s.bucket, from) + (c - from) * r.immediate
  {
    NextValid(r, s, c);
    RefilledBounds(r, s, c);
    RefilledCompose(r, s, from, c);
  }

  lemma Split(a: int, b: int, c: int, k: int)
    ensures (c - a) * k == (b - a) * k + (c - b) * k
  {
  }

  lemma OneMore(n: int, k: int)
    ensures (1 + n) * k == k + n * k
  {
  }

  /**
   What the allowed calls of an interval spent plus what is left at its end was there at its start
   (one full allowance at most) or was restored meanwhile.
   */
  lemma {:induction false} Potential(r: ValidRule, s: State, calls: seq<int>, start: int, from: int, to: int)
    requires StartsAt(r, s, start) && Spans(start, calls, to)
    ensures
      var used := AllowedWithin(r, s, calls, from, to) * r.restoreOver + Refilled(r, Final(r, s, calls).bucket, to);
      && (from <= start ==> used <= Refilled(r, s.bucket, start) + (to - start) * r.immediate)
      && (start <= from <= to ==> used <= Capacity(r) + (to - from) * r.immediate)
    decreases |calls|
  {
    RefilledBounds(r, s, start);
    if calls == [] {
      RefilledCompose(r, s, start, to);
      RefilledBounds(r, s, to);
      MulMonotone(0, to - from, r.immediate);
    } else {
      var c, next, rest := calls[0], Next(r, s, calls[0]), calls[1..];
      CallCost(r, s, start, c);
      SpansOrder(c, rest, to);
      Potential(r, next, rest, c, from, to);
      RefilledBounds(r, s, c);
      Split(start, c, to, r.immediate);
      MulMonotone(to - c, to - from, r.immediate);
      OneMore(AllowedWithin(r, next, rest, from, to), r.restoreOver);
    }
  }

  /**
   Token-bucket bound: over any interval, what the allowed requests cost is at most one full
   allowance plus what the interval restores.
   */
  lemma TokenBucketBound(r: ValidRule, calls: seq<int>, start: int, from: int, to: int)
    requires Chronological(start, calls) && from <= to
    ensures AllowedWithin(r, FRESH, calls, from, to) * r.restoreOver
            <= r.immediate * r.restoreOver + (to - from) * r.immediate
  {
    MulMonotone(0, to - from, r.immediate);
    CapacityBounds(r);
    if start <= to {
      Truncated(r, FRESH, calls, start, from, to);
      Potential(r, FRESH, UpTo(calls, to), start, from, to);
      ReadyRun(r, FRESH, UpTo(calls, to), start, to);
      RefilledBounds(r, Final(r, FRESH, UpTo(calls, to)), to);
      MulMonotone(to - start, to - from, r.immediate);
    } else {
      NothingBeyond(r, FRESH, calls, start, from, to);
    }
  }

  // ----- clock readings in any order -----

  /** How far the readings move forward in all, from `from` on; backward movements do not count. */
  function Forward(from: int, calls: seq<int>): nat
    decreases |calls|
  {
    if calls == [] then 0 else Max(0, calls[0] - from) + Forward(calls[0], calls[1..])
  }

  lemma {:induction false} SpentForward(r: ValidRule, s: State, calls: seq<int>)
    requires Valid(r, s) && s.bucket.Some?
    ensures Final(r, s, calls).bucket.Some?
    ensures |AllowedTimes(r, s, calls)| * r.restoreOver + Final(r, s, calls).bucket.value.tokens
            <= s.bucket.value.tokens + Forward(s.bucket.value.updatedAt, calls) * r.immediate
    decreases |calls|
  {
    if calls != [] {
      var c, next := calls[0], Next(r, s, calls[0]);
      NextValid(r, s, c);
      SpentForward(r, next, calls[1..]);
      CallSpends(r, s, c);
      var ahead := Max(0, c - s.bucket.value.updatedAt);
      Split(0, ahead, ahead + Forward(c, calls[1..]), r.immediate);
      OneMore(|AllowedTimes(r, next, calls[1..])|, r.restoreOver);
      hide Next;
      hide Admits;
      hide Refilled;
      hide Valid;
    }
  }

  lemma CallSpends(r: ValidRule, s: State, c: int)
    requires s.bucket.Some?
    ensures Next(r, s, c).bucket.Some? && Next(r, s, c).bucket.value.updatedAt == c
    ensures Next(r, s, c).bucket.value.tokens + (if Admits(r, s, c) then r.restoreOver else 0)
            <= s.bucket.value.tokens + Max(0, c - s.bucket.value.updatedAt) * r.immediate
  {
  }

  /**
   What clocks that disagree cost: in any run, in whatever order its readings come, the allowed calls cost at
   most one full allowance plus what all forward movements of the readings restore.
   */
  lemma UnorderedBound(r: ValidRule, calls: seq<int>)
    requires calls != []
    ensures |AllowedTimes(r, FRESH, calls)| * r.restoreOver
            <= r.immediate * r.restoreOver + Forward(calls[0], calls[1..]) * r.immediate
  {
    var c, next, rest := calls[0], Next(r, FRESH, calls[0]), calls[1..];
    CapacityBounds(r);
    NextValid(r, FRESH, c);
    SpentForward(r, next, rest);
    ValidRun(r, next, rest);
    OneMore(|AllowedTimes(r, next, rest)|, r.restoreOver);
  }

  /** Readings that never go back move forward by what lies between the first and the last. */
  lemma {:induction false} ForwardInOrder(from: int, calls: seq<int>, to: int)
    requires Spans(from, calls, to)
    ensures Forward(from, calls) == (if calls == [] then from else calls[|calls| - 1]) - from <= to - from
    decreases |calls|
  {
    if calls != [] {
      SpansOrder(calls[0], calls[1..], to);
      ForwardInOrder(calls[0], calls[1..], to);
    }
  }

  // ----- sliding window -----

  lemma LogStep(r: ValidRule, s: State, c: int)
    ensures Next(r, s, c).window == After(s.window + Charged(r, s, c), c - r.window)
  {
    if Admits(r, s, c) {
      AfterLast(s.window, c, c - r.window);
    } else {
      assert s.window + [] == s.window;
    }
  }

  lemma {:induction false} LogFrom(r: ValidRule, s: State, calls: seq<int>, from: int, now: int)
    requires Spans(from, calls, now)
    ensures After(Final(r, s, calls).window, now - r.window)
            == After(s.window + AllowedTimes(r, s, calls), now - r.window)
    decreases |calls|
  {
    hide Next;
    hide Admits;
    hide After;
    if calls == [] {
      assert s.window + [] == s.window;
    } else {
      var c, next, rest := calls[0], Next(r, s, calls[0]), calls[1..];
      LogStep(r, s, c);
      SpansOrder(c, rest, now);
      LogJoin(s.window, Charged(r, s, c), AllowedTimes(r, next, rest), c - r.window, now - r.window);
      LogFrom(r, next, rest, c, now);
    }
  }

  lemma LogJoin(log: seq<int>, first: seq<int>, more: seq<int>, early: int, late: int)
    ensures early <= late ==> After(After(log + first, early) + more, late) == After(log + (first + more), late)
  {
    if early <= late {
      AfterConcat(After(log + first, early), more, late);
      AfterAfter(log + first, early, late);
      AfterConcat(log + first, more, late);
      assert log + first + more == log + (first + more);
    }
  }

  /** At and after the last call, the live part of the log is exactly the allowed times still inside the window. */
  lemma LogIsAllowedTimes(r: ValidRule, calls: seq<int>, start: int, now: int)
    requires Spans(start, calls, now)
    ensures After(Final(r, FRESH, calls).window, now - r.window) == After(AllowedTimes(r, FRESH, calls), now - r.window)
  {
    LogFrom(r, FRESH, calls, start, now);
    assert [] + AllowedTimes(r, FRESH, calls) == AllowedTimes(r, FRESH, calls);
  }

  lemma {:induction false} TimesWithin(r: ValidRule, s: State, calls: seq<int>, start: int, from: int, to: int)
    requires Spans(start, calls, to)
    ensures |After(AllowedTimes(r, s, calls), from - 1)| == AllowedWithin(r, s, calls, from, to)
    decreases |calls|
  {
    if calls != [] {
      var c, next, rest := calls[0], Next(r, s, calls[0]), calls[1..];
      TimesWithin(r, next, rest, c, from, to);
      SpansOrder(c, rest, to);
      AfterConcat(Charged(r, s, c), AllowedTimes(r, next, rest), from - 1);
      AfterLast([], c, from - 1);
      assert [] + [c] == [c];
    }
  }

  /** Counting the window that ends at `now` is counting the live log. */
  lemma LogCounts(r: ValidRule, calls: seq<int>, start: int, now: int)
    requires Spans(start, calls, now)
    ensures |After(Final(r, FRESH, calls).window, now - r.window)|
            == AllowedWithin(r, FRESH, calls, now - r.window + 1, now)
  {
    LogIsAllowedTimes(r, calls, start, now);
    TimesWithin(r, FRESH, calls, start, now - r.window + 1, now);
  }

  /** Sliding-window bound: no interval `(t - window, t]` holds more allowed requests than the hard limit. */
  lemma SlidingWindowBound(r: ValidRule, calls: seq<int>, start: int, t: int)
    requires Chronological(start, calls)
    ensures AllowedWithin(r, FRESH, calls, t - r.window + 1, t) <= r.maximum
  {
    if start <= t {
      Truncated(r, FRESH, calls, start, t - r.window + 1, t);
      LogCounts(r, UpTo(calls, t), start, t);
      ValidRun(r, FRESH, UpTo(calls, t));
      AfterSize(Final(r, FRESH, UpTo(calls, t)).window, t - r.window);
    } else {
      NothingBeyond(r, FRESH, calls, start, t - r.window + 1, t);
    }
  }
}
