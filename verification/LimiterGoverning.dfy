/** Which of the two limits decides: exactly when the hard window can ever deny what the bucket would allow. */
module LimiterGoverning {
  import opened Wrappers
  import opened HybridLimit
  import opened LimiterRuns

  /** Spending the whole window's allowance takes more than one full bucket and a window's restoration. */
  predicate BucketGoverns(r: Rule) {
    (r.maximum + 1) * r.restoreOver > r.immediate * r.restoreOver + (r.window - 1) * r.immediate
  }

  /** At the end of every run, whenever the bucket has a token for a further call the window has room for it. */
  ghost predicate WindowNeverDecides(r: Rule) {
    forall start, calls, now ::
      Spans(start, calls, now) && Refilled(r, Final(r, FRESH, calls).bucket, now) >= r.restoreOver
      ==> |After(Final(r, FRESH, calls).window, now - r.window)| < r.maximum
  }

  lemma BucketGovernsRun(r: ValidRule, start: int, calls: seq<int>, now: int)
    requires BucketGoverns(r) && Spans(start, calls, now)
    requires Refilled(r, Final(r, FRESH, calls).bucket, now) >= r.restoreOver
    ensures |After(Final(r, FRESH, calls).window, now - r.window)| < r.maximum
  {
    hide Refilled;
    hide After;
    hide Final;
    hide AllowedWithin;
    var from := now - r.window + 1;
    var n := AllowedWithin(r, FRESH, calls, from, now);
    RefilledBounds(r, FRESH, start);
    LogCounts(r, calls, start, now);
    Potential(r, FRESH, calls, start, from, now);
    SpansOrder(start, calls, now);
    MulMonotone(now - start, r.window - 1, r.immediate);
    OneMore(n, r.restoreOver);
    OneMore(r.maximum, r.restoreOver);
    MulMonotone(r.maximum, n, r.restoreOver);
  }

  // ----- the converse: a run that exhausts the window as fast as the bucket lets it -----

  /** The first instant at which the bucket can have paid `k` requests. */
  function Earliest(r: ValidRule, k: nat): int {
    Max(0, CeilDiv(k * r.restoreOver - Capacity(r), r.immediate))
  }

  function Burst(r: ValidRule, k: nat): seq<int> {
    if k == 0 then [] else Burst(r, k - 1) + [Earliest(r, k)]
  }

  lemma EarliestPays(r: ValidRule, k: nat)
    requires k >= 1
    ensures Earliest(r, k) * r.immediate >= k * r.restoreOver - Capacity(r)
    ensures Earliest(r, k) * r.immediate <= (k - 1) * r.restoreOver
    ensures Earliest(r, k - 1) <= Earliest(r, k)
  {
    var owed := k * r.restoreOver - Capacity(r);
    var wait := CeilDiv(owed, r.immediate);
    CapacityBounds(r);
    CeilDivLeast(owed, r.immediate, wait);
    CeilDivLeast(owed, r.immediate, wait - 1);
    CeilDivLeast(owed - r.restoreOver, r.immediate, wait);
    OneMore(k - 1, r.restoreOver);
    MulMonotone(0, k - 1, r.restoreOver);
    MulMonotone(wait, 0, r.immediate);
  }

  lemma EarliestInWindow(r: ValidRule, k: nat)
    requires !BucketGoverns(r) && k <= r.maximum
    ensures 0 <= Earliest(r, k) <= r.window - 1
  {
    MulMonotone(k, r.maximum, r.restoreOver);
    OneMore(r.maximum, r.restoreOver);
    CeilDivLeast(k * r.restoreOver - Capacity(r), r.immediate, r.window - 1);
  }

  lemma {:induction false} AfterKeepsAll(r: ValidRule, k: nat, cutoff: int)
    requires cutoff < 0
    ensures After(Burst(r, k), cutoff) == Burst(r, k) && |Burst(r, k)| == k
  {
    if k > 0 {
      AfterKeepsAll(r, k - 1, cutoff);
      AfterLast(Burst(r, k - 1), Earliest(r, k), cutoff);
    }
  }

  /** What the key holds after `k` requests of the burst. */
  function AfterBurst(r: ValidRule, k: nat): State {
    if k == 0 then FRESH
    else State(Some(Bucket(Capacity(r) + Earliest(r, k) * r.immediate - k * r.restoreOver, Earliest(r, k))), Burst(r, k))
  }

  /** At its earliest instant the next request finds its token, and the bucket has not sat full. */
  lemma BurstRefill(r: ValidRule, k: nat)
    requires k >= 1
    ensures Refilled(r, AfterBurst(r, k - 1).bucket, Earliest(r, k))
            == Capacity(r) + Earliest(r, k) * r.immediate - (k - 1) * r.restoreOver
            >= r.restoreOver
  {
    EarliestPays(r, k);
    OneMore(k - 1, r.restoreOver);
    Split(0, Earliest(r, k - 1), Earliest(r, k), r.immediate);
    CapacityBounds(r);
  }

  lemma BurstStep(r: ValidRule, k: nat)
    requires !BucketGoverns(r) && 1 <= k <= r.maximum
    ensures Next(r, AfterBurst(r, k - 1), Earliest(r, k)) == AfterBurst(r, k)
  {
    hide Refilled;
    hide After;
    hide CeilDiv;
    EarliestInWindow(r, k);
    AfterKeepsAll(r, k - 1, Earliest(r, k) - r.window);
    BurstRefill(r, k);
    OneMore(k - 1, r.restoreOver);
    hide Earliest;
  }

  lemma {:induction false} BurstRuns(r: ValidRule, k: nat)
    requires !BucketGoverns(r) && k <= r.maximum
    ensures Spans(0, Burst(r, k), Earliest(r, k))
    ensures Final(r, FRESH, Burst(r, k)) == AfterBurst(r, k)
  {
    if k == 0 {
      CapacityBounds(r);
    } else {
      var at := Earliest(r, k);
      BurstRuns(r, k - 1);
      EarliestPays(r, k);
      SpansLonger(0, Burst(r, k - 1), Earliest(r, k - 1), at);
      SpansAppend(0, Burst(r, k - 1), at);
      FinalAppend(r, FRESH, Burst(r, k - 1), at);
      BurstStep(r, k);
      hide Next;
      hide Earliest;
      hide AfterBurst;
      hide BucketGoverns;
    }
  }

  lemma WindowDecidesSomeRun(r: ValidRule)
    requires !BucketGoverns(r)
    ensures Spans(0, Burst(r, r.maximum), r.window - 1)
    ensures Refilled(r, Final(r, FRESH, Burst(r, r.maximum)).bucket, r.window - 1) >= r.restoreOver
    ensures |After(Final(r, FRESH, Burst(r, r.maximum)).window, -1)| == r.maximum
  {
    var at := Earliest(r, r.maximum);
    BurstRuns(r, r.maximum);
    EarliestInWindow(r, r.maximum);
    SpansLonger(0, Burst(r, r.maximum), at, r.window - 1);
    AfterKeepsAll(r, r.maximum, -1);
    OneMore(r.maximum, r.restoreOver);
    Split(0, at, r.window - 1, r.immediate);
    CapacityBounds(r);
  }

  /** The window test is redundant in every run exactly when the rule's numbers say so. */
  lemma GoverningLimit(r: ValidRule)
    ensures WindowNeverDecides(r) <==> BucketGoverns(r)
  {
    if BucketGoverns(r) {
      forall start, calls, now |
        Spans(start, calls, now) && Refilled(r, Final(r, FRESH, calls).bucket, now) >= r.restoreOver
        ensures |After(Final(r, FRESH, calls).window, now - r.window)| < r.maximum
      {
        BucketGovernsRun(r, start, calls, now);
      }
    } else {
      WindowDecidesSomeRun(r);
    }
  }
}
