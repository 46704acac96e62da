/** dns_policy_manager.go: the guard rail's failure counter, as a function of the observed results. */
module GuardRail {
  import opened Basics
  import opened Policy

  /** The three counting fields of the guard rail. */
  datatype Counter = Counter(count: int, firstFailure: Time, lastFailure: Time)

  const CLEAR := Counter(0, 0, 0)

  /** One request outcome reported to the guard rail. */
  datatype Obs = Obs(at: Time, failed: bool)

  /** The counter with the failure at `now` added, before the threshold is looked at. */
  function Count(p: GuardPolicy, c: Counter, now: Time): Counter {
    var stale := c.firstFailure == 0 || (p.window > 0 && now - c.firstFailure > p.window);
    var kept := if stale && p.window > 0 then 0 else c.count;
    Counter(kept + 1, if stale then now else c.firstFailure, now)
  }

  predicate Crosses(p: GuardPolicy, c: Counter, now: Time) {
    Count(p, c, now).count >= p.threshold
  }

  /** Crossing the threshold starts the count over. */
  function AfterFailure(p: GuardPolicy, c: Counter, now: Time): Counter {
    if Crosses(p, c, now) then Counter(0, 0, now) else Count(p, c, now)
  }

  /** The counter after a history of results; a success clears it. */
  function Tally(p: GuardPolicy, obs: seq<Obs>): Counter {
    if obs == [] || !Last(obs).failed then CLEAR
    else AfterFailure(p, Tally(p, Front(obs)), Last(obs).at)
  }

  /** The last result of the history is a threshold crossing. */
  predicate Crossing(p: GuardPolicy, obs: seq<Obs>) {
    obs != [] && Last(obs).failed && Crosses(p, Tally(p, Front(obs)), Last(obs).at)
  }

  /** How many results of the history were crossings. */
  function Crossings(p: GuardPolicy, obs: seq<Obs>): nat {
    if obs == [] then 0 else Crossings(p, Front(obs)) + if Crossing(p, obs) then 1 else 0
  }

  predicate PositiveTimes(obs: seq<Obs>) { forall i :: 0 <= i < |obs| ==> obs[i].at > 0 }

  /** obs[from..to] are all failures. */
  predicate AllFailed(obs: seq<Obs>, from: nat, to: nat)
    requires from <= to <= |obs|
  {
    forall i :: from <= i < to ==> obs[i].failed
  }

  // ---------------------------------------------------------------------------
  // Soundness: what a count, and a crossing, is evidence of
  // ---------------------------------------------------------------------------

  /** Between calls the count is below the threshold, it is zero exactly when no first failure is
      recorded, and it is the length of a suffix of failures that starts at the recorded time. */
  lemma {:induction false} CounterInvariant(p: GuardPolicy, obs: seq<Obs>)
    requires p.threshold > 0 && PositiveTimes(obs)
    ensures var c := Tally(p, obs);
            && 0 <= c.count < p.threshold
            && (c.count == 0 <==> c.firstFailure == 0)
            && c.count <= |obs|
            && AllFailed(obs, |obs| - c.count, |obs|)
            && (c.count > 0 ==> c.firstFailure == obs[|obs| - c.count].at)
            && c.firstFailure >= 0
            && c.lastFailure == (if obs != [] && Last(obs).failed then Last(obs).at else 0)
  {
    if obs != [] && Last(obs).failed {
      CounterInvariant(p, Front(obs));
    }
  }

  /** Every crossing is witnessed by exactly `threshold` contiguous failures ending in it, and with
      a window the first and the last of them lie within one window of each other. */
  lemma {:induction false} CrossingWitnessed(p: GuardPolicy, obs: seq<Obs>, i: nat)
    requires p.threshold > 0 && PositiveTimes(obs) && i < |obs| && Crossing(p, obs[..i + 1])
    ensures var j := i + 1 - p.threshold;
            && 0 <= j <= i
            && AllFailed(obs, j, i + 1)
            && (p.window > 0 ==> obs[i].at - obs[j].at <= p.window)
  {
    var h := obs[..i];
    assert Front(obs[..i + 1]) == h;
    CounterInvariant(p, h);
    assert forall k :: |h| - Tally(p, h).count <= k < |h| ==> obs[k] == h[k];
  }

  // ---------------------------------------------------------------------------
  // No window: the closed form
  // ---------------------------------------------------------------------------

  /** Lengths of the maximal failure streaks, split at the successes; the last is the trailing one. */
  function Streaks(obs: seq<Obs>): (r: seq<nat>)
    ensures r != []
  {
    if obs == [] then [0]
    else
      var before := Streaks(Front(obs));
      if Last(obs).failed then Front(before) + [Last(before) + 1] else before + [0]
  }

  function SumOfQuotients(lengths: seq<nat>, t: int): nat
    requires t > 0
  {
    if lengths == [] then 0 else SumOfQuotients(Front(lengths), t) + Last(lengths) / t
  }

  lemma MultipleAtLeast(t: int, d: int)
    requires t > 0 && d >= 1
    ensures t * d >= t
  {
    assert t * (d - 1) >= 0;
  }

  lemma QuotientUnique(n: int, t: int, q: int, r: int)
    requires t > 0 && 0 <= r < t && n == t * q + r
    ensures n / t == q && n % t == r
  {
    var q', r' := n / t, n % t;
    var d := q' - q;
    assert t * d == r - r' && t * (-d) == r' - r by {
      assert n == t * q' + r' && t * q' - t * q == t * d;
    }
    if d >= 1 {
      MultipleAtLeast(t, d);
    } else if d <= -1 {
      MultipleAtLeast(t, -d);
    }
  }

  lemma QuotientStep(n: nat, t: int)
    requires t > 0
    ensures n % t == t - 1 ==> (n + 1) / t == n / t + 1 && (n + 1) % t == 0
    ensures n % t != t - 1 ==> (n + 1) / t == n / t && (n + 1) % t == n % t + 1
  {
    var q, r := n / t, n % t;
    if r == t - 1 {
      assert n + 1 == t * (q + 1) + 0;
      QuotientUnique(n + 1, t, q + 1, 0);
    } else {
      assert n + 1 == t * q + (r + 1);
      QuotientUnique(n + 1, t, q, r + 1);
    }
  }

  lemma SumOfSnoc(lengths: seq<nat>, x: nat, t: int)
    requires t > 0
    ensures SumOfQuotients(lengths + [x], t) == SumOfQuotients(lengths, t) + x / t
  {
    FrontOfSnoc(lengths, x);
  }

  lemma SumOfBump(lengths: seq<nat>, t: int)
    requires t > 0 && lengths != []
    ensures SumOfQuotients(Front(lengths) + [Last(lengths) + 1], t)
         == SumOfQuotients(Front(lengths), t) + (Last(lengths) + 1) / t
  {
    SumOfSnoc(Front(lengths), Last(lengths) + 1, t);
  }

  /** Without a window the count is the trailing streak modulo the threshold, and the crossings are
      the whole multiples of the threshold contained in the maximal streaks. */
  lemma {:induction false} UnwindowedClosedForm(p: GuardPolicy, obs: seq<Obs>)
    requires p.threshold > 0 && p.window <= 0 && PositiveTimes(obs)
    ensures Tally(p, obs).count == Last(Streaks(obs)) % p.threshold
    ensures Crossings(p, obs) == SumOfQuotients(Streaks(obs), p.threshold)
  {
    var t := p.threshold;
    if obs == [] {
      SumOfSnoc([], 0, t);
      assert [] + [0] == [0];
      QuotientUnique(0, t, 0, 0);
    } else {
      UnwindowedClosedForm(p, Front(obs));
      var before := Streaks(Front(obs));
      if Last(obs).failed {
        SumOfBump(before, t);
        UnwindowedStep(p, Tally(p, Front(obs)), Last(obs).at, Last(before));
      } else {
        SumOfSnoc(before, 0, t);
        QuotientUnique(0, t, 0, 0);
      }
    }
  }

  lemma UnwindowedStep(p: GuardPolicy, c: Counter, now: Time, n: nat)
    requires p.threshold > 0 && p.window <= 0 && c.count == n % p.threshold
    ensures AfterFailure(p, c, now).count == (n + 1) % p.threshold
    ensures (n + 1) / p.threshold == n / p.threshold + if Crosses(p, c, now) then 1 else 0
  {
    QuotientStep(n, p.threshold);
  }

  // ---------------------------------------------------------------------------
  // With a window: how many failures guarantee a crossing
  // ---------------------------------------------------------------------------

  /** The run obs[a..a+n] consists of failures in time order that span at most one window. */
  predicate TightRun(p: GuardPolicy, obs: seq<Obs>, a: nat, n: nat)
    requires a + n <= |obs|
  {
    && AllFailed(obs, a, a + n)
    && (forall i, j :: a <= i <= j < a + n ==> 0 <= obs[j].at - obs[i].at <= p.window)
  }

  predicate NoCrossingIn(p: GuardPolicy, obs: seq<Obs>, a: nat, n: nat)
    requires a + n <= |obs|
  {
    forall k :: a < k <= a + n ==> !Crossing(p, obs[..k])
  }

  /** A run by itself: the times of its failures, and the counters before the first and after each. */
  predicate Trace(p: GuardPolicy, ts: seq<Time>, cs: seq<Counter>) {
    && p.threshold > 0 && p.window > 0 && |cs| == |ts| + 1
    && (forall i :: 0 <= i < |ts| ==> ts[i] > 0)
    && (forall i, j :: 0 <= i <= j < |ts| ==> 0 <= ts[j] - ts[i] <= p.window)
    && (forall i :: 0 <= i < |cs| ==> 0 <= cs[i].count < p.threshold && 0 <= cs[i].firstFailure)
    && (forall i :: 0 <= i < |cs| ==> (cs[i].count == 0 <==> cs[i].firstFailure == 0))
    && (forall i :: 0 <= i < |ts| ==> cs[i + 1] == AfterFailure(p, cs[i], ts[i]))
  }

  predicate NoneCross(p: GuardPolicy, ts: seq<Time>, cs: seq<Counter>)
    requires |cs| == |ts| + 1
  {
    forall i :: 0 <= i < |ts| ==> !Crosses(p, cs[i], ts[i])
  }

  function Times(obs: seq<Obs>, a: nat, n: nat): seq<Time>
    requires a + n <= |obs|
  {
    seq(n, i requires 0 <= i < n => obs[a + i].at)
  }

  function Counters(p: GuardPolicy, obs: seq<Obs>, a: nat, n: nat): seq<Counter>
    requires a + n <= |obs|
  {
    seq(n + 1, i requires 0 <= i <= n => Tally(p, obs[..a + i]))
  }

  /** How one failure at position k - 1 moves the counter. */
  lemma TallyStep(p: GuardPolicy, obs: seq<Obs>, k: nat)
    requires 0 < k <= |obs| && obs[k - 1].failed
    ensures Tally(p, obs[..k]) == AfterFailure(p, Tally(p, obs[..k - 1]), obs[k - 1].at)
    ensures Crossing(p, obs[..k]) <==> Crosses(p, Tally(p, obs[..k - 1]), obs[k - 1].at)
  {
    assert Front(obs[..k]) == obs[..k - 1] && Last(obs[..k]) == obs[k - 1];
  }

  lemma CounterBounds(p: GuardPolicy, obs: seq<Obs>)
    requires p.threshold > 0 && PositiveTimes(obs)
    ensures 0 <= Tally(p, obs).count < p.threshold && 0 <= Tally(p, obs).firstFailure
    ensures Tally(p, obs).count == 0 <==> Tally(p, obs).firstFailure == 0
  {
    CounterInvariant(p, obs);
  }

  lemma RunBounds(p: GuardPolicy, obs: seq<Obs>, a: nat, n: nat)
    requires p.threshold > 0 && PositiveTimes(obs) && a + n <= |obs|
    ensures forall i :: 0 <= i <= n ==>
      var c := Counters(p, obs, a, n)[i];
      0 <= c.count < p.threshold && 0 <= c.firstFailure && (c.count == 0 <==> c.firstFailure == 0)
  {
    forall i | 0 <= i <= n
      ensures var c := Counters(p, obs, a, n)[i];
              0 <= c.count < p.threshold && 0 <= c.firstFailure && (c.count == 0 <==> c.firstFailure == 0)
    {
      CounterBounds(p, obs[..a + i]);
    }
  }

  lemma RunSteps(p: GuardPolicy, obs: seq<Obs>, a: nat, n: nat)
    requires a + n <= |obs| && AllFailed(obs, a, a + n)
    ensures forall i :: 0 <= i < n ==>
      Counters(p, obs, a, n)[i + 1] == AfterFailure(p, Counters(p, obs, a, n)[i], Times(obs, a, n)[i])
  {
    forall i | 0 <= i < n
      ensures Counters(p, obs, a, n)[i + 1] == AfterFailure(p, Counters(p, obs, a, n)[i], Times(obs, a, n)[i])
    {
      TallyStep(p, obs, a + (i + 1));
      assert a + (i + 1) - 1 == a + i;
    }
  }

  /** A tight run of a history is such a trace, whatever preceded it. */
  lemma RunIsTrace(p: GuardPolicy, obs: seq<Obs>, a: nat, n: nat)
    requires p.threshold > 0 && p.window > 0 && PositiveTimes(obs) && a + n <= |obs| && TightRun(p, obs, a, n)
    ensures Trace(p, Times(obs, a, n), Counters(p, obs, a, n))
    ensures NoneCross(p, Times(obs, a, n), Counters(p, obs, a, n)) <==> NoCrossingIn(p, obs, a, n)
  {
    RunBounds(p, obs, a, n);
    RunSteps(p, obs, a, n);
    CrossingsOfRun(p, obs, a, n);
  }

  lemma CrossingsOfRun(p: GuardPolicy, obs: seq<Obs>, a: nat, n: nat)
    requires a + n <= |obs| && AllFailed(obs, a, a + n)
    ensures NoneCross(p, Times(obs, a, n), Counters(p, obs, a, n)) <==> NoCrossingIn(p, obs, a, n)
  {
    var ts, cs := Times(obs, a, n), Counters(p, obs, a, n);
    forall k | a < k <= a + n ensures Crossing(p, obs[..k]) <==> Crosses(p, cs[k - 1 - a], ts[k - 1 - a]) {
      TallyStep(p, obs, k);
    }
    if i :| 0 <= i < n && Crosses(p, cs[i], ts[i]) {
      assert Crossing(p, obs[..a + i + 1]);
    }
  }

  /** While no crossing happens, the counter either still extends the anchor it had before the run,
      or is anchored at one of the first threshold - 1 failures of the run. */
  ghost predicate Anchored(p: GuardPolicy, ts: seq<Time>, cs: seq<Counter>, k: nat)
    requires k <= |ts| && |cs| == |ts| + 1
  {
    || (cs[k].count == cs[0].count + k && cs[k].firstFailure == cs[0].firstFailure && (cs[0].count == 0 ==> k == 0))
    || (exists m :: 0 <= m < k && m <= Max(0, p.threshold - 2)
         && ts[m] == cs[k].firstFailure && cs[k].count == k - m)
  }

  lemma {:induction false} AnchoredThroughRun(p: GuardPolicy, ts: seq<Time>, cs: seq<Counter>, k: nat)
    requires Trace(p, ts, cs) && NoneCross(p, ts, cs) && k <= |ts|
    ensures Anchored(p, ts, cs, k)
  {
    if k > 0 {
      AnchoredThroughRun(p, ts, cs, k - 1);
      assert !Crosses(p, cs[k - 1], ts[k - 1]);
      if cs[k - 1].firstFailure == 0 || ts[k - 1] - cs[k - 1].firstFailure > p.window {
        assert k - 1 <= Max(0, p.threshold - 2);
      }
    }
  }

  /** Any max(T, 2T-2) consecutive failures inside one window contain a crossing, whatever preceded
      them. The window is anchored at the first counted failure and does not slide, so T failures
      are not always enough (see CompletenessBoundTight and RollingIff). */
  lemma WindowedCompleteness(p: GuardPolicy, obs: seq<Obs>, a: nat, n: nat)
    requires p.threshold > 0 && p.window > 0 && PositiveTimes(obs) && a + n <= |obs|
    requires n >= Max(p.threshold, 2 * p.threshold - 2) && TightRun(p, obs, a, n)
    ensures exists k :: a < k <= a + n && Crossing(p, obs[..k])
  {
    RunIsTrace(p, obs, a, n);
    if NoCrossingIn(p, obs, a, n) {
      AnchoredThroughRun(p, Times(obs, a, n), Counters(p, obs, a, n), n);
    }
  }

  // ---------------------------------------------------------------------------
  // Rolling or anchored: exactly when T failures inside one window are enough
  // ---------------------------------------------------------------------------

  /** What a caller can read off the counter before a run of T failures: it is clear, or its window has
      run out when the run starts, or it lasts until the failures that are missing have come. */
  predicate EnoughAhead(p: GuardPolicy, c: Counter, ts: seq<Time>)
    requires 0 <= c.count < p.threshold <= |ts|
  {
    || c.count == 0
    || ts[0] - c.firstFailure > p.window
    || ts[p.threshold - 1 - c.count] - c.firstFailure <= p.window
  }

  /** From a clear or run-out counter, a run without crossing counts itself. */
  lemma {:induction false} CountsAfresh(p: GuardPolicy, ts: seq<Time>, cs: seq<Counter>, k: nat)
    requires Trace(p, ts, cs) && NoneCross(p, ts, cs) && 0 < k <= |ts|
    requires cs[0].count == 0 || ts[0] - cs[0].firstFailure > p.window
    ensures cs[k].count == k && cs[k].firstFailure == ts[0]
  {
    assert cs[k - 1 + 1] == AfterFailure(p, cs[k - 1], ts[k - 1]) && !Crosses(p, cs[k - 1], ts[k - 1]);
    if k > 1 {
      CountsAfresh(p, ts, cs, k - 1);
      assert 0 <= ts[k - 1] - ts[0] <= p.window;
    }
  }

  /** While its window lasts, the counter a run started from keeps counting. */
  lemma {:induction false} CountsOn(p: GuardPolicy, ts: seq<Time>, cs: seq<Counter>, k: nat)
    requires Trace(p, ts, cs) && NoneCross(p, ts, cs) && 0 < k <= |ts|
    requires cs[0].count > 0 && ts[k - 1] - cs[0].firstFailure <= p.window
    ensures cs[k].count == cs[0].count + k && cs[k].firstFailure == cs[0].firstFailure
  {
    assert cs[k - 1 + 1] == AfterFailure(p, cs[k - 1], ts[k - 1]) && !Crosses(p, cs[k - 1], ts[k - 1]);
    if k > 1 {
      assert 0 <= ts[k - 1] - ts[k - 2];
      CountsOn(p, ts, cs, k - 1);
    }
  }

  /** After k failures the counter continues its old window, still short of the threshold, or was
      started over by a failure of the run other than its first. */
  predicate Short(p: GuardPolicy, ts: seq<Time>, cs: seq<Counter>, k: nat)
    requires k <= |ts| && |cs| == |ts| + 1
  {
    || (cs[k].count == cs[0].count + k && cs[k].firstFailure == cs[0].firstFailure
        && (k > 0 ==> ts[k - 1] - cs[0].firstFailure <= p.window))
    || (k > 0 && 0 < cs[k].count <= k - 1 && ts[0] <= cs[k].firstFailure <= ts[k - 1])
  }

  lemma {:induction false} StartedOverInside(p: GuardPolicy, ts: seq<Time>, cs: seq<Counter>, k: nat)
    requires Trace(p, ts, cs) && |ts| == p.threshold && !EnoughAhead(p, cs[0], ts) && k <= |ts|
    ensures Short(p, ts, cs, k)
    ensures forall i :: 0 <= i < k ==> !Crosses(p, cs[i], ts[i])
  {
    if k > 0 {
      StartedOverInside(p, ts, cs, k - 1);
      assert cs[k - 1 + 1] == AfterFailure(p, cs[k - 1], ts[k - 1]);
      assert 0 <= ts[k - 1] - ts[0] <= p.window;
      assert k > 1 ==> 0 <= ts[k - 1] - ts[k - 2];
      var due := p.threshold - 1 - cs[0].count;
      assert due <= k - 1 ==> ts[due] <= ts[k - 1];
    }
  }

  /** The policy's field is documented as a rolling window; it is anchored. T consecutive failures inside
      one window contain a crossing if and only if the counter they start from is clear, has run out, or
      lasts until they complete it. */
  lemma RollingIff(p: GuardPolicy, obs: seq<Obs>, a: nat)
    requires p.threshold > 0 && p.window > 0 && PositiveTimes(obs) && a + p.threshold <= |obs|
    requires TightRun(p, obs, a, p.threshold)
    ensures 0 <= Tally(p, obs[..a]).count < p.threshold
    ensures !NoCrossingIn(p, obs, a, p.threshold)
            <==> EnoughAhead(p, Tally(p, obs[..a]), Times(obs, a, p.threshold))
  {
    var t := p.threshold;
    var ts, cs := Times(obs, a, t), Counters(p, obs, a, t);
    RunIsTrace(p, obs, a, t);
    assert cs[0] == Tally(p, obs[..a]);
    if !EnoughAhead(p, cs[0], ts) {
      StartedOverInside(p, ts, cs, t);
    } else if NoneCross(p, ts, cs) {
      if cs[0].count == 0 || ts[0] - cs[0].firstFailure > p.window {
        CountsAfresh(p, ts, cs, t);
      } else {
        CountsOn(p, ts, cs, t - cs[0].count);
      }
    }
  }

  /** One early failure, T-2 failures a whole window later, and T-1 more one tick after those. */
  function LateRun(t: nat, w: Duration): seq<Obs>
    requires t >= 2
  {
    [Obs(1, true)] + seq(t - 2, i => Obs(w + 1, true)) + seq(t - 1, i => Obs(w + 2, true))
  }

  lemma {:induction false} LateRunTally(p: GuardPolicy, k: nat)
    requires p.threshold >= 2 && p.window > 0 && 1 <= k <= 2 * p.threshold - 2
    ensures var t, obs := p.threshold, LateRun(p.threshold, p.window);
            && Tally(p, obs[..k]).count == (if k < t then k else k + 1 - t)
            && Tally(p, obs[..k]).firstFailure == (if k < t then 1 else p.window + 2)
            && !Crossing(p, obs[..k])
  {
    var obs := LateRun(p.threshold, p.window);
    assert Front(obs[..k]) == obs[..k - 1] && Last(obs[..k]) == obs[k - 1];
    if k > 1 {
      LateRunTally(p, k - 1);
    } else {
      assert obs[..0] == [];
    }
  }

  /** One failure fewer is not enough: for every threshold T >= 2 and every window there is a history
      that ends in 2T-3 failures inside one window, none of which is a crossing. */
  lemma CompletenessBoundTight(p: GuardPolicy)
    requires p.threshold >= 2 && p.window > 0
    ensures var obs, n := LateRun(p.threshold, p.window), 2 * p.threshold - 3;
            && |obs| == 1 + n && PositiveTimes(obs)
            && TightRun(p, obs, 1, n) && NoCrossingIn(p, obs, 1, n)
            && n == Max(p.threshold, 2 * p.threshold - 2) - 1
  {
    var n := 2 * p.threshold - 3;
    var obs := LateRun(p.threshold, p.window);
    forall k | 1 < k <= 1 + n ensures !Crossing(p, obs[..k]) {
      LateRunTally(p, k);
    }
  }

  /** What a rolling window promises: any T consecutive failures inside one window contain a crossing. */
  ghost predicate Rolling(p: GuardPolicy)
    requires p.threshold > 0
  {
    forall obs, a: nat :: PositiveTimes(obs) && a + p.threshold <= |obs| && TightRun(p, obs, a, p.threshold)
      ==> !NoCrossingIn(p, obs, a, p.threshold)
  }

  /** The promise is kept in all histories by the policies with a threshold of one or two, and by no
      other policy: from three on LateRun breaks it. */
  lemma RollingUpToTwo(p: GuardPolicy)
    requires p.threshold > 0 && p.window > 0
    ensures Rolling(p) <==> p.threshold <= 2
  {
    if p.threshold <= 2 {
      forall obs, a: nat | PositiveTimes(obs) && a + p.threshold <= |obs| && TightRun(p, obs, a, p.threshold)
        ensures !NoCrossingIn(p, obs, a, p.threshold)
      {
        WindowedCompleteness(p, obs, a, p.threshold);
      }
    } else {
      CompletenessBoundTight(p);
      var obs := LateRun(p.threshold, p.window);
      assert TightRun(p, obs, 1, p.threshold) && NoCrossingIn(p, obs, 1, p.threshold);
    }
  }
}
