/** What a policy manager has been through, and what that history says about its cache, its pending
    actions and the lookups it may attempt. Nothing here mentions the manager's fields. */
module History {
  import opened Basics
  import opened Policy
  import opened GuardRail

  /** What one call of the manager's lookup delivered to its caller. */
  datatype Reply = Answer(addrs: seq<Addr>, ttl: Duration, took: Duration) | Failure(err: Error)

  /** Resolved: one resolve in a caching mode, at the clock reading it used; no reply means that no
      lookup was attempted. Consumed: one request prepared without error. Observed: one outcome. */
  datatype Event = Resolved(at: Time, reply: Option<Reply>) | Consumed | Observed(obs: Obs)

  type Hist = seq<Event>

  datatype Good = Good(at: Time, addrs: seq<Addr>, ttl: Duration)

  predicate Caching(m: Mode) { m == SingleLookup || m == TTL || m == Cadence }

  predicate Refreshing(m: Mode) { m == TTL || m == Cadence }

  predicate IsGood(e: Event) { e.Resolved? && e.reply.Some? && e.reply.value.Answer? }

  function AsGood(e: Event): Good
    requires IsGood(e)
  {
    Good(e.at, e.reply.value.addrs, e.reply.value.ttl)
  }

  /** The most recent successful lookup. */
  function LastGood(h: Hist): Option<Good> {
    if h == [] then None
    else if IsGood(Last(h)) then Some(AsGood(Last(h)))
    else LastGood(Front(h))
  }

  /** The oldest successful lookup. */
  function FirstGood(h: Hist): Option<Good> {
    if h == [] then None
    else if IsGood(h[0]) then Some(AsGood(h[0]))
    else FirstGood(h[1..])
  }

  function Observations(h: Hist): seq<Obs> {
    if h == [] then []
    else Observations(Front(h)) + if Last(h).Observed? then [Last(h).obs] else []
  }

  /** The last event of the history crosses the guard rail's threshold. */
  predicate CrossesNow(p: DnsPolicy, h: Hist) {
    p.guard.Enabled() && h != [] && Last(h).Observed? && Crossing(p.guard, Observations(h))
  }

  predicate ForcesNow(p: DnsPolicy, h: Hist) { CrossesNow(p, h) && p.guard.action == ForceLookup }

  /** A forced lookup is owed: some ForceLookup crossing has not been followed by a resolve that
      takes the flag, which the refreshing modes' resolves do. */
  predicate ForcePending(p: DnsPolicy, h: Hist) {
    h != [] && (ForcesNow(p, h) || (!(Last(h).Resolved? && Refreshing(p.mode)) && ForcePending(p, Front(h))))
  }

  /** Some crossing has not been followed by a request prepared without error. */
  predicate TriggerPending(p: DnsPolicy, h: Hist) {
    h != [] && (CrossesNow(p, h) || (!Last(h).Consumed? && TriggerPending(p, Front(h))))
  }

  function CounterOf(p: DnsPolicy, h: Hist): Counter {
    if p.guard.Enabled() then Tally(p.guard, Observations(h)) else CLEAR
  }

  /** When an answer runs out; 0 if it never does. */
  function Expiry(p: DnsPolicy, g: Good): Time {
    match p.mode
    case TTL => g.at + p.Lifetime(g.ttl)
    case Cadence => g.at + p.cadence
    case _ => 0
  }

  predicate Expired(p: DnsPolicy, g: Good, now: Time) { Expiry(p, g) != 0 && now > Expiry(p, g) }

  /** The reference rule: no lookup ever succeeded, the last answer ran out, or a force is owed. */
  predicate NeedsLookup(p: DnsPolicy, h: Hist, now: Time) {
    || LastGood(h).None?
    || Expired(p, LastGood(h).value, now)
    || (Refreshing(p.mode) && ForcePending(p, h))
  }

  predicate LegalStep(p: DnsPolicy, h: Hist, e: Event) {
    match e
    case Consumed => true
    case Observed(o) => o.at > 0
    case Resolved(at, reply) =>
      && at > 0 && Caching(p.mode)
      && (reply.Some? <==> NeedsLookup(p, h, at))
      && (IsGood(e) ==> AsGood(e).addrs != [])
  }

  /** A history whose lookups follow the reference rule throughout. */
  predicate Legal(p: DnsPolicy, h: Hist) {
    h == [] || (Legal(p, Front(h)) && LegalStep(p, Front(h), Last(h)))
  }

  // ---------------------------------------------------------------------------
  // Basic facts
  // ---------------------------------------------------------------------------

  lemma {:induction false} LegalPrefix(p: DnsPolicy, h: Hist, n: nat)
    requires Legal(p, h) && n <= |h|
    ensures Legal(p, h[..n])
    ensures n < |h| ==> LegalStep(p, h[..n], h[n])
    decreases |h|
  {
    if n < |h| {
      if n < |h| - 1 {
        LegalPrefix(p, Front(h), n);
        assert Front(h)[..n] == h[..n];
      }
    } else {
      assert h[..n] == h;
    }
  }

  lemma {:induction false} LastGoodLegal(p: DnsPolicy, h: Hist)
    requires Legal(p, h) && LastGood(h).Some?
    ensures LastGood(h).value.addrs != [] && LastGood(h).value.at > 0 && Caching(p.mode)
  {
    if !IsGood(Last(h)) {
      LastGoodLegal(p, Front(h));
    }
  }

  lemma {:induction false} ObservationsPositive(p: DnsPolicy, h: Hist)
    requires Legal(p, h)
    ensures PositiveTimes(Observations(h))
  {
    if h != [] {
      ObservationsPositive(p, Front(h));
    }
  }

  // ---------------------------------------------------------------------------
  // One event more
  // ---------------------------------------------------------------------------

  /** A failure reported at `at` would make the guard rail force a lookup. */
  predicate WouldForce(p: DnsPolicy, h: Hist, at: Time) {
    p.guard.Enabled() && p.guard.action == ForceLookup && Crosses(p.guard, CounterOf(p, h), at)
  }

  lemma ResolvedSnoc(p: DnsPolicy, h: Hist, at: Time, reply: Option<Reply>)
    ensures var e, h' := Resolved(at, reply), h + [Resolved(at, reply)];
            && (Legal(p, h') <==> Legal(p, h) && LegalStep(p, h, e))
            && LastGood(h') == (if IsGood(e) then Some(AsGood(e)) else LastGood(h))
            && CounterOf(p, h') == CounterOf(p, h)
            && (ForcePending(p, h') <==> ForcePending(p, h) && !Refreshing(p.mode))
  {
    FrontOfSnoc(h, Resolved(at, reply));
    assert Observations(h) + [] == Observations(h);
  }

  lemma ConsumedSnoc(p: DnsPolicy, h: Hist)
    ensures var h' := h + [Consumed];
            && (Legal(p, h') <==> Legal(p, h)) && LastGood(h') == LastGood(h)
            && CounterOf(p, h') == CounterOf(p, h)
            && (ForcePending(p, h') <==> ForcePending(p, h))
  {
    FrontOfSnoc(h, Consumed);
    assert Observations(h) + [] == Observations(h);
  }

  lemma ObservedSnoc(p: DnsPolicy, h: Hist, o: Obs)
    ensures var h' := h + [Observed(o)];
            && (Legal(p, h') <==> Legal(p, h) && o.at > 0) && LastGood(h') == LastGood(h)
            && (p.guard.Enabled() ==>
                 CounterOf(p, h') == if o.failed then AfterFailure(p.guard, CounterOf(p, h), o.at) else CLEAR)
            && (ForcePending(p, h') <==> ForcePending(p, h) || (o.failed && WouldForce(p, h, o.at)))
  {
    FrontOfSnoc(h, Observed(o));
    FrontOfSnoc(Observations(h), o);
  }

  // ---------------------------------------------------------------------------
  // Serving from the cache
  // ---------------------------------------------------------------------------

  /** Event i is a lookup that brought these addresses, and no later one brought any. */
  predicate LastAt(h: Hist, i: int, g: Good) {
    && 0 <= i < |h| && h[i].Resolved? && h[i].reply.Some? && h[i].reply.value.Answer?
    && g == Good(h[i].at, h[i].reply.value.addrs, h[i].reply.value.ttl)
    && forall j :: i < j < |h| && h[j].Resolved? && h[j].reply.Some? ==> h[j].reply.value.Failure?
  }

  /** The last answer is the most recent one. */
  lemma {:induction false} LastGoodIff(h: Hist, g: Good)
    ensures LastGood(h) == Some(g) <==> exists i :: LastAt(h, i, g)
  {
    if h != [] {
      var f := Front(h);
      LastGoodIff(f, g);
      if IsGood(Last(h)) {
        if i :| LastAt(h, i, g) {
          assert i == |h| - 1;
        }
        assert AsGood(Last(h)) == g ==> LastAt(h, |h| - 1, g);
      } else {
        forall i ensures LastAt(h, i, g) <==> LastAt(f, i, g) {
          assert LastAt(f, i, g) ==> forall j :: i < j < |h| - 1 ==> h[j] == f[j];
        }
      }
    }
  }

  /** When the answer at hand has to be looked up again, by the policy's own fields: in TTL mode after its
      TTL, or TTLMin for one that is shorter or not positive, or TTLMax for one that is longer; in cadence
      mode after the cadence; with single lookup never. */
  lemma NextLookupIff(p: DnsPolicy, h: Hist, now: Time)
    requires Legal(p, h) && p.Valid() && LastGood(h).Some? && !ForcePending(p, h)
    ensures var g := LastGood(h).value;
            && (p.mode == SingleLookup ==> !NeedsLookup(p, h, now))
            && (p.mode == Cadence ==> (NeedsLookup(p, h, now) <==> now > g.at + p.cadence))
            && (p.mode == TTL && (g.ttl <= 0 || g.ttl <= p.ttlMin) ==>
                 (NeedsLookup(p, h, now) <==> now > g.at && now > g.at + p.ttlMin))
            && (p.mode == TTL && p.ttlMax > 0 && g.ttl >= p.ttlMax ==>
                 (NeedsLookup(p, h, now) <==> now > g.at + p.ttlMax))
            && (p.mode == TTL && g.ttl > 0 && g.ttl >= p.ttlMin && (p.ttlMax <= 0 || g.ttl <= p.ttlMax) ==>
                 (NeedsLookup(p, h, now) <==> now > g.at + g.ttl))
  {
    LastGoodLegal(p, h);
  }

  /** Whatever is at hand: a lookup is due before the first answer, and when a force is owed in a refreshing
      mode. */
  lemma DueAnyway(p: DnsPolicy, h: Hist, now: Time)
    requires LastGood(h).None? || (ForcePending(p, h) && (p.mode == TTL || p.mode == Cadence))
    ensures NeedsLookup(p, h, now)
  {
  }

  /** A resolve that attempts no lookup uses an answer that has not run out; in TTL mode with TTLMax
      set its age is at most TTLMax. */
  lemma ServedFresh(p: DnsPolicy, h: Hist, i: nat)
    requires Legal(p, h) && i < |h| && h[i].Resolved? && h[i].reply.None?
    ensures LastGood(h[..i]).Some?
    ensures var g := LastGood(h[..i]).value;
            && (p.mode == TTL ==> h[i].at <= g.at + p.Lifetime(g.ttl))
            && (p.mode == TTL && p.ttlMax > 0 && p.Valid() ==> h[i].at - g.at <= p.ttlMax)
            && (p.mode == Cadence && p.Valid() ==> h[i].at <= g.at + p.cadence)
  {
    LegalPrefix(p, h, i);
    LastGoodLegal(p, h[..i]);
  }

  /** A TTL of zero or less is documented to make the next request resolve again. It does so at every
      later time exactly when TTLMin does not stretch it (or a force is owed anyway), and never at the
      very time of the lookup. */
  lemma ZeroTTLExpiresIff(p: DnsPolicy, h: Hist)
    requires Legal(p, h) && p.mode == TTL && LastGood(h).Some? && LastGood(h).value.ttl <= 0
    ensures (forall now :: now > LastGood(h).value.at ==> NeedsLookup(p, h, now))
            <==> p.ttlMin <= 0 || ForcePending(p, h)
    ensures NeedsLookup(p, h, LastGood(h).value.at) <==> ForcePending(p, h)
  {
    LastGoodLegal(p, h);
    if p.ttlMin > 0 && !ForcePending(p, h) {
      assert !NeedsLookup(p, h, LastGood(h).value.at + p.ttlMin);
    }
  }

  /** Single lookup: the first success is the last, and nothing is looked up after it. */
  lemma {:induction false} SingleLookupForever(p: DnsPolicy, h: Hist, i: nat, j: nat)
    requires Legal(p, h) && p.mode == SingleLookup && i < j <= |h| && IsGood(h[i])
    ensures LastGood(h[..j]) == Some(AsGood(h[i]))
    ensures j < |h| && h[j].Resolved? ==> h[j].reply.None?
    decreases j
  {
    assert Front(h[..j]) == h[..j - 1] && Last(h[..j]) == h[j - 1];
    if i < j - 1 {
      SingleLookupForever(p, h, i, j - 1);
    }
    LegalPrefix(p, h, j);
  }

  // ---------------------------------------------------------------------------
  // Forced lookups
  // ---------------------------------------------------------------------------

  /** Which guard rails act, by the policy's own fields: with a positive threshold and an action a crossing
      calls for a flush, and for a lookup too if the action is ForceLookup. */
  lemma CrossingActs(p: DnsPolicy, h: Hist)
    requires p.guard.threshold > 0 && p.guard.action != NoAction
    requires h != [] && Last(h).Observed? && Crossing(p.guard, Observations(h))
    ensures TriggerPending(p, h) && (p.guard.action == ForceLookup ==> ForcePending(p, h))
  {
  }

  /** Otherwise nothing is ever pending; and only ForceLookup forces. */
  lemma {:induction false} NothingActs(p: DnsPolicy, h: Hist)
    ensures p.guard.threshold <= 0 || p.guard.action == NoAction ==> !TriggerPending(p, h) && !ForcePending(p, h)
    ensures p.guard.action != ForceLookup ==> !ForcePending(p, h)
  {
    if h != [] {
      NothingActs(p, Front(h));
    }
  }

  /** A guard rail that acts counts all results; any other never counts. */
  lemma CounterOfIs(p: DnsPolicy, h: Hist)
    ensures p.guard.threshold > 0 && p.guard.action != NoAction ==> CounterOf(p, h) == Tally(p.guard, Observations(h))
    ensures p.guard.threshold <= 0 || p.guard.action == NoAction ==> CounterOf(p, h) == CLEAR
  {
  }

  /** Event i is a ForceLookup crossing that no resolve has followed. */
  predicate ForceAwaits(p: DnsPolicy, h: Hist, i: int) {
    0 <= i < |h| && ForcesNow(p, h[..i + 1]) && forall j :: i < j < |h| ==> !h[j].Resolved?
  }

  /** Event i is a crossing that no request prepared without error has followed. */
  predicate TriggerAwaits(p: DnsPolicy, h: Hist, i: int) {
    0 <= i < |h| && CrossesNow(p, h[..i + 1]) && forall j :: i < j < |h| ==> !h[j].Consumed?
  }

  lemma AwaitsStep(p: DnsPolicy, h: Hist, i: int)
    requires h != [] && i < |h| - 1
    ensures ForceAwaits(p, h, i) <==> ForceAwaits(p, Front(h), i) && !Last(h).Resolved?
    ensures TriggerAwaits(p, h, i) <==> TriggerAwaits(p, Front(h), i) && !Last(h).Consumed?
  {
    if 0 <= i {
      assert Front(h)[..i + 1] == h[..i + 1];
      assert forall j :: i < j < |h| - 1 ==> Front(h)[j] == h[j];
      assert h[|h| - 1] == Last(h);
    }
  }

  lemma AwaitsNow(p: DnsPolicy, h: Hist)
    requires h != []
    ensures ForceAwaits(p, h, |h| - 1) <==> ForcesNow(p, h)
    ensures TriggerAwaits(p, h, |h| - 1) <==> CrossesNow(p, h)
  {
    assert h[..|h| - 1 + 1] == h;
  }

  /** The recursive scan says what it should. */
  lemma {:induction false} ForcePendingIff(p: DnsPolicy, h: Hist)
    requires Refreshing(p.mode)
    ensures ForcePending(p, h) <==> exists i :: ForceAwaits(p, h, i)
  {
    if h != [] {
      ForcePendingIff(p, Front(h));
      AwaitsNow(p, h);
      if i :| ForceAwaits(p, h, i) && i < |h| - 1 {
        AwaitsStep(p, h, i);
      } else if ForcePending(p, h) && !ForcesNow(p, h) {
        var i :| ForceAwaits(p, Front(h), i);
        AwaitsStep(p, h, i);
      }
    }
  }

  lemma {:induction false} TriggerWitness(p: DnsPolicy, h: Hist) returns (i: int)
    requires TriggerPending(p, h)
    ensures TriggerAwaits(p, h, i)
  {
    if CrossesNow(p, h) {
      AwaitsNow(p, h);
      i := |h| - 1;
    } else {
      i := TriggerWitness(p, Front(h));
      AwaitsStep(p, h, i);
    }
  }

  lemma {:induction false} AwaitingTriggerPends(p: DnsPolicy, h: Hist, i: int)
    requires TriggerAwaits(p, h, i)
    ensures TriggerPending(p, h)
    decreases h
  {
    if i == |h| - 1 {
      AwaitsNow(p, h);
    } else {
      AwaitsStep(p, h, i);
      AwaitingTriggerPends(p, Front(h), i);
    }
  }

  lemma TriggerPendingIff(p: DnsPolicy, h: Hist)
    ensures TriggerPending(p, h) <==> exists i :: TriggerAwaits(p, h, i)
  {
    if TriggerPending(p, h) {
      var i := TriggerWitness(p, h);
    } else if i :| TriggerAwaits(p, h, i) {
      AwaitingTriggerPends(p, h, i);
    }
  }

  // ---------------------------------------------------------------------------
  // The lookup budget
  // ---------------------------------------------------------------------------

  function Successes(h: Hist): nat {
    if h == [] then 0 else Successes(Front(h)) + if IsGood(Last(h)) then 1 else 0
  }

  function ForceCrossings(p: DnsPolicy, h: Hist): nat {
    if h == [] then 0 else ForceCrossings(p, Front(h)) + if ForcesNow(p, h) then 1 else 0
  }

  predicate ResolvesInOrder(h: Hist) {
    forall i, j :: 0 <= i < j < |h| && h[i].Resolved? && h[j].Resolved? ==> h[i].at <= h[j].at
  }

  /** How long the policy guarantees an answer to last. */
  function Gap(p: DnsPolicy): Duration {
    if p.mode == Cadence then p.cadence else p.ttlMin
  }

  lemma {:induction false} FirstGoodSnoc(h: Hist)
    requires h != []
    ensures FirstGood(h) == if FirstGood(Front(h)).Some? then FirstGood(Front(h))
                            else if IsGood(Last(h)) then Some(AsGood(Last(h))) else None
  {
    if |h| > 1 {
      FirstGoodSnoc(h[1..]);
      assert Front(h[1..]) == Front(h)[1..];
    }
  }

  lemma {:induction false} GoodWitness(h: Hist)
    ensures LastGood(h).Some? ==> exists i :: 0 <= i < |h| && IsGood(h[i]) && AsGood(h[i]) == LastGood(h).value
  {
    if h != [] && LastGood(h).Some? {
      if IsGood(Last(h)) {
        assert IsGood(h[|h| - 1]);
      } else {
        GoodWitness(Front(h));
        var i :| 0 <= i < |Front(h)| && IsGood(Front(h)[i]) && AsGood(Front(h)[i]) == LastGood(Front(h)).value;
        assert IsGood(h[i]);
      }
    }
  }

  /** Successful lookups beyond the first and the forced ones; an owed force is still unspent. */
  function Unforced(p: DnsPolicy, h: Hist): int {
    Successes(h) - 1 - ForceCrossings(p, h) + if ForcePending(p, h) then 1 else 0
  }

  lemma UnforcedStep(p: DnsPolicy, h: Hist)
    requires h != [] && Refreshing(p.mode)
    ensures !Last(h).Resolved? ==> Unforced(p, h) <= Unforced(p, Front(h))
    ensures Last(h).Resolved? ==>
      Unforced(p, h) == Unforced(p, Front(h)) + (if IsGood(Last(h)) then 1 else 0)
                                              - (if ForcePending(p, Front(h)) then 1 else 0)
  {
  }

  lemma {:induction false} BudgetBasics(p: DnsPolicy, h: Hist)
    ensures LastGood(h).Some? <==> Successes(h) > 0
    ensures FirstGood(h).Some? <==> LastGood(h).Some?
    ensures ForcePending(p, h) ==> ForceCrossings(p, h) > 0
  {
    if h != [] {
      BudgetBasics(p, Front(h));
      FirstGoodSnoc(h);
    }
  }

  /** The budget with the owed force still counted as unspent; this is what each event keeps. */
  lemma {:induction false} BudgetKept(p: DnsPolicy, h: Hist)
    requires Legal(p, h) && p.Valid() && Refreshing(p.mode) && Gap(p) > 0 && ResolvesInOrder(h)
    requires LastGood(h).Some?
    ensures FirstGood(h).Some? && Unforced(p, h) * Gap(p) <= LastGood(h).value.at - FirstGood(h).value.at
  {
    var f, e := Front(h), Last(h);
    BudgetBasics(p, h);
    BudgetBasics(p, f);
    FirstGoodSnoc(h);
    UnforcedStep(p, h);
    Multiples(Unforced(p, f), Unforced(p, h), Gap(p));
    if LastGood(f).Some? {
      BudgetKept(p, f);
      if IsGood(e) {
        GoodWitness(f);
        assert LastGood(f).value.at <= e.at;
      }
    }
  }

  lemma Multiples(n: int, n': int, d: int)
    requires d > 0
    ensures n' <= n ==> n' * d <= n * d
    ensures n' == n + 1 ==> n' * d == n * d + d
    ensures n' == 0 ==> n' * d == 0
    ensures n' < 0 ==> n' * d <= 0
  {
    if n' <= n {
      assert (n - n') * d >= 0;
    }
  }

  /** Over any legal run the successful lookups beyond the first, less the forced ones, are spaced by
      at least the cadence (in TTL mode: by at least TTLMin). */
  lemma LookupBudget(p: DnsPolicy, h: Hist)
    requires Legal(p, h) && p.Valid() && ResolvesInOrder(h) && LastGood(h).Some?
    requires p.mode == Cadence || (p.mode == TTL && p.ttlMin > 0)
    ensures FirstGood(h).Some?
    ensures (Successes(h) - 1 - ForceCrossings(p, h)) * Gap(p)
              <= LastGood(h).value.at - FirstGood(h).value.at
  {
    BudgetKept(p, h);
    Multiples(Unforced(p, h), Successes(h) - 1 - ForceCrossings(p, h), Gap(p));
  }

  // ---------------------------------------------------------------------------
  // One lookup per force
  // ---------------------------------------------------------------------------

  lemma {:induction false} CrossingsGrow(p: DnsPolicy, h: Hist, m: nat, n: nat)
    requires m <= n <= |h|
    ensures ForceCrossings(p, h[..m]) <= ForceCrossings(p, h[..n])
    decreases n
  {
    if m < n {
      assert Front(h[..n]) == h[..n - 1];
      CrossingsGrow(p, h, m, n - 1);
    }
  }

  lemma {:induction false} NoneOwedSince(p: DnsPolicy, h: Hist, j: nat, n: nat)
    requires Refreshing(p.mode) && j < n <= |h| && h[j].Resolved?
    requires ForceCrossings(p, h[..n]) == ForceCrossings(p, h[..j + 1])
    ensures !ForcePending(p, h[..n])
    decreases n
  {
    assert Front(h[..n]) == h[..n - 1] && Last(h[..n]) == h[n - 1];
    if j < n - 1 {
      CrossingsGrow(p, h, j + 1, n - 1);
      NoneOwedSince(p, h, j, n - 1);
    }
  }

  /** When a forced lookup is owed the next resolve attempts one, and no more: until there is another
      ForceLookup crossing every later resolve attempts a lookup only for a reason of its own, even if
      the forced attempt failed. */
  lemma ForcedOnce(p: DnsPolicy, h: Hist, j: nat, k: nat)
    requires Legal(p, h) && Refreshing(p.mode) && j < k < |h| && h[j].Resolved? && h[k].Resolved?
    requires ForcePending(p, h[..j]) && ForceCrossings(p, h[..k]) == ForceCrossings(p, h[..j + 1])
    ensures h[j].reply.Some?
    ensures h[k].reply.Some? <==> LastGood(h[..k]).None? || Expired(p, LastGood(h[..k]).value, h[k].at)
  {
    LegalPrefix(p, h, j);
    LegalPrefix(p, h, k);
    NoneOwedSince(p, h, j, k);
  }

}
