/** Finished calls of an HTTP endpoint, one after another, and what the documentation promises about them:
    for each promise the code does not keep, a run of calls that breaks it and when exactly it is kept. */
module Calls {
  import opened Basics
  import opened Policy
  import opened GuardRail
  import opened History
  import opened Manager

  /** One Execute: the clock at its resolve, what a lookup would bring, the clock at its report, and
      whether its request, if it is sent, gets an answer that is not a failure. */
  datatype Call = Call(now: Time, raw: RawReply, at: Time, good: bool)

  /** The request is sent: its resolve ends in neither an error nor a fallback. */
  predicate Sent(p: DnsPolicy, h: Hist, c: Call) {
    match p.mode
    case Default => true
    case Static => p.staticAddr.Some?
    case Unsupported => false
    case _ => !NeedsLookup(p, h, c.now) || Lookup(c.raw).Answer?
  }

  lemma SentIffForwarded(p: DnsPolicy, h: Hist, c: Call, host: string, port: string)
    requires Legal(p, h)
    ensures Sent(p, h, c) <==> Forwarded(ResolveTold(p, h, host, port, c.now, c.raw))
  {
    if Caching(p.mode) {
      ForwardedIff(p, h, host, port, c.now, c.raw);
    }
  }

  function OutcomeOf(p: DnsPolicy, h: Hist, c: Call): Obs { Obs(c.at, !(Sent(p, h, c) && c.good)) }

  /** The events one call adds to the history. */
  function CallTrail(p: DnsPolicy, h: Hist, c: Call): Hist {
    ResolveTrail(p, h, c.now, c.raw) + (if Sent(p, h, c) then [Consumed] else []) + [Observed(OutcomeOf(p, h, c))]
  }

  /** Each call is reported before the next one resolves. */
  predicate InTurn(calls: seq<Call>) {
    && (forall i :: 0 <= i < |calls| ==> 0 < calls[i].now <= calls[i].at)
    && (forall i, j :: 0 <= i < j < |calls| ==> calls[i].at <= calls[j].now)
  }

  /** What these calls leave on a new endpoint. */
  function HistoryOf(p: DnsPolicy, calls: seq<Call>): Hist {
    if calls == [] then []
    else HistoryOf(p, Front(calls)) + CallTrail(p, HistoryOf(p, Front(calls)), Last(calls))
  }

  /** It looks up, with success. */
  predicate Answered(p: DnsPolicy, h: Hist, c: Call) {
    Caching(p.mode) && NeedsLookup(p, h, c.now) && Lookup(c.raw).Answer?
  }

  /** What a call changes: a lookup that is due and succeeds becomes the last answer, the resolve takes an
      owed force in the refreshing modes, and the outcome counts. */
  predicate Advances(p: DnsPolicy, h: Hist, c: Call, h': Hist) {
    var failed := OutcomeOf(p, h, c).failed;
    && Legal(p, h')
    && LastGood(h') == (if Answered(p, h, c) then Some(Good(c.now, c.raw.addrs, c.raw.ttl)) else LastGood(h))
    && (p.guard.Enabled() ==>
         CounterOf(p, h') == if failed then AfterFailure(p.guard, CounterOf(p, h), c.at) else CLEAR)
    && (ForcePending(p, h') <==>
         (ForcePending(p, h) && !Refreshing(p.mode)) || (failed && WouldForce(p, h, c.at)))
  }

  /** A call up to its report. */
  function Unreported(p: DnsPolicy, h: Hist, c: Call): Hist {
    h + ResolveTrail(p, h, c.now, c.raw) + if Sent(p, h, c) then [Consumed] else []
  }

  lemma ResolveAdvances(p: DnsPolicy, h: Hist, c: Call)
    requires Legal(p, h) && 0 < c.now
    ensures var h' := h + ResolveTrail(p, h, c.now, c.raw);
            && Legal(p, h') && CounterOf(p, h') == CounterOf(p, h)
            && LastGood(h') == (if Answered(p, h, c) then Some(Good(c.now, c.raw.addrs, c.raw.ttl)) else LastGood(h))
            && (ForcePending(p, h') <==> ForcePending(p, h) && !Refreshing(p.mode))
  {
    if Caching(p.mode) {
      ResolvedSnoc(p, h, c.now, Attempt(p, h, c.now, c.raw));
    } else {
      assert h + [] == h;
    }
  }

  lemma PreparationAdvances(p: DnsPolicy, h: Hist, c: Call)
    requires Legal(p, h) && 0 < c.now
    ensures var h' := Unreported(p, h, c);
            && Legal(p, h') && CounterOf(p, h') == CounterOf(p, h)
            && LastGood(h') == (if Answered(p, h, c) then Some(Good(c.now, c.raw.addrs, c.raw.ttl)) else LastGood(h))
            && (ForcePending(p, h') <==> ForcePending(p, h) && !Refreshing(p.mode))
  {
    var h1 := h + ResolveTrail(p, h, c.now, c.raw);
    ResolveAdvances(p, h, c);
    ConsumedSnoc(p, h1);
    assert h1 + [] == h1;
  }

  lemma CallAdvances(p: DnsPolicy, h: Hist, c: Call)
    requires Legal(p, h) && 0 < c.now <= c.at
    ensures Advances(p, h, c, h + CallTrail(p, h, c))
  {
    PreparationAdvances(p, h, c);
    ReportAdvances(p, h, c, Unreported(p, h, c));
    assert h + CallTrail(p, h, c) == Unreported(p, h, c) + [Observed(OutcomeOf(p, h, c))];
  }

  lemma ReportAdvances(p: DnsPolicy, h: Hist, c: Call, before: Hist)
    requires Legal(p, before) && 0 < c.at && CounterOf(p, before) == CounterOf(p, h)
    requires LastGood(before) == if Answered(p, h, c) then Some(Good(c.now, c.raw.addrs, c.raw.ttl)) else LastGood(h)
    requires ForcePending(p, before) <==> ForcePending(p, h) && !Refreshing(p.mode)
    ensures Advances(p, h, c, before + [Observed(OutcomeOf(p, h, c))])
  {
    ObservedSnoc(p, before, OutcomeOf(p, h, c));
  }

  /** Such histories are legal, so everything that holds of legal histories holds of every run of calls. */
  lemma {:induction false} CallsAreLegal(p: DnsPolicy, calls: seq<Call>)
    requires InTurn(calls)
    ensures Legal(p, HistoryOf(p, calls))
  {
    if calls != [] {
      CallsAreLegal(p, Front(calls));
      CallAdvances(p, HistoryOf(p, Front(calls)), Last(calls));
    }
  }

  /** The same events, as they come up in the course of a call. */
  lemma CallIs(p: DnsPolicy, h: Hist, c: Call, host: string, port: string, failed: bool, before: Hist, after: Hist)
    requires Legal(p, h)
    requires var sent := Forwarded(ResolveTold(p, h, host, port, c.now, c.raw));
             && before == h + ResolveTrail(p, h, c.now, c.raw) + (if sent then [Consumed] else [])
             && failed == !(sent && c.good)
    requires after == before + [Observed(Obs(c.at, failed))]
    ensures after == h + CallTrail(p, h, c)
  {
    SentIffForwarded(p, h, c, host, port);
  }

  lemma HistorySnoc(p: DnsPolicy, calls: seq<Call>, c: Call)
    ensures HistoryOf(p, calls + [c]) == HistoryOf(p, calls) + CallTrail(p, HistoryOf(p, calls), c)
  {
    FrontOfSnoc(calls, c);
  }

  // ---------------------------------------------------------------------------
  // A first call whose lookup succeeds
  // ---------------------------------------------------------------------------

  function First(ttl: Duration, good: bool): Call { Call(1, Delivered(["a"], ttl, 0), 2, good) }

  lemma FirstCall(p: DnsPolicy, ttl: Duration, good: bool)
    requires p.Valid()
    ensures InTurn([First(ttl, good)]) && Advances(p, [], First(ttl, good), HistoryOf(p, [First(ttl, good)]))
    ensures LastGood(HistoryOf(p, [First(ttl, good)])) == if Caching(p.mode) then Some(Good(1, ["a"], ttl)) else None
    ensures ForcePending(p, HistoryOf(p, [First(ttl, good)])) <==> !good && WouldForce(p, [], 2)
  {
    var c := First(ttl, good);
    assert Front([c]) == [] && HistoryOf(p, []) == [] && Last([c]) == c;
    CallAdvances(p, [], c);
    assert [] + CallTrail(p, [], c) == HistoryOf(p, [c]);
  }

  // ---------------------------------------------------------------------------
  // A TTL of zero
  // ---------------------------------------------------------------------------

  /** ZeroTTLExpiresIff says when the next request resolves again after a TTL of zero. It does not after
      one good call, under any policy with a positive TTLMin, and for as long as that. */
  lemma ZeroTTLOutlives(p: DnsPolicy, now: Time)
    requires p.mode == TTL && p.Valid() && p.ttlMin > 0 && 2 <= now <= 1 + p.ttlMin
    ensures var h := HistoryOf(p, [First(0, true)]);
            && InTurn([First(0, true)]) && LastGood(h) == Some(Good(1, ["a"], 0))
            && !NeedsLookup(p, h, now)
  {
    FirstCall(p, 0, true);
  }

  // ---------------------------------------------------------------------------
  // Fallback
  // ---------------------------------------------------------------------------

  /** ForwardedIff says which requests are sent. Under every valid refreshing policy with a fallback: after
      one good call its answer runs out, the next lookup fails, and the request it was for is not sent
      although the cached address is reported. */
  lemma FallbackNotSent(p: DnsPolicy, host: string, port: string, e: Error, at: Time)
    requires Refreshing(p.mode) && p.Valid() && !p.disableFallback
    ensures var now := Expiry(p, Good(1, ["a"], 5)) + 1;
            var calls := [First(5, true), Call(now, ResolverFailed(e), Max(now, at), true)];
            var h := HistoryOf(p, [First(5, true)]);
            && InTurn(calls) && Legal(p, h) && !Sent(p, h, calls[1])
            && ResolveTold(p, h, host, port, now, ResolverFailed(e)).0.address == Some(Target("a", port))
  {
    FirstCall(p, 5, true);
  }

  // ---------------------------------------------------------------------------
  // DisableFallback
  // ---------------------------------------------------------------------------

  /** A request that resolves at `now` is sent to this address. */
  predicate SentTo(p: DnsPolicy, h: Hist, host: string, port: string, now: Time, raw: RawReply, addr: Addr) {
    && Legal(p, h)
    && var r := ResolveTold(p, h, host, port, now, raw);
    && Forwarded(r) && r.0.address == Some(Target(addr, port))
  }

  /** DisableFallback is documented to drop the cached address when a lookup fails. The call it fails is
      refused and reported as a failure, but later ones all look up again if and only if the address had
      run out by then or that very report forces a lookup; otherwise they are sent to the old address
      until it runs out. */
  lemma DroppedIff(p: DnsPolicy, h: Hist, c: Call, host: string, port: string)
    requires Legal(p, h) && Refreshing(p.mode) && p.disableFallback && LastGood(h).Some? && 0 < c.now <= c.at
    requires NeedsLookup(p, h, c.now) && Lookup(c.raw).Failure?
    ensures var g, h' := LastGood(h).value, h + CallTrail(p, h, c);
            && Legal(p, h') && LastGood(h') == Some(g) && g.addrs != []
            && ResolveTold(p, h, host, port, c.now, c.raw).1 == Some(Lookup(c.raw).err)
            && ResolveTold(p, h, host, port, c.now, c.raw).0.address.None?
            && ((forall later :: later >= c.at ==> NeedsLookup(p, h', later))
                <==> Expired(p, g, c.at) || WouldForce(p, h, c.at))
            && (forall later, raw :: c.at <= later && !Expired(p, g, later) && !WouldForce(p, h, c.at) ==>
                 SentTo(p, h', host, port, later, raw, g.addrs[0]))
  {
    LastGoodLegal(p, h);
    CallAdvances(p, h, c);
    assert NeedsLookup(p, h + CallTrail(p, h, c), c.at) <==>
           Expired(p, LastGood(h).value, c.at) || WouldForce(p, h, c.at);
  }

  const DROPPING := DnsPolicy(TTL, None, 0, 0, 0, true, GuardPolicy(2, 0, ForceLookup))

  /** Two calls that the server fails, which force a lookup. */
  function Forcing(raw: RawReply): seq<Call> { [First(50, false), Call(3, raw, 4, false)] }

  /** And one whose forced lookup fails. */
  function Dropping(raw: RawReply, e: Error): seq<Call> { Forcing(raw) + [Call(5, ResolverFailed(e), 6, false)] }

  lemma TwoFailuresForce(raw: RawReply)
    ensures var h := HistoryOf(DROPPING, Forcing(raw));
            && Legal(DROPPING, h) && LastGood(h) == Some(Good(1, ["a"], 50))
            && NeedsLookup(DROPPING, h, 5) && !WouldForce(DROPPING, h, 6)
  {
    var p, c := DROPPING, Call(3, raw, 4, false);
    var h := HistoryOf(p, [First(50, false)]);
    FirstCall(p, 50, false);
    CallAdvances(p, h, c);
    HistorySnoc(p, [First(50, false)], c);
    assert [First(50, false)] + [c] == Forcing(raw);
    assert CounterOf(p, []) == CLEAR && CounterOf(p, h) == Counter(1, 2, 2);
  }

  lemma ForcedFailureServes(h: Hist, c: Call, host: string, port: string, raw: RawReply)
    requires Legal(DROPPING, h) && LastGood(h) == Some(Good(1, ["a"], 50))
    requires c.now == 5 && c.at == 6 && Lookup(c.raw).Failure?
    requires NeedsLookup(DROPPING, h, 5) && !WouldForce(DROPPING, h, 6)
    ensures SentTo(DROPPING, h + CallTrail(DROPPING, h, c), host, port, 7, raw, "a")
  {
    DroppedIff(DROPPING, h, c, host, port);
    assert !Expired(DROPPING, LastGood(h).value, 7);
  }

  lemma DroppingInTurn(raw: RawReply, e: Error)
    ensures InTurn(Dropping(raw, e))
  {
  }

  /** So a run of calls: the forced lookup at 5 fails, and the call at 7 is sent to the address that was to
      be dropped. */
  lemma DroppedIsServed(host: string, port: string, e: Error, raw: RawReply, raw': RawReply)
    ensures InTurn(Dropping(raw, e))
    ensures SentTo(DROPPING, HistoryOf(DROPPING, Dropping(raw, e)), host, port, 7, raw', "a")
  {
    var c := Call(5, ResolverFailed(e), 6, false);
    DroppingInTurn(raw, e);
    TwoFailuresForce(raw);
    ForcedFailureServes(HistoryOf(DROPPING, Forcing(raw)), c, host, port, raw');
    HistorySnoc(DROPPING, Forcing(raw), c);
  }

  // ---------------------------------------------------------------------------
  // Forced lookups
  // ---------------------------------------------------------------------------

  /** The next resolve attempts a lookup. */
  predicate Attempts(p: DnsPolicy, h: Hist, now: Time, raw: RawReply) {
    var trail := ResolveTrail(p, h, now, raw);
    trail != [] && trail[0].Resolved? && trail[0].reply.Some?
  }

  /** Forced lookups are documented for every mode. An owed one is attempted by the next resolve exactly in
      the refreshing modes, or when single lookup has yet to look up. */
  lemma ForceHonouredIff(p: DnsPolicy, h: Hist, now: Time, raw: RawReply)
    requires ForcePending(p, h)
    ensures Attempts(p, h, now, raw) <==> Refreshing(p.mode) || (p.mode == SingleLookup && LastGood(h).None?)
  {
  }

  /** In each of the other modes the first call, if the server fails it on a guard rail that forces at
      once, leaves a forced lookup owed that is never made. */
  lemma ForceNeverMade(p: DnsPolicy)
    requires !Refreshing(p.mode) && p.Valid() && p.guard.threshold == 1 && p.guard.action == ForceLookup
    ensures var h := HistoryOf(p, [First(5, false)]);
            && InTurn([First(5, false)]) && Legal(p, h) && ForcePending(p, h)
            && forall now, raw :: !Attempts(p, h, now, raw)
  {
    FirstCall(p, 5, false);
  }
}
