/** dns_policy_manager.go: the manager's critical sections as functions on the state its mutex guards,
    and the proof that this state is always the one the history prescribes. */
module LockSections {
  import opened Basics
  import opened Policy
  import opened GuardRail
  import opened History

  datatype Entry = Entry(addrs: seq<Addr>, expiresAt: Time, lastLookup: Time)

  datatype Shared = Shared(
    cache: Entry,
    cadenceNext: Time,
    forceLookup: bool,
    counter: Counter,
    triggered: bool)

  const NO_ENTRY := Entry([], 0, 0)
  const START := Shared(NO_ENTRY, 0, false, CLEAR, false)

  /** First section of a resolve: is a lookup due at `now`? */
  predicate MustLook(p: DnsPolicy, s: Shared, now: Time) {
    var none := s.cache.addrs == [];
    match p.mode
    case TTL => s.forceLookup || none || (s.cache.expiresAt != 0 && now > s.cache.expiresAt)
    case Cadence => s.forceLookup || none || (s.cadenceNext != 0 && now > s.cadenceNext)
    case _ => none
  }

  /** First section of a resolve: the flag is taken whether or not a lookup follows. */
  function TakeForce(p: DnsPolicy, s: Shared): Shared {
    if Refreshing(p.mode) then s.(forceLookup := false) else s
  }

  /** Second section of a resolve: the answer replaces the cache. */
  function Install(p: DnsPolicy, s: Shared, now: Time, addrs: seq<Addr>, ttl: Duration): Shared {
    match p.mode
    case TTL =>
      var t := p.NormalizeTTL(ttl);
      s.(cache := Entry(addrs, if t <= 0 then now else now + t, now))
    case Cadence => s.(cache := Entry(addrs, 0, now), cadenceNext := now + p.cadence)
    case _ => s.(cache := Entry(addrs, 0, now))
  }

  /** A failed request, on an enabled guard rail. */
  function CountFailure(g: GuardPolicy, s: Shared, now: Time): Shared {
    var crossed := Crosses(g, s.counter, now);
    s.(counter := AfterFailure(g, s.counter, now),
       triggered := s.triggered || crossed,
       forceLookup := s.forceLookup || (crossed && g.action == ForceLookup))
  }

  function ClearCounter(s: Shared): Shared { s.(counter := CLEAR) }

  function TakeTrigger(s: Shared): Shared { s.(triggered := false) }

  function Observe(g: GuardPolicy, s: Shared, o: Obs): Shared {
    if !g.Enabled() then s else if o.failed then CountFailure(g, s, o.at) else ClearCounter(s)
  }

  /** The guarded state a history prescribes. */
  function StateOf(p: DnsPolicy, h: Hist): Shared {
    var (cache, next) :=
      match LastGood(h)
      case None => (NO_ENTRY, 0)
      case Some(g) =>
        (Entry(g.addrs, if p.mode == TTL then Expiry(p, g) else 0, g.at),
         if p.mode == Cadence then Expiry(p, g) else 0);
    Shared(cache, next, ForcePending(p, h), CounterOf(p, h), TriggerPending(p, h))
  }

  /** The manager attempts a lookup exactly when the reference rule asks for one. */
  lemma MustLookIffNeeded(p: DnsPolicy, h: Hist, now: Time)
    requires Legal(p, h) && Caching(p.mode)
    ensures MustLook(p, StateOf(p, h), now) <==> NeedsLookup(p, h, now)
  {
    if LastGood(h).Some? {
      LastGoodLegal(p, h);
    }
  }

  /** What one resolve does to the guarded state: no lookup or a failed one takes the force flag and
      leaves the cache alone; a successful one also replaces the cache. */
  function AfterResolve(p: DnsPolicy, s: Shared, now: Time, reply: Option<Reply>): Shared {
    match reply
    case Some(Answer(addrs, ttl, _)) => Install(p, TakeForce(p, s), now, addrs, ttl)
    case _ => TakeForce(p, s)
  }

  lemma ResolveRefines(p: DnsPolicy, h: Hist, now: Time, reply: Option<Reply>)
    requires Caching(p.mode)
    ensures StateOf(p, h + [Resolved(now, reply)]) == AfterResolve(p, StateOf(p, h), now, reply)
  {
    FrontOfSnoc(h, Resolved(now, reply));
    assert Observations(h) + [] == Observations(h);
  }

  lemma ObserveRefines(p: DnsPolicy, h: Hist, o: Obs)
    ensures StateOf(p, h + [Observed(o)]) == Observe(p.guard, StateOf(p, h), o)
  {
    FrontOfSnoc(h, Observed(o));
    FrontOfSnoc(Observations(h), o);
  }

  lemma ConsumeRefines(p: DnsPolicy, h: Hist)
    ensures StateOf(p, h + [Consumed]) == TakeTrigger(StateOf(p, h))
  {
    FrontOfSnoc(h, Consumed);
    assert Observations(h) + [] == Observations(h);
  }

  /** What the guard rail's counter and the cache satisfy in every state a legal history leads to. */
  lemma StateInvariant(p: DnsPolicy, h: Hist)
    requires Legal(p, h)
    ensures var s := StateOf(p, h);
            && (p.guard.Enabled() ==> 0 <= s.counter.count < p.guard.threshold)
            && (s.counter.count == 0 <==> s.counter.firstFailure == 0)
            && (s.cache.addrs == [] <==> LastGood(h).None?)
            && (s.cache.addrs == [] ==> s.cache == Entry([], 0, 0) && s.cadenceNext == 0)
            && (p.mode == TTL && s.cache.addrs != [] ==> s.cache.lastLookup <= s.cache.expiresAt)
            && (s.forceLookup || s.triggered ==> p.guard.Enabled())
  {
    ObservationsPositive(p, h);
    if p.guard.Enabled() {
      CounterInvariant(p.guard, Observations(h));
    } else {
      NothingActs(p, h);
    }
    if LastGood(h).Some? {
      LastGoodLegal(p, h);
    }
  }
}
