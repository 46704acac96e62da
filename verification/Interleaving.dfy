/** dns_policy_manager.go under concurrency: requests overlap, each resolve releases the mutex between
    reading the cache and writing it, and overlapping lookups share one flight. */
module Interleaving {
  import opened Basics
  import opened Policy
  import opened GuardRail
  import opened History
  import opened LockSections

  /** One shared lookup: under way, or landed with a reply at a time. */
  datatype Flight = Flying | Landed(reply: Reply, at: Time)

  /** Where a request is between entering the manager and leaving it. */
  datatype Phase =
    | Entered(now: Time)
    | Looking(now: Time)
    | Joined(now: Time, flight: nat)
    | Heard(now: Time, from: Option<nat>, reply: Reply)
    | Passed(addr: Addr, forceNewConn: bool)
    | Ended

  datatype LogEntry =
    | Crossed(rose: bool, forceRose: bool)
    | Peeked(took: bool, looks: bool)
    | Prepared(fired: bool, flushed: bool)
    | Refused

  datatype State = State(
    clock: Time,
    shared: Shared,
    flights: seq<Flight>,
    current: Option<nat>,
    reqs: map<nat, Phase>,
    log: seq<LogEntry>)

  const BEGINNING := State(1, START, [], None, map[], [])

  datatype Action =
    | Tick(to: Time)
    | Enter(r: nat)                 // reads the clock
    | Peek(r: nat)                  // first critical section
    | Join(r: nat)                  // joins the flight under way, or starts one
    | Land(reply: Reply)            // the shared lookup completes
    | Hear(r: nat)
    | Cancel(r: nat, err: Error)    // the caller stops waiting; the flight goes on
    | Finish(r: nat)                // second critical section, or the error return
    | Prepare(r: nat)               // consumes the trigger
    | Report(o: Obs)                // some request's outcome

  predicate Enabled(p: DnsPolicy, s: State, a: Action) {
    match a
    case Tick(to) => to >= s.clock
    case Enter(r) => r !in s.reqs
    case Peek(r) => r in s.reqs && s.reqs[r].Entered?
    case Join(r) => r in s.reqs && s.reqs[r].Looking?
    case Land(reply) => s.current.Some? && s.current.value < |s.flights| && (reply.Answer? ==> reply.addrs != [])
    case Hear(r) =>
      r in s.reqs && s.reqs[r].Joined? && s.reqs[r].flight < |s.flights| && s.flights[s.reqs[r].flight].Landed?
    case Cancel(r, _) => r in s.reqs && s.reqs[r].Joined?
    case Finish(r) => r in s.reqs && s.reqs[r].Heard? && (s.reqs[r].reply.Answer? ==> s.reqs[r].reply.addrs != [])
    case Prepare(r) => r in s.reqs && s.reqs[r].Passed?
    case Report(o) => 0 < o.at <= s.clock
  }

  /** The lookup time an answer is stored with: the request's own clock reading, except that a single
      lookup reads the clock again when it stores. */
  function StampOf(p: DnsPolicy, s: State, now: Time): Time {
    if p.mode == SingleLookup then s.clock else now
  }

  function Do(p: DnsPolicy, s: State, a: Action): State
    requires Enabled(p, s, a)
  {
    match a
    case Tick(to) => s.(clock := to)
    case Enter(r) => s.(reqs := s.reqs[r := Entered(s.clock)])
    case Peek(r) =>
      var now, sh := s.reqs[r].now, s.shared;
      var looks := MustLook(p, sh, now);
      s.(shared := TakeForce(p, sh),
         reqs := s.reqs[r := if looks || sh.cache.addrs == [] then Looking(now)
                             else Passed(sh.cache.addrs[0], false)],
         log := s.log + [Peeked(sh.forceLookup, looks)])
    case Join(r) =>
      var now := s.reqs[r].now;
      if s.current.Some? then s.(reqs := s.reqs[r := Joined(now, s.current.value)])
      else s.(flights := s.flights + [Flying], current := Some(|s.flights|),
              reqs := s.reqs[r := Joined(now, |s.flights|)])
    case Land(reply) => s.(flights := s.flights[s.current.value := Landed(reply, s.clock)], current := None)
    case Hear(r) =>
      var q := s.reqs[r];
      s.(reqs := s.reqs[r := Heard(q.now, Some(q.flight), s.flights[q.flight].reply)])
    case Cancel(r, e) => s.(reqs := s.reqs[r := Heard(s.reqs[r].now, None, Failure(e))])
    case Finish(r) =>
      var q := s.reqs[r];
      (match q.reply
       case Answer(addrs, ttl, _) =>
         s.(shared := Install(p, s.shared, StampOf(p, s, q.now), addrs, ttl),
            reqs := s.reqs[r := Passed(addrs[0], true)])
       case Failure(_) => s.(reqs := s.reqs[r := Ended], log := s.log + [Refused]))
    case Prepare(r) =>
      var fired := s.shared.triggered && p.guard.action != NoAction;
      s.(shared := TakeTrigger(s.shared), reqs := s.reqs[r := Ended],
         log := s.log + [Prepared(fired, fired || s.reqs[r].forceNewConn)])
    case Report(o) =>
      var sh := Observe(p.guard, s.shared, o);
      var crossed := p.guard.Enabled() && o.failed && Crosses(p.guard, s.shared.counter, o.at);
      s.(shared := sh,
         log := s.log + if crossed
           then [Crossed(!s.shared.triggered, p.guard.action == ForceLookup && !s.shared.forceLookup)] else [])
  }

  predicate Runs(p: DnsPolicy, s: State, acts: seq<Action>)
    decreases acts
  {
    acts == [] || (Enabled(p, s, acts[0]) && Runs(p, Do(p, s, acts[0]), acts[1..]))
  }

  function After(p: DnsPolicy, s: State, acts: seq<Action>): State
    requires Runs(p, s, acts)
    decreases acts
  {
    if acts == [] then s else After(p, Do(p, s, acts[0]), acts[1..])
  }

  // ---------------------------------------------------------------------------
  // Freshness
  // ---------------------------------------------------------------------------

  /** The cache is the answer of flight f and runs out when that answer does. In the modes in which it
      runs out at all, it was taken by a request that read the clock no later than the flight landed. */
  predicate Backs(p: DnsPolicy, s: State, f: int) {
    && 0 <= f < |s.flights| && s.flights[f].Landed? && s.flights[f].reply.Answer?
    && var g := Good(s.shared.cache.lastLookup, s.flights[f].reply.addrs, s.flights[f].reply.ttl);
    && 0 < g.at <= s.clock && s.flights[f].at <= s.clock
    && (Refreshing(p.mode) ==> g.at <= s.flights[f].at)
    && s.shared.cache.addrs == g.addrs != []
    && s.shared.cache.expiresAt == (if p.mode == TTL then Expiry(p, g) else 0)
    && s.shared.cadenceNext == (if p.mode == Cadence then Expiry(p, g) else 0)
  }

  ghost predicate CacheBacked(p: DnsPolicy, s: State) {
    if s.shared.cache.addrs == [] then s.shared.cache == NO_ENTRY && s.shared.cadenceNext == 0
    else exists f :: Backs(p, s, f)
  }

  /** A request waits for, or has heard from, a flight that landed after the request began. */
  predicate PhaseSound(s: State, q: Phase) {
    match q
    case Entered(now) => 0 < now <= s.clock
    case Looking(now) => 0 < now <= s.clock
    case Joined(now, f) =>
      0 < now <= s.clock && f < |s.flights| && (s.flights[f].Landed? ==> now <= s.flights[f].at)
    case Heard(now, f, reply) =>
      0 < now <= s.clock && (reply.Answer? ==>
        reply.addrs != [] && f.Some? && f.value < |s.flights|
        && s.flights[f.value].Landed? && s.flights[f.value].reply == reply && now <= s.flights[f.value].at)
    case _ => true
  }

  predicate FlightsSound(s: State) {
    && (forall f :: 0 <= f < |s.flights| ==> (s.flights[f].Flying? <==> s.current == Some(f)))
    && (s.current.Some? ==> s.current.value < |s.flights|)
    && (forall f :: 0 <= f < |s.flights| && s.flights[f].Landed? ==> FlightLanded(s, s.flights[f]))
  }

  predicate FlightLanded(s: State, f: Flight)
    requires f.Landed?
  {
    f.at <= s.clock && (f.reply.Answer? ==> f.reply.addrs != [])
  }

  ghost predicate Sound(p: DnsPolicy, s: State) {
    && s.clock > 0 && FlightsSound(s) && CacheBacked(p, s)
    && (forall r :: r in s.reqs ==> PhaseSound(s, s.reqs[r]))
  }

  lemma BacksKept(p: DnsPolicy, s: State, s': State, f: int)
    requires Backs(p, s, f) && f < |s'.flights| && s'.flights[f] == s.flights[f] && s.clock <= s'.clock
    requires s'.shared.cache == s.shared.cache && s'.shared.cadenceNext == s.shared.cadenceNext
    ensures Backs(p, s', f)
  {
  }

  lemma SoundCacheStep(p: DnsPolicy, s: State, a: Action)
    requires Sound(p, s) && Enabled(p, s, a) && Caching(p.mode)
    ensures CacheBacked(p, Do(p, s, a))
    ensures s.shared.cache.addrs != [] ==> Do(p, s, a).shared.cache.addrs != []
  {
    var s' := Do(p, s, a);
    if a.Finish? && s.reqs[a.r].reply.Answer? {
      assert PhaseSound(s, s.reqs[a.r]);
      assert Backs(p, s', s.reqs[a.r].from.value);
    } else if s.shared.cache.addrs != [] {
      var f :| Backs(p, s, f);
      BacksKept(p, s, s', f);
    }
  }

  lemma PhaseSoundStep(p: DnsPolicy, s: State, a: Action, r: nat)
    requires Sound(p, s) && Enabled(p, s, a) && r in Do(p, s, a).reqs
    ensures PhaseSound(Do(p, s, a), Do(p, s, a).reqs[r])
  {
    if r in s.reqs {
      assert PhaseSound(s, s.reqs[r]);
    }
  }

  lemma FlightsSoundStep(p: DnsPolicy, s: State, a: Action)
    requires s.clock > 0 && FlightsSound(s) && Enabled(p, s, a)
    ensures FlightsSound(Do(p, s, a))
  {
    var s' := Do(p, s, a);
    forall f | 0 <= f < |s'.flights| && s'.flights[f].Landed? ensures FlightLanded(s', s'.flights[f]) {
      if f < |s.flights| && s.flights[f].Landed? {
        assert FlightLanded(s, s.flights[f]);
      }
    }
  }

  lemma SoundStep(p: DnsPolicy, s: State, a: Action)
    requires Sound(p, s) && Enabled(p, s, a) && Caching(p.mode)
    ensures Sound(p, Do(p, s, a))
  {
    SoundCacheStep(p, s, a);
    FlightsSoundStep(p, s, a);
    forall r | r in Do(p, s, a).reqs ensures PhaseSound(Do(p, s, a), Do(p, s, a).reqs[r]) {
      PhaseSoundStep(p, s, a, r);
    }
  }

  lemma {:induction false} SoundAlong(p: DnsPolicy, s: State, acts: seq<Action>)
    requires Sound(p, s) && Runs(p, s, acts) && Caching(p.mode)
    ensures Sound(p, After(p, s, acts))
    ensures s.shared.cache.addrs != [] ==> After(p, s, acts).shared.cache.addrs != []
    decreases acts
  {
    if acts != [] {
      SoundStep(p, s, acts[0]);
      SoundCacheStep(p, s, acts[0]);
      SoundAlong(p, Do(p, s, acts[0]), acts[1..]);
    }
  }

  /** `addr` heads the answer of flight f, and at `now` that answer has not run out: in TTL mode it is
      no later than the delivery plus the clamped TTL, so at most TTLMax after the delivery. */
  predicate FreshFrom(p: DnsPolicy, s: State, f: int, addr: Addr, now: Time) {
    && 0 <= f < |s.flights| && s.flights[f].Landed? && s.flights[f].reply.Answer?
    && var reply, at := s.flights[f].reply, s.flights[f].at;
    && reply.addrs != [] && addr == reply.addrs[0]
    && (p.mode == TTL ==> now <= at + p.Lifetime(reply.ttl))
    && (p.mode == TTL && p.Valid() && p.ttlMax > 0 ==> now - at <= p.ttlMax)
    && (p.mode == Cadence && p.Valid() ==> now <= at + p.cadence)
  }

  ghost predicate Reachable(p: DnsPolicy, s: State) {
    exists acts :: Runs(p, BEGINNING, acts) && After(p, BEGINNING, acts) == s
  }

  lemma {:induction false} RunsSnoc(p: DnsPolicy, s: State, acts: seq<Action>, a: Action)
    requires Runs(p, s, acts) && Enabled(p, After(p, s, acts), a)
    ensures Runs(p, s, acts + [a]) && After(p, s, acts + [a]) == Do(p, After(p, s, acts), a)
    decreases acts
  {
    var all := acts + [a];
    if acts == [] {
      assert all[1..] == [] && all[0] == a;
    } else {
      assert all[1..] == acts[1..] + [a] && all[0] == acts[0];
      RunsSnoc(p, Do(p, s, acts[0]), acts[1..], a);
    }
  }

  lemma ReachableStep(p: DnsPolicy, s: State, a: Action)
    requires Reachable(p, s) && Enabled(p, s, a)
    ensures Reachable(p, Do(p, s, a))
  {
    var acts :| Runs(p, BEGINNING, acts) && After(p, BEGINNING, acts) == s;
    RunsSnoc(p, BEGINNING, acts, a);
  }

  lemma ReachableSound(p: DnsPolicy, s: State)
    requires Caching(p.mode) && Reachable(p, s)
    ensures Sound(p, s)
  {
    var acts :| Runs(p, BEGINNING, acts) && After(p, BEGINNING, acts) == s;
    SoundAlong(p, BEGINNING, acts);
  }

  /** However requests interleave, one that skips the lookup is given a delivered answer that has not
      run out. */
  lemma FreshUnderInterleaving(p: DnsPolicy, s: State, r: nat)
    requires Caching(p.mode) && Reachable(p, s) && Enabled(p, s, Peek(r))
    ensures var now, q := s.reqs[r].now, Do(p, s, Peek(r)).reqs[r];
            (q.Looking? <==> MustLook(p, s.shared, now))
            && (!q.Looking? ==> q.Passed? && !q.forceNewConn && exists f :: FreshFrom(p, s, f, q.addr, now))
  {
    ReachableSound(p, s);
    if !MustLook(p, s.shared, s.reqs[r].now) {
      var f :| Backs(p, s, f);
      assert FreshFrom(p, s, f, s.shared.cache.addrs[0], s.reqs[r].now);
    }
  }

  /** The steps' guards exclude nothing that can come up: a request that waits can hear its flight once
      it has landed, one that has heard can finish, and a flight under way can land with any reply. */
  lemma NobodyIsStuck(p: DnsPolicy, s: State, r: nat, reply: Reply)
    requires Caching(p.mode) && Reachable(p, s) && r in s.reqs && (reply.Answer? ==> reply.addrs != [])
    ensures s.reqs[r].Heard? ==> Enabled(p, s, Finish(r))
    ensures s.reqs[r].Joined? ==>
      Enabled(p, s, Hear(r)) || (s.current == Some(s.reqs[r].flight) && Enabled(p, s, Land(reply)))
  {
    ReachableSound(p, s);
    assert PhaseSound(s, s.reqs[r]);
  }

  /** What a request still has to do. */
  function Remaining(s: State, r: nat): nat {
    if r !in s.reqs then 6
    else match s.reqs[r]
      case Entered(_) => 5
      case Looking(_) => 4
      case Joined(_, _) => 3
      case Heard(_, _, _) => 2
      case Passed(_, _) => 1
      case Ended => 0
  }

  predicate StepOf(a: Action, r: nat) {
    || a == Enter(r) || a == Peek(r) || a == Join(r) || a == Hear(r)
    || (a.Cancel? && a.r == r) || a == Finish(r) || a == Prepare(r)
  }

  function StepsOf(acts: seq<Action>, r: nat): nat {
    if acts == [] then 0 else (if StepOf(acts[0], r) then 1 else 0) + StepsOf(acts[1..], r)
  }

  /** Every step of a request brings it closer to its end and nobody sets it back: over any run it takes
      at most six, and is prepared at most once. */
  lemma {:induction false} RequestBounded(p: DnsPolicy, s: State, acts: seq<Action>, r: nat)
    requires Runs(p, s, acts)
    ensures StepsOf(acts, r) + Remaining(After(p, s, acts), r) <= Remaining(s, r)
    ensures forall i, j :: 0 <= i < j < |acts| && acts[i] == Prepare(r) ==> !StepOf(acts[j], r)
    decreases acts
  {
    if acts != [] {
      var s', rest := Do(p, s, acts[0]), acts[1..];
      RequestBounded(p, s', rest, r);
      if acts[0] == Prepare(r) {
        NoneLeft(rest, r);
      }
      forall i, j | 0 <= i < j < |acts| && acts[i] == Prepare(r) ensures !StepOf(acts[j], r) {
        assert acts[j] == rest[j - 1] && (i > 0 ==> acts[i] == rest[i - 1]);
      }
    }
  }

  lemma {:induction false} NoneLeft(acts: seq<Action>, r: nat)
    requires StepsOf(acts, r) == 0
    ensures forall i :: 0 <= i < |acts| ==> !StepOf(acts[i], r)
  {
    if acts != [] {
      NoneLeft(acts[1..], r);
      assert forall i :: 0 < i < |acts| ==> acts[i] == acts[1..][i - 1];
    }
  }

  /** The environment is free: the clock may move on, a new request may come in, any outcome of the past be
      reported, and any caller that waits give up. */
  lemma EnvironmentFree(p: DnsPolicy, s: State, r: nat, to: Time, o: Obs, e: Error)
    ensures to >= s.clock ==> Enabled(p, s, Tick(to)) && Do(p, s, Tick(to)).clock == to
    ensures r !in s.reqs ==> Enabled(p, s, Enter(r)) && Do(p, s, Enter(r)).reqs == s.reqs[r := Entered(s.clock)]
    ensures 0 < o.at <= s.clock ==> Enabled(p, s, Report(o))
    ensures r in s.reqs && s.reqs[r].Joined? ==>
      && Enabled(p, s, Cancel(r, e))
      && var s' := Do(p, s, Cancel(r, e));
      && Enabled(p, s', Finish(r))
      && var end := Do(p, s', Finish(r));
      && end.reqs == s.reqs[r := Ended]
      && end.shared == s.shared && end.flights == s.flights && end.current == s.current
  {
  }

  /** The next step of a request, or the landing of the flight it waits for. */
  predicate Furthers(s: State, a: Action, r: nat, reply: Reply) {
    || (StepOf(a, r) && !a.Cancel?)
    || (a == Land(reply) && r in s.reqs && s.reqs[r].Joined? && s.current == Some(s.reqs[r].flight))
  }

  /** Every request always has one, until it has ended. */
  lemma AlwaysFurther(p: DnsPolicy, s: State, r: nat, reply: Reply) returns (a: Action)
    requires Caching(p.mode) && Reachable(p, s) && (reply.Answer? ==> reply.addrs != [])
    requires r !in s.reqs || !s.reqs[r].Ended?
    ensures Enabled(p, s, a) && Furthers(s, a, r, reply)
  {
    if r !in s.reqs {
      a := Enter(r);
    } else {
      NobodyIsStuck(p, s, r, reply);
      match s.reqs[r] {
        case Entered(_) => a := Peek(r);
        case Looking(_) => a := Join(r);
        case Joined(_, _) => a := if Enabled(p, s, Hear(r)) then Hear(r) else Land(reply);
        case Heard(_, _, _) => a := Finish(r);
        case Passed(_, _) => a := Prepare(r);
      }
    }
  }

  /** Steps to go, landing included. */
  function Distance(s: State, r: nat): nat {
    2 * Remaining(s, r) -
      if r in s.reqs && s.reqs[r].Joined? && s.reqs[r].flight < |s.flights| && s.flights[s.reqs[r].flight].Landed?
      then 1 else 0
  }

  lemma FurtherIsCloser(p: DnsPolicy, s: State, r: nat, a: Action, reply: Reply)
    requires FlightsSound(s) && Enabled(p, s, a) && Furthers(s, a, r, reply)
    ensures Distance(Do(p, s, a), r) < Distance(s, r)
  {
  }

  /** So every request can be brought to its end, in at most twelve steps and whatever its lookup brings,
      with nobody else moving. */
  lemma {:induction false} RequestCompletes(p: DnsPolicy, s: State, r: nat, reply: Reply) returns (acts: seq<Action>)
    requires Caching(p.mode) && Reachable(p, s) && (reply.Answer? ==> reply.addrs != [])
    ensures Runs(p, s, acts) && |acts| <= Distance(s, r) <= 12
    ensures r in After(p, s, acts).reqs && After(p, s, acts).reqs[r].Ended?
    ensures forall i :: 0 <= i < |acts| ==> StepOf(acts[i], r) || acts[i] == Land(reply)
    decreases Distance(s, r)
  {
    acts := [];
    if r !in s.reqs || !s.reqs[r].Ended? {
      var a := AlwaysFurther(p, s, r, reply);
      ReachableSound(p, s);
      FurtherIsCloser(p, s, r, a, reply);
      ReachableStep(p, s, a);
      var rest := RequestCompletes(p, Do(p, s, a), r, reply);
      acts := [a] + rest;
      assert acts[1..] == rest;
    }
  }

  /** Overlapping lookups are one: there is never more than one flight under way, and all requests that
      wait for a flight under way wait for the same. */
  lemma Coalesced(p: DnsPolicy, s: State, r: nat, r': nat)
    requires Caching(p.mode) && Reachable(p, s)
    requires r in s.reqs && s.reqs[r].Joined? && r' in s.reqs && s.reqs[r'].Joined?
    ensures s.reqs[r].flight < |s.flights| && s.reqs[r'].flight < |s.flights|
    ensures s.flights[s.reqs[r].flight].Flying? && s.flights[s.reqs[r'].flight].Flying? ==>
      s.reqs[r].flight == s.reqs[r'].flight
    ensures forall f, g ::
      0 <= f < |s.flights| && 0 <= g < |s.flights| && s.flights[f].Flying? && s.flights[g].Flying? ==> f == g
  {
    ReachableSound(p, s);
    assert PhaseSound(s, s.reqs[r]) && PhaseSound(s, s.reqs[r']);
  }

  /** At any time the cache is empty or holds one delivered answer, with the expiry that answer gives. */
  lemma CacheIsOneAnswer(p: DnsPolicy, s: State)
    requires Caching(p.mode) && Reachable(p, s)
    ensures s.shared.cache.addrs == [] ==> s.shared.cache == Entry([], 0, 0) && s.shared.cadenceNext == 0
    ensures s.shared.cache.addrs != [] ==> exists f ::
      && 0 <= f < |s.flights| && s.flights[f].Landed? && s.flights[f].reply.Answer?
      && s.shared.cache.addrs == s.flights[f].reply.addrs
      && 0 < s.shared.cache.lastLookup <= s.clock
      && (Refreshing(p.mode) ==> s.shared.cache.lastLookup <= s.flights[f].at)
      && (p.mode == TTL ==>
           s.shared.cache.expiresAt == s.shared.cache.lastLookup + p.Lifetime(s.flights[f].reply.ttl))
      && (p.mode == Cadence ==> s.shared.cadenceNext == s.shared.cache.lastLookup + p.cadence)
  {
    ReachableSound(p, s);
    if s.shared.cache.addrs != [] {
      var f :| Backs(p, s, f);
    }
  }

  /** Once filled the cache is never empty again, whatever is still in progress. */
  lemma CacheStaysFilled(p: DnsPolicy, s: State, acts: seq<Action>)
    requires Caching(p.mode) && Reachable(p, s) && s.shared.cache.addrs != [] && Runs(p, s, acts)
    ensures After(p, s, acts).shared.cache.addrs != []
  {
    var before :| Runs(p, BEGINNING, before) && After(p, BEGINNING, before) == s;
    SoundAlong(p, BEGINNING, before);
    SoundAlong(p, s, acts);
  }

  /** Two requests that share a flight: both have heard its answer, the later one is first to write. */
  function Sharing(reply: Reply): State {
    State(2, START, [Landed(reply, 2)], None,
          map[0 := Heard(1, Some(0), reply), 1 := Heard(2, Some(0), reply)], [Peeked(false, true), Peeked(false, true)])
  }

  const ANSWER := Answer(["a"], 5, 0)

  /** The same two requests before either has joined a flight. */
  function BothLooking(): State {
    State(2, START, [], None, map[0 := Looking(1), 1 := Looking(2)], [Peeked(false, true), Peeked(false, true)])
  }

  lemma BothLookingReached(p: DnsPolicy)
    requires Refreshing(p.mode)
    ensures Reachable(p, BothLooking())
  {
    assert Runs(p, BEGINNING, []) && After(p, BEGINNING, []) == BEGINNING;
    ReachableStep(p, BEGINNING, Enter(0));
    var s1 := Do(p, BEGINNING, Enter(0));
    ReachableStep(p, s1, Peek(0));
    var s2 := Do(p, s1, Peek(0));
    ReachableStep(p, s2, Tick(2));
    var s3 := Do(p, s2, Tick(2));
    ReachableStep(p, s3, Enter(1));
    var s4 := Do(p, s3, Enter(1));
    ReachableStep(p, s4, Peek(1));
    assert Do(p, s4, Peek(1)) == BothLooking();
  }

  lemma SharingReached(p: DnsPolicy)
    requires Refreshing(p.mode)
    ensures Reachable(p, Sharing(ANSWER))
  {
    BothLookingReached(p);
    ReachableStep(p, BothLooking(), Join(0));
    var s1 := Do(p, BothLooking(), Join(0));
    ReachableStep(p, s1, Join(1));
    var s2 := Do(p, s1, Join(1));
    ReachableStep(p, s2, Land(ANSWER));
    var s3 := Do(p, s2, Land(ANSWER));
    ReachableStep(p, s3, Hear(0));
    var s4 := Do(p, s3, Hear(0));
    ReachableStep(p, s4, Hear(1));
    assert Do(p, s4, Hear(1)) == Sharing(ANSWER);
  }

  /** The recorded lookup time is not monotone: requests that share a flight write in either order. */
  lemma LastLookupCanGoBack(p: DnsPolicy)
    requires Refreshing(p.mode)
    ensures exists s ::
      && Reachable(p, s)
      && Enabled(p, s, Finish(1))
      && Enabled(p, Do(p, s, Finish(1)), Finish(0))
      && Do(p, Do(p, s, Finish(1)), Finish(0)).shared.cache.lastLookup < Do(p, s, Finish(1)).shared.cache.lastLookup
  {
    SharingReached(p);
    assert Enabled(p, Sharing(ANSWER), Finish(1));
  }

  /** It goes back exactly when an answer is written in a refreshing mode by a request that read the
      clock before the one whose answer is in the cache. */
  lemma LookupTimeGoesBackIff(p: DnsPolicy, s: State, a: Action)
    requires Caching(p.mode) && Reachable(p, s) && Enabled(p, s, a)
    ensures Do(p, s, a).shared.cache.lastLookup < s.shared.cache.lastLookup <==>
            && Refreshing(p.mode) && a.Finish? && s.reqs[a.r].reply.Answer?
            && s.reqs[a.r].now < s.shared.cache.lastLookup
  {
    ReachableSound(p, s);
    if s.shared.cache.addrs != [] {
      var f :| Backs(p, s, f);
    }
  }

  // ---------------------------------------------------------------------------
  // Single lookup
  // ---------------------------------------------------------------------------

  /** The request can still bring an answer with another head: it is about to join a flight, waits for one
      under way, or has such an answer coming. */
  predicate MayReplace(s: State, head: Addr, r: nat) {
    && r in s.reqs
    && match s.reqs[r]
       case Looking(_) => true
       case Joined(_, f) => f < |s.flights| && (s.flights[f].Flying? || HeadDiffers(s.flights[f].reply, head))
       case Heard(_, _, reply) => HeadDiffers(reply, head)
       case _ => false
  }

  predicate HeadDiffers(reply: Reply, head: Addr) {
    reply.Answer? && reply.addrs != [] && reply.addrs[0] != head
  }

  predicate HeadIs(s: State, head: Addr) { s.shared.cache.addrs != [] && s.shared.cache.addrs[0] == head }

  lemma SettledStep(p: DnsPolicy, s: State, head: Addr, a: Action)
    requires p.mode == SingleLookup && Sound(p, s) && Enabled(p, s, a) && HeadIs(s, head)
    requires forall r :: !MayReplace(s, head, r)
    ensures HeadIs(Do(p, s, a), head) && forall r :: !MayReplace(Do(p, s, a), head, r)
  {
    var s' := Do(p, s, a);
    forall r ensures !MayReplace(s', head, r) {
      assert !MayReplace(s, head, r);
      if r in s.reqs {
        assert PhaseSound(s, s.reqs[r]);
      }
    }
    if a.Finish? {
      assert !MayReplace(s, head, a.r);
    }
  }

  lemma {:induction false} SettledAlong(p: DnsPolicy, s: State, head: Addr, acts: seq<Action>)
    requires p.mode == SingleLookup && Sound(p, s) && Runs(p, s, acts) && HeadIs(s, head)
    requires forall r :: !MayReplace(s, head, r)
    ensures HeadIs(After(p, s, acts), head)
    decreases acts
  {
    if acts != [] {
      SoundStep(p, s, acts[0]);
      SettledStep(p, s, head, acts[0]);
      SettledAlong(p, Do(p, s, acts[0]), head, acts[1..]);
    }
  }

  /** Some run from here puts another address at the head of the cache. */
  ghost predicate CanChange(p: DnsPolicy, s: State, head: Addr) {
    exists acts :: Runs(p, s, acts) && !HeadIs(After(p, s, acts), head)
  }

  lemma ChangesLater(p: DnsPolicy, s: State, head: Addr, a: Action)
    requires Enabled(p, s, a) && CanChange(p, Do(p, s, a), head)
    ensures CanChange(p, s, head)
  {
    var acts :| Runs(p, Do(p, s, a), acts) && !HeadIs(After(p, Do(p, s, a), acts), head);
    var all := [a] + acts;
    assert all[1..] == acts;
    assert Runs(p, s, all) && After(p, s, all) == After(p, Do(p, s, a), acts);
  }

  lemma HeardReplaces(p: DnsPolicy, s: State, head: Addr, r: nat)
    requires p.mode == SingleLookup && r in s.reqs && s.reqs[r].Heard? && HeadDiffers(s.reqs[r].reply, head)
    ensures CanChange(p, s, head)
  {
    var s' := Do(p, s, Finish(r));
    assert Runs(p, s', []) && !HeadIs(After(p, s', []), head);
    ChangesLater(p, s, head, Finish(r));
  }

  lemma LandedReplaces(p: DnsPolicy, s: State, head: Addr, r: nat)
    requires p.mode == SingleLookup && r in s.reqs && s.reqs[r].Joined? && s.reqs[r].flight < |s.flights|
    requires s.flights[s.reqs[r].flight].Landed? && HeadDiffers(s.flights[s.reqs[r].flight].reply, head)
    ensures CanChange(p, s, head)
  {
    HeardReplaces(p, Do(p, s, Hear(r)), head, r);
    ChangesLater(p, s, head, Hear(r));
  }

  lemma FlyingReplaces(p: DnsPolicy, s: State, head: Addr, r: nat)
    requires p.mode == SingleLookup && r in s.reqs && s.reqs[r].Joined? && s.current == Some(s.reqs[r].flight)
    requires s.reqs[r].flight < |s.flights|
    ensures CanChange(p, s, head)
  {
    var reply := Answer([head + "x"], 0, 0);
    assert (head + "x")[|head|] == 'x' && |head + "x"| != |head|;
    LandedReplaces(p, Do(p, s, Land(reply)), head, r);
    ChangesLater(p, s, head, Land(reply));
  }

  lemma LookingReplaces(p: DnsPolicy, s: State, head: Addr, r: nat)
    requires p.mode == SingleLookup && Sound(p, s) && r in s.reqs && s.reqs[r].Looking?
    ensures CanChange(p, s, head)
  {
    FlyingReplaces(p, Do(p, s, Join(r)), head, r);
    ChangesLater(p, s, head, Join(r));
  }

  /** Single lookup is documented to reuse its one answer indefinitely. With the cache filled, the address it
      dials can still change if and only if some request found the cache empty and can still bring another
      one. */
  lemma SingleChangesIff(p: DnsPolicy, s: State)
    requires p.mode == SingleLookup && Reachable(p, s) && s.shared.cache.addrs != []
    ensures CanChange(p, s, s.shared.cache.addrs[0]) <==> exists r :: MayReplace(s, s.shared.cache.addrs[0], r)
  {
    ReachableSound(p, s);
    var head := s.shared.cache.addrs[0];
    if r :| MayReplace(s, head, r) {
      assert PhaseSound(s, s.reqs[r]);
      match s.reqs[r] {
        case Looking(_) => LookingReplaces(p, s, head, r);
        case Joined(_, f) =>
          if s.flights[f].Flying? {
            FlyingReplaces(p, s, head, r);
          } else {
            LandedReplaces(p, s, head, r);
          }
        case Heard(_, _, _) => HeardReplaces(p, s, head, r);
      }
    } else if CanChange(p, s, head) {
      var later :| Runs(p, s, later) && !HeadIs(After(p, s, later), head);
      SettledAlong(p, s, head, later);
    }
  }

  /** Request 0 has stored its answer; request 1 found the cache empty before that. */
  function Overtaken(): State {
    State(1, START.(cache := Entry(["a"], 0, 1)), [Landed(ANSWER, 1)], None,
          map[0 := Passed("a", true), 1 := Looking(1)], [Peeked(false, true), Peeked(false, true)])
  }

  /** Request 0 has heard its answer when request 1 finds the cache still empty. */
  lemma OvertakenReached(p: DnsPolicy)
    requires p.mode == SingleLookup
    ensures Reachable(p, Overtaken())
  {
    assert Runs(p, BEGINNING, []) && After(p, BEGINNING, []) == BEGINNING;
    var s1 := Do(p, BEGINNING, Enter(0));
    var s2 := Do(p, s1, Peek(0));
    var s3 := Do(p, s2, Join(0));
    var s4 := Do(p, s3, Land(ANSWER));
    ReachableStep(p, BEGINNING, Enter(0));
    ReachableStep(p, s1, Peek(0));
    ReachableStep(p, s2, Join(0));
    ReachableStep(p, s3, Land(ANSWER));
    OvertakenFrom(p, s4);
  }

  lemma OvertakenFrom(p: DnsPolicy, s: State)
    requires p.mode == SingleLookup && Reachable(p, s)
    requires s == State(1, START, [Landed(ANSWER, 1)], None, map[0 := Joined(1, 0)], [Peeked(false, true)])
    ensures Reachable(p, Overtaken())
  {
    var s1 := Do(p, s, Enter(1));
    var s2 := Do(p, s1, Peek(1));
    var s3 := Do(p, s2, Hear(0));
    ReachableStep(p, s, Enter(1));
    ReachableStep(p, s1, Peek(1));
    ReachableStep(p, s2, Hear(0));
    ReachableStep(p, s3, Finish(0));
    assert Do(p, s3, Finish(0)) == Overtaken();
  }

  /** So it does change: a reachable state that dials "a", from which a second lookup replaces it. */
  lemma SingleLookupReplaced(p: DnsPolicy)
    requires p.mode == SingleLookup
    ensures Reachable(p, Overtaken()) && HeadIs(Overtaken(), "a") && CanChange(p, Overtaken(), "a")
  {
    OvertakenReached(p);
    assert MayReplace(Overtaken(), "a", 1);
    SingleChangesIff(p, Overtaken());
  }

  // ---------------------------------------------------------------------------
  // Conservation of triggers and forces
  // ---------------------------------------------------------------------------

  /** What is owed: a flush, and a forced lookup. */
  datatype Debt = Debt(flush: bool, force: bool)

  function Incur(p: DnsPolicy, d: Debt, e: LogEntry): Debt {
    match e
    case Crossed(_, _) => Debt(true, d.force || p.guard.action == ForceLookup)
    case Peeked(_, _) => Debt(d.flush, d.force && !Refreshing(p.mode))
    case Prepared(_, _) => Debt(false, d.force)
    case Refused => d
  }

  function Owed(p: DnsPolicy, log: seq<LogEntry>): Debt {
    if log == [] then Debt(false, false) else Incur(p, Owed(p, Front(log)), Last(log))
  }

  /** The entry took, or raised, exactly what was owed when it was made. */
  predicate Settles(p: DnsPolicy, d: Debt, e: LogEntry) {
    match e
    case Crossed(rose, forceRose) => rose == !d.flush && forceRose == (p.guard.action == ForceLookup && !d.force)
    case Peeked(took, looks) => took == d.force && (took && Refreshing(p.mode) ==> looks)
    case Prepared(fired, flushed) => fired == d.flush && (fired ==> flushed)
    case Refused => true
  }

  predicate Faithful(p: DnsPolicy, log: seq<LogEntry>) {
    log == [] || (Faithful(p, Front(log)) && Settles(p, Owed(p, Front(log)), Last(log)))
  }

  predicate InStep(p: DnsPolicy, s: State) {
    && Faithful(p, s.log)
    && Owed(p, s.log) == Debt(s.shared.triggered, s.shared.forceLookup)
    && (s.shared.triggered ==> p.guard.Enabled())
  }

  lemma FaithfulSnoc(p: DnsPolicy, log: seq<LogEntry>, e: LogEntry)
    requires Faithful(p, log) && Settles(p, Owed(p, log), e)
    ensures Faithful(p, log + [e]) && Owed(p, log + [e]) == Incur(p, Owed(p, log), e)
  {
    FrontOfSnoc(log, e);
  }

  lemma InStepKept(p: DnsPolicy, s: State, a: Action)
    requires Enabled(p, s, a) && InStep(p, s)
    ensures InStep(p, Do(p, s, a))
  {
    var s' := Do(p, s, a);
    if |s'.log| > |s.log| {
      FaithfulSnoc(p, s.log, s'.log[|s.log|]);
    } else {
      assert s'.log == s.log;
    }
  }

  lemma {:induction false} InStepAlong(p: DnsPolicy, s: State, acts: seq<Action>)
    requires Runs(p, s, acts) && InStep(p, s)
    ensures InStep(p, After(p, s, acts))
    decreases acts
  {
    if acts != [] {
      InStepKept(p, s, acts[0]);
      InStepAlong(p, Do(p, s, acts[0]), acts[1..]);
    }
  }

  function Rises(log: seq<LogEntry>): nat {
    if log == [] then 0 else Rises(Front(log)) + if Last(log).Crossed? && Last(log).rose then 1 else 0
  }

  function Fires(log: seq<LogEntry>): nat {
    if log == [] then 0 else Fires(Front(log)) + if Last(log).Prepared? && Last(log).fired then 1 else 0
  }

  function ForceRises(log: seq<LogEntry>): nat {
    if log == [] then 0 else ForceRises(Front(log)) + if Last(log).Crossed? && Last(log).forceRose then 1 else 0
  }

  function ForcesTaken(log: seq<LogEntry>): nat {
    if log == [] then 0 else ForcesTaken(Front(log)) + if Last(log).Peeked? && Last(log).took then 1 else 0
  }

  lemma {:induction false} FaithfulConserves(p: DnsPolicy, log: seq<LogEntry>)
    requires Faithful(p, log)
    ensures Rises(log) == Fires(log) + if Owed(p, log).flush then 1 else 0
    ensures Refreshing(p.mode) ==> ForceRises(log) == ForcesTaken(log) + if Owed(p, log).force then 1 else 0
  {
    if log != [] {
      FaithfulConserves(p, Front(log));
    }
  }

  /** Whatever the interleaving, every rise of the trigger is consumed into one GuardRailTriggered
      decision or is still pending; and every rise of the force flag is taken by one first section,
      which then looks up, or is still pending. */
  lemma TriggersConserved(p: DnsPolicy, s: State)
    requires Reachable(p, s)
    ensures Rises(s.log) == Fires(s.log) + (if s.shared.triggered then 1 else 0)
    ensures Refreshing(p.mode) ==>
      ForceRises(s.log) == ForcesTaken(s.log) + (if s.shared.forceLookup then 1 else 0)
  {
    var acts :| Runs(p, BEGINNING, acts) && After(p, BEGINNING, acts) == s;
    InStepAlong(p, BEGINNING, acts);
    FaithfulConserves(p, s.log);
  }

  lemma {:induction false} OwedSince(p: DnsPolicy, log: seq<LogEntry>, i: nat)
    requires i < |log| && log[i].Crossed? && forall m :: i < m < |log| ==> !log[m].Prepared?
    ensures Owed(p, log).flush
  {
    if i < |log| - 1 {
      OwedSince(p, Front(log), i);
    }
  }

  lemma {:induction false} FaithfulPrefix(p: DnsPolicy, log: seq<LogEntry>, n: nat)
    requires Faithful(p, log) && n <= |log|
    ensures Faithful(p, log[..n])
    decreases |log|
  {
    if n < |log| {
      FaithfulPrefix(p, Front(log), n);
      assert Front(log)[..n] == log[..n];
    } else {
      assert log[..n] == log;
    }
  }

  lemma {:induction false} PassedKept(p: DnsPolicy, s: State, acts: seq<Action>, r: nat)
    requires Runs(p, s, acts) && r in s.reqs && s.reqs[r].Passed? && Prepare(r) !in acts
    ensures r in After(p, s, acts).reqs && After(p, s, acts).reqs[r] == s.reqs[r]
    decreases acts
  {
    if acts != [] {
      assert acts[0] in acts;
      PassedKept(p, Do(p, s, acts[0]), acts[1..], r);
    }
  }

  /** A request whose lookup succeeded is dialled to the head of that answer and flushes the idle
      connections when it is prepared, whatever happens in between. */
  lemma AnswerFlushes(p: DnsPolicy, s: State, r: nat, acts: seq<Action>)
    requires Enabled(p, s, Finish(r)) && s.reqs[r].reply.Answer?
    requires Runs(p, Do(p, s, Finish(r)), acts) && Prepare(r) !in acts
    ensures var s' := After(p, Do(p, s, Finish(r)), acts);
            && Enabled(p, s', Prepare(r)) && s'.reqs[r].addr == s.reqs[r].reply.addrs[0]
            && Last(Do(p, s', Prepare(r)).log).Prepared? && Last(Do(p, s', Prepare(r)).log).flushed
  {
    PassedKept(p, Do(p, s, Finish(r)), acts, r);
  }

  /** The first request prepared without error after a crossing reports it and flushes the idle
      connections, however many requests failed in between. */
  lemma FirstPreparedFlushes(p: DnsPolicy, s: State, i: nat, j: nat)
    requires Reachable(p, s) && i < j < |s.log| && s.log[i].Crossed? && s.log[j].Prepared?
    requires forall m :: i < m < j ==> !s.log[m].Prepared?
    ensures s.log[j].fired && s.log[j].flushed
  {
    var acts :| Runs(p, BEGINNING, acts) && After(p, BEGINNING, acts) == s;
    InStepAlong(p, BEGINNING, acts);
    FaithfulPrefix(p, s.log, j + 1);
    assert Front(s.log[..j + 1]) == s.log[..j] && Last(s.log[..j + 1]) == s.log[j];
    OwedSince(p, s.log[..j], i);
  }

  // ---------------------------------------------------------------------------
  // Agreement with the sequential manager
  // ---------------------------------------------------------------------------

  /** Request r runs from start to finish with nobody else moving, its lookup answered by `reply`. */
  predicate Undisturbed(p: DnsPolicy, s: State, r: nat, reply: Reply, end: State) {
    && Enabled(p, s, Enter(r))
    && var s1 := Do(p, s, Enter(r));
    && Enabled(p, s1, Peek(r))
    && var s2 := Do(p, s1, Peek(r));
    && Enabled(p, s2, Join(r))
    && var s3 := Do(p, s2, Join(r));
    && Enabled(p, s3, Land(reply))
    && var s4 := Do(p, s3, Land(reply));
    && Enabled(p, s4, Hear(r))
    && var s5 := Do(p, s4, Hear(r));
    && Enabled(p, s5, Finish(r))
    && end == Do(p, s5, Finish(r))
  }

  lemma UndisturbedResolve(p: DnsPolicy, s: State, r: nat, reply: Reply) returns (end: State)
    requires Caching(p.mode) && MustLook(p, s.shared, s.clock)
    requires r !in s.reqs && s.current.None? && s.clock > 0 && (reply.Answer? ==> reply.addrs != [])
    ensures Undisturbed(p, s, r, reply, end) && end.shared == AfterResolve(p, s.shared, s.clock, Some(reply))
    ensures end.current.None? && end.clock == s.clock
  {
    var s1 := Do(p, s, Enter(r));
    var s2 := Do(p, s1, Peek(r));
    var s3 := Do(p, s2, Join(r));
    var s4 := Do(p, s3, Land(reply));
    var s5 := Do(p, s4, Hear(r));
    end := Do(p, s5, Finish(r));
  }

  /** The same for a request that is served from the cache. */
  predicate UndisturbedHit(p: DnsPolicy, s: State, r: nat, end: State) {
    && Enabled(p, s, Enter(r))
    && var s1 := Do(p, s, Enter(r));
    && Enabled(p, s1, Peek(r))
    && end == Do(p, s1, Peek(r)) && end.reqs[r].Passed?
  }

  lemma UndisturbedPeek(p: DnsPolicy, s: State, r: nat) returns (end: State)
    requires Caching(p.mode) && !MustLook(p, s.shared, s.clock) && s.shared.cache.addrs != []
    requires r !in s.reqs && s.current.None?
    ensures UndisturbedHit(p, s, r, end) && end.shared == AfterResolve(p, s.shared, s.clock, None)
    ensures end.reqs[r] == Passed(s.shared.cache.addrs[0], false) && end.current.None? && end.clock == s.clock
  {
    end := Do(p, Do(p, s, Enter(r)), Peek(r));
  }

  /** One resolve at `now` with this reply is legal after the history and leaves the state prescribed. */
  lemma ResolveIsEvent(p: DnsPolicy, h: Hist, now: Time, reply: Option<Reply>)
    requires Caching(p.mode) && Legal(p, h) && now > 0 && (reply.Some? <==> NeedsLookup(p, h, now))
    requires reply.Some? && reply.value.Answer? ==> reply.value.addrs != []
    ensures Legal(p, h + [Resolved(now, reply)])
    ensures AfterResolve(p, StateOf(p, h), now, reply) == StateOf(p, h + [Resolved(now, reply)])
  {
    ResolveRefines(p, h, now, reply);
    FrontOfSnoc(h, Resolved(now, reply));
  }

  /** A request nobody overtakes leaves the guarded state the sequential history prescribes: when the
      reference rule asks for a lookup, and `reply` answers it, its steps compose to one resolve of the
      manager, */
  lemma UndisturbedIsSequential(p: DnsPolicy, s: State, h: Hist, r: nat, reply: Reply) returns (end: State)
    requires Caching(p.mode) && Legal(p, h) && s.shared == StateOf(p, h) && NeedsLookup(p, h, s.clock)
    requires r !in s.reqs && s.current.None? && s.clock > 0 && (reply.Answer? ==> reply.addrs != [])
    ensures Undisturbed(p, s, r, reply, end) && end.current.None? && end.clock == s.clock
    ensures var h' := h + [Resolved(s.clock, Some(reply))]; Legal(p, h') && end.shared == StateOf(p, h')
  {
    MustLookIffNeeded(p, h, s.clock);
    ResolveIsEvent(p, h, s.clock, Some(reply));
    end := UndisturbedResolve(p, s, r, reply);
  }

  /** and so they do when it asks for none: the request passes with the head of the last answer. */
  lemma CachedIsSequential(p: DnsPolicy, s: State, h: Hist, r: nat) returns (end: State)
    requires Caching(p.mode) && Legal(p, h) && s.shared == StateOf(p, h) && !NeedsLookup(p, h, s.clock)
    requires r !in s.reqs && s.current.None? && s.clock > 0
    ensures UndisturbedHit(p, s, r, end) && end.current.None? && end.clock == s.clock
    ensures var h' := h + [Resolved(s.clock, None)]; Legal(p, h') && end.shared == StateOf(p, h')
    ensures var g := LastGood(h).value; g.addrs != [] && end.reqs[r] == Passed(g.addrs[0], false)
  {
    MustLookIffNeeded(p, h, s.clock);
    ResolveIsEvent(p, h, s.clock, None);
    LastGoodLegal(p, h);
    end := UndisturbedPeek(p, s, r);
  }

  /** Preparing a request and reporting an outcome are single sections, whoever else is on the way: each
      is one event of the history. */
  lemma SectionsAreEvents(p: DnsPolicy, s: State, h: Hist, a: Action)
    requires Legal(p, h) && s.shared == StateOf(p, h) && Enabled(p, s, a) && (a.Prepare? || a.Report?)
    ensures var h' := h + [if a.Prepare? then Consumed else Observed(a.o)];
            Legal(p, h') && Do(p, s, a).shared == StateOf(p, h')
    ensures a.Prepare? ==>
      Last(Do(p, s, a).log) == Prepared(TriggerPending(p, h), TriggerPending(p, h) || s.reqs[a.r].forceNewConn)
  {
    NothingActs(p, h);
    if a.Prepare? {
      ConsumeRefines(p, h);
      FrontOfSnoc(h, Consumed);
    } else {
      ObserveRefines(p, h, a.o);
      FrontOfSnoc(h, Observed(a.o));
    }
  }
}
