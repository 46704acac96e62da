/** dns_policy_manager.go: the policy manager as an object. Its fields are tied to the history of what
    it has been through; every contract speaks of that history. */
module Manager {
  import opened Basics
  import opened Policy
  import opened GuardRail
  import opened History
  import opened LockSections

  datatype Decision = Decision(
    host: string,
    mode: Mode,
    addrs: seq<Addr>,
    ttl: Duration,
    expiresAt: Time,
    took: Duration,
    guardTriggered: bool,
    err: Option<Error>,
    fallbackUsed: bool)

  datatype Outcome = Outcome(
    address: Option<Target>,
    forceNewConn: bool,
    decision: Option<Decision>,
    fallbackErr: Option<Error>)

  const NO_OUTCOME := Outcome(None, false, None, None)

  /** What the resolver, or the caller's own cancellation, hands to a lookup that is attempted. */
  datatype RawReply =
    | Delivered(addrs: seq<Addr>, ttl: Duration, took: Duration)
    | ResolverFailed(err: Error)
    | CallerCancelled(err: Error)

  /** An answer without addresses is a failure; any other failure is the one that was met. */
  function Lookup(raw: RawReply): (r: Reply)
    ensures r.Answer? <==> raw.Delivered? && raw.addrs != []
    ensures r.Answer? ==> r == Answer(raw.addrs, raw.ttl, raw.took)
    ensures r.Failure? ==> r.err == if raw.Delivered? then "resolver returned no addresses" else raw.err
  {
    match raw
    case Delivered(addrs, ttl, took) =>
      if addrs == [] then Failure("resolver returned no addresses") else Answer(addrs, ttl, took)
    case ResolverFailed(e) => Failure(e)
    case CallerCancelled(e) => Failure(e)
  }

  datatype Url = Url(scheme: string, host: string, port: string)

  function PortOf(u: Url): Option<string> {
    if u.port != "" then Some(u.port)
    else if u.scheme == "http" then Some("80")
    else if u.scheme == "https" then Some("443")
    else None
  }

  /** The port a URL is dialled at: its own, or 80 for http and 443 for https; no other scheme has one. */
  lemma PortIs(u: Url)
    ensures u.port != "" ==> PortOf(u) == Some(u.port)
    ensures u.port == "" && u.scheme == "http" ==> PortOf(u) == Some("80")
    ensures u.port == "" && u.scheme == "https" ==> PortOf(u) == Some("443")
    ensures u.port == "" && u.scheme != "http" && u.scheme != "https" ==> PortOf(u).None?
  {
  }

  /** The reply a resolve at `now` gets, if the reference rule has it attempt a lookup. */
  function Attempt(p: DnsPolicy, h: Hist, now: Time, raw: RawReply): Option<Reply> {
    if NeedsLookup(p, h, now) then Some(Lookup(raw)) else None
  }

  /** The decision for a request served by the answer the history holds. */
  function FromHistory(p: DnsPolicy, g: Good, host: string, err: Option<Error>): Decision {
    Decision(host, p.mode, g.addrs, if p.mode == TTL then p.Lifetime(g.ttl) else 0, Expiry(p, g), 0, false, err, false)
  }

  /** What a resolve in a caching mode tells its caller, from the history before it. */
  function Told(p: DnsPolicy, h: Hist, host: string, port: string, now: Time, reply: Option<Reply>)
    : (Outcome, Option<Error>)
    requires Legal(p, h) && (reply.None? ==> LastGood(h).Some?)
    requires reply.Some? && reply.value.Answer? ==> reply.value.addrs != []
  {
    match reply
    case None =>
      var g := LastGood(h).value;
      LastGoodLegal(p, h);
      (Outcome(Some(Target(g.addrs[0], port)), false, Some(FromHistory(p, g, host, None)), None), None)
    case Some(Answer(addrs, ttl, took)) =>
      var shown := if p.mode == TTL then p.NormalizeTTL(ttl) else ttl;
      var d := Decision(host, p.mode, addrs, shown, Expiry(p, Good(now, addrs, ttl)), took, false, None, false);
      (Outcome(Some(Target(addrs[0], port)), true, Some(d), None), None)
    case Some(Failure(e)) =>
      if LastGood(h).Some? && Refreshing(p.mode) && p.FallbackEnabled() then
        var g := LastGood(h).value;
        LastGoodLegal(p, h);
        (Outcome(Some(Target(g.addrs[0], port)), false, Some(FromHistory(p, g, host, Some(e))), Some(e)), None)
      else
        (NO_OUTCOME.(decision := Some(Decision(host, p.mode, [], 0, 0, 0, false, Some(e), false))), Some(e))
  }

  /** The same, as the manager reads it off its fields. */
  function Reported(p: DnsPolicy, s: Shared, host: string, port: string, now: Time, reply: Option<Reply>)
    : (Outcome, Option<Error>)
    requires reply.None? ==> s.cache.addrs != []
    requires reply.Some? && reply.value.Answer? ==> reply.value.addrs != []
  {
    match reply
    case None => (Outcome(Some(Target(s.cache.addrs[0], port)), false, Some(FromCache(p, s, host, None)), None), None)
    case Some(Answer(addrs, ttl, took)) =>
      var after := Install(p, s, now, addrs, ttl);
      var shown := if p.mode == TTL then p.NormalizeTTL(ttl) else ttl;
      var d := Decision(host, p.mode, addrs, shown, RunsOut(p, after), took, false, None, false);
      (Outcome(Some(Target(addrs[0], port)), true, Some(d), None), None)
    case Some(Failure(e)) =>
      if s.cache.addrs != [] && Refreshing(p.mode) && p.FallbackEnabled() then
        (Outcome(Some(Target(s.cache.addrs[0], port)), false, Some(FromCache(p, s, host, Some(e))), Some(e)), None)
      else
        (NO_OUTCOME.(decision := Some(Decision(host, p.mode, [], 0, 0, 0, false, Some(e), false))), Some(e))
  }

  function RunsOut(p: DnsPolicy, s: Shared): Time {
    match p.mode
    case TTL => s.cache.expiresAt
    case Cadence => s.cadenceNext
    case _ => 0
  }

  function FromCache(p: DnsPolicy, s: Shared, host: string, err: Option<Error>): Decision {
    var ttl := if p.mode == TTL then Max(0, s.cache.expiresAt - s.cache.lastLookup) else 0;
    Decision(host, p.mode, s.cache.addrs, ttl, RunsOut(p, s), 0, false, err, false)
  }

  /** Reading the answer off the fields is reading it off the history. */
  lemma ReportedIsTold(p: DnsPolicy, h: Hist, host: string, port: string, now: Time, reply: Option<Reply>)
    requires Legal(p, h) && Caching(p.mode)
    requires reply.None? ==> LastGood(h).Some?
    requires reply.Some? && reply.value.Answer? ==> reply.value.addrs != []
    ensures LastGood(h).Some? <==> StateOf(p, h).cache.addrs != []
    ensures Reported(p, StateOf(p, h), host, port, now, reply) == Told(p, h, host, port, now, reply)
  {
    if LastGood(h).Some? {
      LastGoodLegal(p, h);
    }
  }

  /** The events one resolve adds: none outside the caching modes. */
  function ResolveTrail(p: DnsPolicy, h: Hist, now: Time, raw: RawReply): Hist {
    if Caching(p.mode) then [Resolved(now, Attempt(p, h, now, raw))] else []
  }

  function ResolveTold(p: DnsPolicy, h: Hist, host: string, port: string, now: Time, raw: RawReply)
    : (Outcome, Option<Error>)
    requires Legal(p, h)
  {
    match p.mode
    case Default => (NO_OUTCOME, None)
    case Static =>
      if p.staticAddr.None? then (NO_OUTCOME, Some("static address missing"))
      else
        var d := Decision(host, Static, [p.staticAddr.value.addr], 0, 0, 0, false, None, false);
        (NO_OUTCOME.(address := p.staticAddr, decision := Some(d)), None)
    case Unsupported => (NO_OUTCOME, Some("unsupported DNS mode"))
    case _ => Told(p, h, host, port, now, Attempt(p, h, now, raw))
  }

  /** A request that resolved to neither an error nor a fallback. */
  predicate Forwarded(r: (Outcome, Option<Error>)) { r.1.None? && r.0.fallbackErr.None? }

  /** The error of a request that was not forwarded. */
  function RefusedFor(r: (Outcome, Option<Error>)): Option<Error> {
    if r.1.Some? then r.1 else r.0.fallbackErr
  }

  /** The decision kept for a request that was not forwarded: its own, if its resolve reported one. */
  function RefusedWith(r: (Outcome, Option<Error>), last: Option<Decision>): Option<Decision> {
    if r.0.decision.None? then last
    else if r.1.Some? then r.0.decision
    else Some(r.0.decision.value.(fallbackUsed := true))
  }

  /** The documentation says that a request whose lookup failed completes with the cached address. It
      never does: a request in a caching mode is forwarded exactly when it attempted no lookup or its
      lookup succeeded. With a fallback it only reports the cached address. */
  lemma ForwardedIff(p: DnsPolicy, h: Hist, host: string, port: string, now: Time, raw: RawReply)
    requires Legal(p, h) && Caching(p.mode)
    ensures var r := ResolveTold(p, h, host, port, now, raw);
            && (Forwarded(r) <==> !NeedsLookup(p, h, now) || Lookup(raw).Answer?)
            && (!Forwarded(r) && LastGood(h).Some? && Refreshing(p.mode) && !p.disableFallback ==>
                 && r.0.fallbackErr == Some(Lookup(raw).err)
                 && LastGood(h).value.addrs != []
                 && r.0.address == Some(Target(LastGood(h).value.addrs[0], port)))
  {
    if LastGood(h).Some? {
      LastGoodLegal(p, h);
    }
  }

  /** A request for which no lookup is due is dialled to the head of the last answer, forces nothing, and
      shows that answer with what is left of it to the policy: its expiry, and in TTL mode its lifetime. */
  lemma CachedOutcome(p: DnsPolicy, h: Hist, host: string, port: string, now: Time, raw: RawReply)
    requires Legal(p, h) && Caching(p.mode) && !NeedsLookup(p, h, now)
    ensures LastGood(h).Some? && LastGood(h).value.addrs != []
    ensures var r, g := ResolveTold(p, h, host, port, now, raw), LastGood(h).value;
            && r.1.None? && r.0.fallbackErr.None? && !r.0.forceNewConn
            && r.0.address == Some(Target(g.addrs[0], port))
            && r.0.decision.Some?
            && var d := r.0.decision.value;
            && d.host == host && d.mode == p.mode && d.addrs == g.addrs && d.took == 0
            && d.err.None? && !d.guardTriggered && !d.fallbackUsed
            && (p.mode == SingleLookup ==> d.ttl == 0 && d.expiresAt == 0)
            && (p.mode == Cadence ==> d.ttl == 0 && d.expiresAt == g.at + p.cadence)
            && (p.mode == TTL ==> d.ttl == Max(0, p.NormalizeTTL(g.ttl)) && d.expiresAt == g.at + d.ttl)
  {
    LastGoodLegal(p, h);
  }

  /** A request whose lookup brings an answer is dialled to the head of it over a new connection, and shows
      it with the TTL the policy makes of the answer's own in TTL mode, and that very TTL otherwise. */
  lemma FreshOutcome(p: DnsPolicy, h: Hist, host: string, port: string, now: Time, raw: RawReply)
    requires Legal(p, h) && Caching(p.mode) && NeedsLookup(p, h, now) && raw.Delivered? && raw.addrs != []
    ensures var r := ResolveTold(p, h, host, port, now, raw);
            && r.1.None? && r.0.fallbackErr.None? && r.0.forceNewConn
            && r.0.address == Some(Target(raw.addrs[0], port))
            && r.0.decision.Some?
            && var d := r.0.decision.value;
            && d.host == host && d.mode == p.mode && d.addrs == raw.addrs && d.took == raw.took
            && d.err.None? && !d.guardTriggered && !d.fallbackUsed
            && (p.mode == SingleLookup ==> d.ttl == raw.ttl && d.expiresAt == 0)
            && (p.mode == Cadence ==> d.ttl == raw.ttl && d.expiresAt == now + p.cadence)
            && (p.mode == TTL ==> d.ttl == p.NormalizeTTL(raw.ttl) && d.expiresAt == now + Max(0, d.ttl))
  {
  }

  /** A request whose lookup fails: in a refreshing mode, with an answer at hand and the fallback not
      disabled, there is no error of its own; the lookup's is the fallback's, and the address is the head of
      that answer. In every other case the lookup's error is its own, and there is no address. Either way a
      decision with that error is what remains. */
  lemma FailedOutcome(p: DnsPolicy, h: Hist, host: string, port: string, now: Time, raw: RawReply)
    requires Legal(p, h) && Caching(p.mode) && NeedsLookup(p, h, now) && !(raw.Delivered? && raw.addrs != [])
    ensures var r, e := ResolveTold(p, h, host, port, now, raw), Lookup(raw).err;
            && !r.0.forceNewConn
            && (forall last :: RefusedWith(r, last).Some?)
            && (if (p.mode == TTL || p.mode == Cadence) && LastGood(h).Some? && !p.disableFallback then
                  var g := LastGood(h).value;
                  && r.1.None? && r.0.fallbackErr == Some(e)
                  && g.addrs != [] && r.0.address == Some(Target(g.addrs[0], port))
                  && (forall last :: var d := RefusedWith(r, last).value;
                       && d.host == host && d.mode == p.mode && d.addrs == g.addrs && d.took == 0
                       && d.err == Some(e) && !d.guardTriggered && d.fallbackUsed
                       && (p.mode == Cadence ==> d.ttl == 0 && d.expiresAt == g.at + p.cadence)
                       && (p.mode == TTL ==> d.ttl == Max(0, p.NormalizeTTL(g.ttl)) && d.expiresAt == g.at + d.ttl))
                else
                  && r.1 == Some(e) && r.0.fallbackErr.None? && r.0.address.None?
                  && (forall last ::
                       RefusedWith(r, last) == Some(Decision(host, p.mode, [], 0, 0, 0, false, Some(e), false))))
  {
    if LastGood(h).Some? {
      LastGoodLegal(p, h);
    }
  }

  /** Outside the caching modes a resolve fails exactly on the policies Validate refuses, without a decision;
      the default mode dials the URL itself, the static mode its address. */
  lemma PolicyErrorsIffInvalid(p: DnsPolicy, h: Hist, host: string, port: string, now: Time, raw: RawReply)
    requires Legal(p, h) && !Caching(p.mode)
    ensures var r := ResolveTold(p, h, host, port, now, raw);
            && (Forwarded(r) <==> p.Valid())
            && (r.1.Some? <==> p.mode == Unsupported || (p.mode == Static && p.staticAddr.None?))
            && r.0.fallbackErr.None? && !r.0.forceNewConn
            && (r.1.Some? ==> r.0.address.None? && r.0.decision.None?)
            && (p.mode == Default ==> r.0.address.None? && r.0.decision.None?)
            && (p.mode == Static && p.Valid() ==>
                 && r.0.address == p.staticAddr
                 && r.0.decision ==
                      Some(Decision(host, Static, [p.staticAddr.value.addr], 0, 0, 0, false, None, false)))
  {
  }

  /** A request is forwarded over new connections of its own accord exactly when its lookup was due and
      succeeded; what it is dialled to outside the static mode has the port it was asked for. */
  lemma ForcesIffAnswered(p: DnsPolicy, h: Hist, host: string, port: string, now: Time, raw: RawReply)
    requires Legal(p, h)
    ensures ResolveTold(p, h, host, port, now, raw).0.address.Some? && p.mode != Static ==>
      ResolveTold(p, h, host, port, now, raw).0.address.value.port == port
    ensures ResolveTold(p, h, host, port, now, raw).0.forceNewConn <==>
            Caching(p.mode) && NeedsLookup(p, h, now) && raw.Delivered? && raw.addrs != []
  {
  }

  /** Where the history says a forwarded request must be dialled. */
  function CurrentTarget(p: DnsPolicy, h: Hist, u: Url): Option<Target> {
    match p.mode
    case Default => if PortOf(u).Some? then Some(Target(u.host, PortOf(u).value)) else None
    case Static => p.staticAddr
    case Unsupported => None
    case _ =>
      if LastGood(h).Some? && LastGood(h).value.addrs != [] && PortOf(u).Some?
      then Some(Target(LastGood(h).value.addrs[0], PortOf(u).value)) else None
  }

  /** The idle connections of an http.Transport, by the address each was dialled to. */
  class Transport {
    var idle: multiset<Target>

    constructor ()
      ensures idle == multiset{}
    {
      idle := multiset{};
    }

    method CloseIdleConnections()
      modifies this
      ensures idle == multiset{}
    {
      idle := multiset{};
    }

    /** Sends one request: over some idle connection or a new one to `target`, which is afterwards
        idle or closed. Idle connections may also be dropped at any time. */
    method Carry(target: Target) returns (used: Target, result: NetResult)
      modifies this
      ensures used == target || used in old(idle)
      ensures idle <= old(idle) + multiset{used}
    {
      used := target;
      var reuse: bool, keep: bool, code: int, failed: bool := *, *, *, *;
      if reuse && idle != multiset{} {
        used :| used in idle;
        idle := idle - multiset{used};
      }
      if keep {
        idle := idle + multiset{used};
      }
      result := if failed then NetError("transport error") else Status(code);
    }
  }

  datatype NetResult = Status(code: int) | NetError(err: Error)

  const SERVER_ERROR_THRESHOLD := 500

  predicate FailedResult(r: NetResult) { r.NetError? || r.code >= SERVER_ERROR_THRESHOLD }

  class PolicyManager {
    const policy: DnsPolicy
    const hooked: bool

    var cache: Entry
    var cadenceNext: Time
    var forceLookup: bool
    var count: int
    var firstFailure: Time
    var lastFailure: Time
    var triggered: bool
    var lastDecision: Option<Decision>
    /** The decisions handed to the hook so far. */
    var hookCalls: seq<Decision>

    ghost var history: Hist

    ghost function View(): Shared
      reads this
    {
      Shared(cache, cadenceNext, forceLookup, Counter(count, firstFailure, lastFailure), triggered)
    }

    /** The fields are what the history prescribes, and the history followed the reference rule. */
    ghost predicate Valid()
      reads this
    {
      Legal(policy, history) && View() == StateOf(policy, history)
    }

    constructor (policy: DnsPolicy, hooked: bool)
      ensures Valid() && history == [] && this.policy == policy && this.hooked == hooked
      ensures lastDecision == None && hookCalls == []
      ensures cache == Entry([], 0, 0) && cadenceNext == 0 && !forceLookup
      ensures count == 0 && firstFailure == 0 && lastFailure == 0 && !triggered
    {
      this.policy, this.hooked := policy, hooked;
      cache, cadenceNext, forceLookup := NO_ENTRY, 0, false;
      count, firstFailure, lastFailure, triggered := 0, 0, 0, false;
      lastDecision, hookCalls := None, [];
      history := [];
    }

    /** Records one resolve once the fields already reflect it. */
    ghost method Record(before: Shared, now: Time, reply: Option<Reply>)
      requires Legal(policy, history) && before == StateOf(policy, history)
      requires LegalStep(policy, history, Resolved(now, reply))
      requires View() == AfterResolve(policy, before, now, reply)
      modifies `history
      ensures Valid() && history == old(history) + [Resolved(now, reply)]
    {
      ResolveRefines(policy, history, now, reply);
      FrontOfSnoc(history, Resolved(now, reply));
      history := history + [Resolved(now, reply)];
    }

    method ResolveSingle(host: string, port: string, now: Time, raw: RawReply)
      returns (outcome: Outcome, err: Option<Error>)
      requires Valid() && policy.mode == SingleLookup && now > 0
      modifies `cache, `history
      ensures Valid() && history == old(history) + ResolveTrail(policy, old(history), now, raw)
      ensures (outcome, err) == Told(policy, old(history), host, port, now, Attempt(policy, old(history), now, raw))
    {
      ghost var before := View();
      ghost var attempt := Attempt(policy, history, now, raw);
      MustLookIffNeeded(policy, history, now);
      ReportedIsTold(policy, history, host, port, now, attempt);
      var cached := cache;
      if |cached.addrs| > 0 {
        outcome := Outcome(Some(Target(cached.addrs[0], port)), false,
          Some(Decision(host, policy.mode, cached.addrs, 0, 0, 0, false, None, false)), None);
        err := None;
        Record(before, now, None);
        return;
      }
      var reply := Lookup(raw);
      if reply.Failure? {
        err := Some(reply.err);
        outcome := NO_OUTCOME.(decision := Some(Decision(host, policy.mode, [], 0, 0, 0, false, err, false)));
      } else {
        cache := Entry(reply.addrs, 0, now);
        outcome := Outcome(Some(Target(reply.addrs[0], port)), true,
          Some(Decision(host, policy.mode, reply.addrs, reply.ttl, 0, reply.took, false, None, false)), None);
        err := None;
      }
      Record(before, now, Some(reply));
    }

    method ResolveTTL(host: string, port: string, now: Time, raw: RawReply)
      returns (outcome: Outcome, err: Option<Error>)
      requires Valid() && policy.mode == TTL && now > 0
      modifies `cache, `forceLookup, `history
      ensures Valid() && history == old(history) + ResolveTrail(policy, old(history), now, raw)
      ensures (outcome, err) == Told(policy, old(history), host, port, now, Attempt(policy, old(history), now, raw))
    {
      ghost var before := View();
      ghost var attempt := Attempt(policy, history, now, raw);
      MustLookIffNeeded(policy, history, now);
      ReportedIsTold(policy, history, host, port, now, attempt);
      var cached := cache;
      var force := forceLookup || |cached.addrs| == 0 || (cached.expiresAt != 0 && now > cached.expiresAt);
      forceLookup := false;

      if !force {
        var ttl := Max(0, cached.expiresAt - cached.lastLookup);
        outcome := Outcome(Some(Target(cached.addrs[0], port)), false,
          Some(Decision(host, policy.mode, cached.addrs, ttl, cached.expiresAt, 0, false, None, false)), None);
        err := None;
        Record(before, now, None);
        return;
      }

      var reply := Lookup(raw);
      if reply.Failure? {
        if |cached.addrs| > 0 && policy.FallbackEnabled() {
          var ttl := Max(0, cached.expiresAt - cached.lastLookup);
          outcome := Outcome(Some(Target(cached.addrs[0], port)), false,
            Some(Decision(host, policy.mode, cached.addrs, ttl, cached.expiresAt, 0, false, Some(reply.err), false)),
            Some(reply.err));
          err := None;
        } else {
          err := Some(reply.err);
          outcome := NO_OUTCOME.(decision := Some(Decision(host, policy.mode, [], 0, 0, 0, false, err, false)));
        }
        Record(before, now, Some(reply));
        return;
      }

      var ttl := policy.NormalizeTTL(reply.ttl);
      var entry := Entry(reply.addrs, if ttl <= 0 then now else now + ttl, now);
      cache := entry;
      outcome := Outcome(Some(Target(reply.addrs[0], port)), true,
        Some(Decision(host, policy.mode, reply.addrs, ttl, entry.expiresAt, reply.took, false, None, false)), None);
      err := None;
      Record(before, now, Some(reply));
    }

    method ResolveCadence(host: string, port: string, now: Time, raw: RawReply)
      returns (outcome: Outcome, err: Option<Error>)
      requires Valid() && policy.mode == Cadence && now > 0
      modifies `cache, `cadenceNext, `forceLookup, `history
      ensures Valid() && history == old(history) + ResolveTrail(policy, old(history), now, raw)
      ensures (outcome, err) == Told(policy, old(history), host, port, now, Attempt(policy, old(history), now, raw))
    {
      ghost var before := View();
      ghost var attempt := Attempt(policy, history, now, raw);
      MustLookIffNeeded(policy, history, now);
      ReportedIsTold(policy, history, host, port, now, attempt);
      var cached, next := cache, cadenceNext;
      var force := forceLookup || |cached.addrs| == 0 || (next != 0 && now > next);
      forceLookup := false;

      if !force && |cached.addrs| > 0 {
        outcome := Outcome(Some(Target(cached.addrs[0], port)), false,
          Some(Decision(host, policy.mode, cached.addrs, 0, next, 0, false, None, false)), None);
        err := None;
        Record(before, now, None);
        return;
      }

      var reply := Lookup(raw);
      if reply.Failure? {
        if |cached.addrs| > 0 && policy.FallbackEnabled() {
          outcome := Outcome(Some(Target(cached.addrs[0], port)), false,
            Some(Decision(host, policy.mode, cached.addrs, 0, next, 0, false, Some(reply.err), false)),
            Some(reply.err));
          err := None;
        } else {
          err := Some(reply.err);
          outcome := NO_OUTCOME.(decision := Some(Decision(host, policy.mode, [], 0, 0, 0, false, err, false)));
        }
        Record(before, now, Some(reply));
        return;
      }

      next := now + policy.cadence;
      cache, cadenceNext := Entry(reply.addrs, 0, now), next;
      outcome := Outcome(Some(Target(reply.addrs[0], port)), true,
        Some(Decision(host, policy.mode, reply.addrs, reply.ttl, next, reply.took, false, None, false)), None);
      err := None;
      Record(before, now, Some(reply));
    }

    method Resolve(host: string, port: string, now: Time, raw: RawReply)
      returns (outcome: Outcome, err: Option<Error>)
      requires Valid() && now > 0
      modifies `cache, `cadenceNext, `forceLookup, `history
      ensures Valid() && history == old(history) + ResolveTrail(policy, old(history), now, raw)
      ensures (outcome, err) == ResolveTold(policy, old(history), host, port, now, raw)
    {
      match policy.mode
      case Default => outcome, err := NO_OUTCOME, None;
      case Static =>
        if policy.staticAddr.None? {
          outcome, err := NO_OUTCOME, Some("static address missing");
        } else {
          var addr := policy.staticAddr.value;
          var d := Decision(host, policy.mode, [addr.addr], 0, 0, 0, false, None, false);
          outcome, err := Outcome(Some(addr), false, Some(d), None), None;
        }
      case SingleLookup => outcome, err := ResolveSingle(host, port, now, raw);
      case TTL => outcome, err := ResolveTTL(host, port, now, raw);
      case Cadence => outcome, err := ResolveCadence(host, port, now, raw);
      case Unsupported => outcome, err := NO_OUTCOME, Some("unsupported DNS mode");
    }

    /** Decides the dial target of one request. A request that ends in a DNS error or a fallback
        keeps a pending trigger pending and touches no connection; any other consumes it, and flushes
        the idle connections if there was one or if a lookup succeeded. */
    method PrepareRequest(u: Url, transport: Transport, now: Time, raw: RawReply)
      returns (plan: Option<Target>, told: Option<Decision>, force: bool, err: Option<Error>)
      requires Valid() && now > 0
      modifies `cache, `cadenceNext, `forceLookup, `triggered, `lastDecision, `hookCalls, `history, transport
      ensures Valid()
      ensures u.port == "" && u.scheme != "http" && u.scheme != "https" ==>
        && err.Some? && plan.None? && told.None? && !force && history == old(history)
      ensures plan.Some? && policy.mode != Static ==>
        && (u.port != "" ==> plan.value.port == u.port)
        && (u.port == "" && u.scheme == "http" ==> plan.value.port == "80")
        && (u.port == "" && u.scheme == "https" ==> plan.value.port == "443")
      ensures PortOf(u).None? ==>
        && err.Some? && plan.None? && told.None? && !force
        && history == old(history) && lastDecision == old(lastDecision) && hookCalls == old(hookCalls)
      ensures err.Some? ==> !force && transport.idle == old(transport.idle)
      ensures PortOf(u).Some? ==>
        var r := ResolveTold(policy, old(history), u.host, PortOf(u).value, now, raw);
        var trail := ResolveTrail(policy, old(history), now, raw);
        var fired := TriggerPending(policy, old(history));
        && (err.None? <==> Forwarded(r))
        && history == old(history) + trail + (if Forwarded(r) then [Consumed] else [])
        && (Forwarded(r) ==>
             && plan == r.0.address
             && force == (r.0.forceNewConn || fired)
             && (force <==> fired || (Caching(policy.mode) && NeedsLookup(policy, old(history), now)
                                      && raw.Delivered? && raw.addrs != []))
             && transport.idle == (if force then multiset{} else old(transport.idle))
             && lastDecision == old(lastDecision)
             && (told.Some? <==> r.0.decision.Some? || hooked || fired)
             && (told.Some? ==> told.value.guardTriggered == fired)
             && (r.0.decision.Some? ==> told == Some(r.0.decision.value.(guardTriggered := fired)))
             && hookCalls == old(hookCalls) + if hooked then [told.value] else [])
        && (!Forwarded(r) ==> err == RefusedFor(r) && lastDecision == RefusedWith(r, old(lastDecision)))
        && (r.1.Some? ==>
             && plan.None? && told.None?
             && hookCalls == old(hookCalls) + if hooked && r.0.decision.Some? then [r.0.decision.value] else [])
        && (r.0.fallbackErr.Some? ==>
             && plan == r.0.address && told == lastDecision && told.Some?
             && hookCalls == old(hookCalls) + if hooked then [told.value] else [])
    {
      plan, told, force, err := None, None, false, None;
      var port := PortOf(u);
      if port.None? {
        err := Some("cannot determine port for URL");
        return;
      }
      TriggerKept(policy, history, ResolveTrail(policy, history, now, raw));
      ToldShape(policy, history, u.host, port.value, now, raw);
      ForcesIffAnswered(policy, history, u.host, port.value, now, raw);
      var outcome, rerr := Resolve(u.host, port.value, now, raw);
      plan, told, force, err := Finish(u.host, outcome, rerr, transport);
    }

    /** What a preparation does with the outcome of its resolve. */
    method Finish(host: string, outcome: Outcome, rerr: Option<Error>, transport: Transport)
      returns (plan: Option<Target>, told: Option<Decision>, force: bool, err: Option<Error>)
      requires Valid() && WellShaped((outcome, rerr))
      modifies `triggered, `lastDecision, `hookCalls, `history, transport
      ensures Valid()
      ensures err.None? <==> Forwarded((outcome, rerr))
      ensures err.Some? ==> !force && transport.idle == old(transport.idle) && history == old(history)
      ensures err.None? ==>
        && history == old(history) + [Consumed] && lastDecision == old(lastDecision)
        && plan == outcome.address
        && force == (outcome.forceNewConn || TriggerPending(policy, old(history)))
        && transport.idle == (if force then multiset{} else old(transport.idle))
        && (told.Some? <==> outcome.decision.Some? || hooked || TriggerPending(policy, old(history)))
        && (told.Some? ==> told.value.guardTriggered == TriggerPending(policy, old(history)))
        && (outcome.decision.Some? ==>
             told == Some(outcome.decision.value.(guardTriggered := TriggerPending(policy, old(history)))))
        && hookCalls == old(hookCalls) + if hooked then [told.value] else []
      ensures err.Some? ==>
        && err == RefusedFor((outcome, rerr))
        && lastDecision == RefusedWith((outcome, rerr), old(lastDecision))
      ensures rerr.Some? ==>
        && plan.None? && told.None?
        && hookCalls == old(hookCalls) + if hooked && outcome.decision.Some? then [outcome.decision.value] else []
      ensures rerr.None? && outcome.fallbackErr.Some? ==>
        && plan == outcome.address && told == lastDecision && told.Some?
        && hookCalls == old(hookCalls) + if hooked then [told.value] else []
    {
      plan, told, force, err := None, None, false, None;
      if rerr.Some? {
        if outcome.decision.Some? {
          var d := outcome.decision.value.(err := rerr);
          lastDecision := Some(d);
          if hooked {
            hookCalls := hookCalls + [d];
          }
        }
        err := rerr;
        return;
      }
      if outcome.fallbackErr.Some? && outcome.decision.Some? {
        var d := outcome.decision.value.(fallbackUsed := true);
        lastDecision := Some(d);
        told, plan := Some(d), outcome.address;
        if hooked {
          hookCalls := hookCalls + [d];
        }
        force, err := outcome.forceNewConn, outcome.fallbackErr;
        return;
      }
      plan, told, force := Forward(host, outcome, transport);
    }

    /** The last part of a preparation that met neither an error nor a fallback. */
    method Forward(host: string, outcome: Outcome, transport: Transport)
      returns (plan: Option<Target>, told: Option<Decision>, force: bool)
      requires Valid()
      modifies `triggered, `hookCalls, `history, transport
      ensures Valid() && history == old(history) + [Consumed]
      ensures plan == outcome.address
      ensures force == (outcome.forceNewConn || TriggerPending(policy, old(history)))
      ensures transport.idle == if force then multiset{} else old(transport.idle)
      ensures told.Some? <==> outcome.decision.Some? || hooked || TriggerPending(policy, old(history))
      ensures outcome.decision.Some? && !outcome.decision.value.guardTriggered ==>
        told == Some(outcome.decision.value.(guardTriggered := TriggerPending(policy, old(history))))
      ensures outcome.decision.None? && told.Some? ==>
        told.value.guardTriggered == TriggerPending(policy, old(history))
      ensures hookCalls == old(hookCalls) + if hooked then [told.value] else []
    {
      var guardTriggered := ConsumeGuardTrigger();
      told := outcome.decision;
      if told.None? && (hooked || guardTriggered) {
        told := Some(Decision(host, policy.mode, [], 0, 0, 0, false, None, false));
      }
      force := outcome.forceNewConn;
      if guardTriggered && told.Some? {
        force := true;
        told := Some(told.value.(guardTriggered := true));
      }
      plan := outcome.address;
      if told.Some? && hooked {
        hookCalls := hookCalls + [told.value];
      }
      if force {
        transport.CloseIdleConnections();
      }
    }

    /** Takes the trigger; with an action configured, reports it. */
    method ConsumeGuardTrigger() returns (act: bool)
      requires Valid()
      modifies `triggered, `history
      ensures Valid() && history == old(history) + [Consumed]
      ensures act <==> TriggerPending(policy, old(history))
    {
      NothingActs(policy, history);
      act := false;
      if triggered {
        triggered := false;
        act := policy.guard.action != NoAction;
      }
      ConsumeRefines(policy, history);
      FrontOfSnoc(history, Consumed);
      history := history + [Consumed];
    }

    method ObserveResult(statusCode: int, failure: Option<Error>, now: Time)
      requires Valid() && now > 0
      modifies `count, `firstFailure, `lastFailure, `triggered, `forceLookup, `history
      ensures Valid()
      ensures history == old(history) +
        [Observed(Obs(now, failure.Some? || statusCode >= 500))]
    {
      ghost var o := Obs(now, failure.Some? || statusCode >= SERVER_ERROR_THRESHOLD);
      ObserveRefines(policy, history, o);
      FrontOfSnoc(history, Observed(o));
      if policy.guard.Enabled() {
        if failure.Some? || statusCode >= SERVER_ERROR_THRESHOLD {
          RegisterGuardFailure(now);
        } else {
          ResetGuard();
        }
      }
      history := history + [Observed(o)];
    }

    method RegisterGuardFailure(now: Time)
      modifies `count, `firstFailure, `lastFailure, `triggered, `forceLookup
      ensures View() == if policy.guard.Enabled() then CountFailure(policy.guard, old(View()), now) else old(View())
      ensures policy.guard.threshold <= 0 || policy.guard.action == NoAction ==> View() == old(View())
      ensures policy.guard.threshold > 0 && policy.guard.action != NoAction ==>
        var stale := old(firstFailure) == 0 ||
                      (policy.guard.window > 0 && now - old(firstFailure) > policy.guard.window);
        var counted := (if stale && policy.guard.window > 0 then 0 else old(count)) + 1;
        && lastFailure == now
        && (counted >= policy.guard.threshold ==>
             && count == 0 && firstFailure == 0 && triggered
             && forceLookup == (old(forceLookup) || policy.guard.action == ForceLookup))
        && (counted < policy.guard.threshold ==>
             && count == counted && firstFailure == (if stale then now else old(firstFailure))
             && triggered == old(triggered) && forceLookup == old(forceLookup))
    {
      var guard := policy.guard;
      if !guard.Enabled() {
        return;
      }
      if guard.window > 0 {
        if firstFailure == 0 || now - firstFailure > guard.window {
          count, firstFailure := 0, now;
        }
      } else if firstFailure == 0 {
        firstFailure := now;
      }
      count, lastFailure := count + 1, now;
      if count >= guard.threshold {
        triggered := true;
        count, firstFailure := 0, 0;
        if guard.action == ForceLookup {
          forceLookup := true;
        }
      }
    }

    method ResetGuard()
      modifies `count, `firstFailure, `lastFailure
      ensures View() == ClearCounter(old(View()))
    {
      count, firstFailure, lastFailure := 0, 0, 0;
    }
  }

  /** An error excludes a fallback, forces nothing and is the decision's own; a fallback reports a
      decision; no resolve reports the guard rail. */
  predicate WellShaped(r: (Outcome, Option<Error>)) {
    && (r.1.Some? ==> r.0.fallbackErr.None? && (r.0.decision.Some? ==> r.0.decision.value.err == r.1))
    && (r.0.fallbackErr.Some? ==> r.0.decision.Some? && !r.0.forceNewConn)
    && (r.0.decision.Some? ==> !r.0.decision.value.guardTriggered)
  }

  lemma ToldShape(p: DnsPolicy, h: Hist, host: string, port: string, now: Time, raw: RawReply)
    requires Legal(p, h)
    ensures WellShaped(ResolveTold(p, h, host, port, now, raw))
  {
    if Caching(p.mode) {
      AnswerShape(p, h, host, port, now, Attempt(p, h, now, raw));
    }
  }

  lemma AnswerShape(p: DnsPolicy, h: Hist, host: string, port: string, now: Time, reply: Option<Reply>)
    requires Legal(p, h) && (reply.None? ==> LastGood(h).Some?)
    requires reply.Some? && reply.value.Answer? ==> reply.value.addrs != []
    ensures WellShaped(Told(p, h, host, port, now, reply))
  {
  }

  /** A resolve leaves a pending trigger as it is. */
  lemma TriggerKept(p: DnsPolicy, h: Hist, trail: Hist)
    requires trail == [] || (|trail| == 1 && trail[0].Resolved?)
    ensures TriggerPending(p, h + trail) == TriggerPending(p, h)
  {
    if trail == [] {
      assert h + trail == h;
    } else {
      FrontOfSnoc(h, trail[0]);
    }
  }
}
