/** task_http.go and policyTransport: the loop from a request's outcome back to the policy manager. */
module Http {
  import opened Basics
  import opened Policy
  import opened GuardRail
  import opened History
  import opened Manager
  import opened Calls

  /** What a resolve in a caching mode tells is the current target after it; only an answer moves that. */
  lemma AnswerMoves(p: DnsPolicy, h: Hist, u: Url, now: Time, reply: Option<Reply>)
    requires Legal(p, h) && Caching(p.mode) && PortOf(u).Some?
    requires reply.None? ==> LastGood(h).Some?
    requires reply.Some? && reply.value.Answer? ==> reply.value.addrs != []
    ensures var r := Told(p, h, u.host, PortOf(u).value, now, reply);
            var h' := h + [Resolved(now, reply)];
            && (Forwarded(r) ==> r.0.address.Some? && r.0.address == CurrentTarget(p, h', u))
            && (!(Forwarded(r) && r.0.forceNewConn) ==> CurrentTarget(p, h', u) == CurrentTarget(p, h, u))
  {
    FrontOfSnoc(h, Resolved(now, reply));
    if LastGood(h).Some? {
      LastGoodLegal(p, h);
    }
  }

  /** Resolves keep the target of forwarded requests unless they bring a new answer, and a new answer
      always forces the idle connections out. */
  lemma TargetMoves(p: DnsPolicy, h: Hist, u: Url, now: Time, raw: RawReply)
    requires Legal(p, h) && now > 0 && PortOf(u).Some?
    ensures var r := ResolveTold(p, h, u.host, PortOf(u).value, now, raw);
            var h' := h + ResolveTrail(p, h, now, raw);
            && (Forwarded(r) ==>
                 && CurrentTarget(p, h', u).Some?
                 && (p.mode != Default ==> r.0.address == CurrentTarget(p, h', u))
                 && (p.mode == Default ==> r.0.address.None?))
            && (!(Forwarded(r) && r.0.forceNewConn) ==> CurrentTarget(p, h', u) == CurrentTarget(p, h, u))
  {
    if Caching(p.mode) {
      AnswerMoves(p, h, u, now, Attempt(p, h, now, raw));
    } else {
      assert h + [] == h;
    }
  }

  /** The current target: the head of the last answer, the static address, or the URL's own host; at the
      URL's own port, or else 80 for http and 443 for https, but for a static address. */
  lemma TargetIs(p: DnsPolicy, h: Hist, u: Url)
    requires Legal(p, h) && CurrentTarget(p, h, u).Some?
    ensures var t := CurrentTarget(p, h, u).value;
            && p.mode != Unsupported
            && (p.mode == Static ==> Some(t) == p.staticAddr)
            && (p.mode == Default ==> t.addr == u.host)
            && (Caching(p.mode) ==>
                 LastGood(h).Some? && LastGood(h).value.addrs != [] && t.addr == LastGood(h).value.addrs[0])
            && (p.mode != Static && u.port != "" ==> t.port == u.port)
            && (p.mode != Static && u.port == "" && u.scheme == "http" ==> t.port == "80")
            && (p.mode != Static && u.port == "" && u.scheme == "https" ==> t.port == "443")
  {
    PortIs(u);
  }

  lemma {:induction false} TargetIgnores(p: DnsPolicy, h: Hist, u: Url, e: Event)
    requires !e.Resolved?
    ensures CurrentTarget(p, h + [e], u) == CurrentTarget(p, h, u)
  {
    FrontOfSnoc(h, e);
  }

  /** All of these connections were dialled to that target. */
  predicate AllDialledTo(idle: multiset<Target>, target: Option<Target>) {
    forall t :: t in idle ==> Some(t) == target
  }

  /** A fired trigger is told, and told as such. */
  predicate ReportsTrigger(told: Option<Decision>, fired: bool) {
    (fired ==> told.Some?) && (told.Some? ==> told.value.guardTriggered == fired)
  }

  /** policyTransport, for the one URL its endpoint requests. */
  class PolicyTransport {
    const url: Url
    const mgr: PolicyManager
    const base: Transport

    constructor (url: Url, policy: DnsPolicy, hooked: bool)
      ensures Valid() && fresh(mgr) && fresh(base)
      ensures this.url == url && mgr.policy == policy && mgr.hooked == hooked && mgr.history == []
      ensures mgr.lastDecision.None?
    {
      this.url := url;
      mgr := new PolicyManager(policy, hooked);
      base := new Transport();
    }

    /** Every idle connection was dialled to the current target. */
    ghost predicate Coherent()
      reads this, mgr, base
    {
      AllDialledTo(base.idle, CurrentTarget(mgr.policy, mgr.history, url))
    }

    ghost predicate Valid()
      reads this, mgr, base
    {
      mgr.Valid() && Coherent()
    }

    /** A forwarded request travels over a connection dialled to the target the history prescribes,
        whether that connection is new or was idle; a request that is not forwarded touches none. */
    method RoundTrip(now: Time, raw: RawReply)
      returns (result: NetResult, used: Option<Target>, told: Option<Decision>)
      requires Valid() && now > 0
      modifies mgr, base
      ensures Valid()
      ensures used.Some? ==>
        && used == CurrentTarget(mgr.policy, mgr.history, url)
        && mgr.history == old(mgr.history) + ResolveTrail(mgr.policy, old(mgr.history), now, raw) + [Consumed]
        && mgr.lastDecision == old(mgr.lastDecision)
        && ReportsTrigger(told, TriggerPending(mgr.policy, old(mgr.history)))
      ensures used.Some? && mgr.policy.mode != Static ==>
        && (url.port != "" ==> used.value.port == url.port)
        && (url.port == "" && url.scheme == "http" ==> used.value.port == "80")
        && (url.port == "" && url.scheme == "https" ==> used.value.port == "443")
      ensures url.port == "" && url.scheme != "http" && url.scheme != "https" ==>
        used.None? && mgr.history == old(mgr.history)
      ensures used.Some? && PortOf(url).Some? ==>
        Forwarded(ResolveTold(mgr.policy, old(mgr.history), url.host, PortOf(url).value, now, raw))
      ensures used.None? ==>
        && result.NetError? && base.idle == old(base.idle)
        && mgr.history == old(mgr.history) +
             (if PortOf(url).Some? then ResolveTrail(mgr.policy, old(mgr.history), now, raw) else [])
      ensures used.None? && PortOf(url).Some? ==>
        var r := ResolveTold(mgr.policy, old(mgr.history), url.host, PortOf(url).value, now, raw);
        && !Forwarded(r) && result == NetError(RefusedFor(r).value)
        && mgr.lastDecision == RefusedWith(r, old(mgr.lastDecision))
    {
      ghost var h := mgr.history;
      ghost var trail := ResolveTrail(mgr.policy, h, now, raw);
      if PortOf(url).Some? {
        TargetMoves(mgr.policy, h, url, now, raw);
      }
      var plan, d, force, err := mgr.PrepareRequest(url, base, now, raw);
      told := d;
      if err.Some? {
        result, used := NetError(err.value), None;
        assert mgr.history == if PortOf(url).Some? then h + trail else h;
        return;
      }
      TargetIgnores(mgr.policy, h + trail, url, Consumed);
      var address := if plan.Some? then plan.value else Target(url.host, PortOf(url).value);
      TargetIs(mgr.policy, mgr.history, url);
      var conn, res := base.Carry(address);
      result, used := res, Some(conn);
    }
  }

  // ---------------------------------------------------------------------------
  // Non-overlapping Execute calls
  // ---------------------------------------------------------------------------

  /** Every reported success directly follows a request prepared without error. */
  predicate SuccessesPrepared(h: Hist) {
    forall i :: 0 <= i < |h| && h[i].Observed? && !h[i].obs.failed ==> i > 0 && h[i - 1].Consumed?
  }

  lemma PreparationKeeps(h: Hist, trail: Hist)
    requires SuccessesPrepared(h) && (trail == [] || (|trail| == 1 && trail[0].Resolved?))
    ensures SuccessesPrepared(h + trail) && SuccessesPrepared(h + trail + [Consumed])
  {
  }

  lemma RoundTripKeeps(p: DnsPolicy, h: Hist, after: Hist, now: Time, raw: RawReply, used: bool, known: bool)
    requires SuccessesPrepared(h)
    requires used ==> after == h + ResolveTrail(p, h, now, raw) + [Consumed]
    requires !used ==> after == h + if known then ResolveTrail(p, h, now, raw) else []
    ensures SuccessesPrepared(after) && (used ==> after != [] && Last(after).Consumed?)
  {
    PreparationKeeps(h, ResolveTrail(p, h, now, raw));
    PreparationKeeps(h, []);
  }

  /** A success leaves nothing behind: no count, no window, no pending trigger. */
  lemma SuccessClearsGuard(p: DnsPolicy, h: Hist)
    requires SuccessesPrepared(h) && h != [] && Last(h).Observed? && !Last(h).obs.failed
    ensures CounterOf(p, h) == CLEAR && !TriggerPending(p, h)
  {
    var i := |h| - 1;
    assert h[i] == Last(h) && h[i - 1].Consumed?;
    assert Last(Front(h)) == h[i - 1];
    assert !CrossesNow(p, Front(h));
    assert Last(Observations(h)) == Last(h).obs;
  }

  datatype Response = Response(err: Option<Error>, decision: Option<Decision>, status: int)

  class HttpEndpoint {
    const transport: PolicyTransport
    /** Everything sent on the response channel so far. */
    var responses: seq<Response>

    ghost predicate Valid()
      reads this, transport, transport.mgr, transport.base
    {
      && transport.Valid()
      && SuccessesPrepared(transport.mgr.history)
    }

    constructor (url: Url, policy: DnsPolicy, hooked: bool)
      ensures Valid() && responses == []
      ensures transport.mgr.history == [] && transport.mgr.policy == policy && transport.url == url
      ensures fresh(transport) && fresh(transport.mgr) && fresh(transport.base)
    {
      transport := new PolicyTransport(url, policy, hooked);
      responses := [];
    }

    /** An incoherent policy is refused before there is a manager. */
    static method Initialize(url: Url, policy: DnsPolicy, hooked: bool)
      returns (endpoint: HttpEndpoint?, err: Option<Error>)
      ensures err == policy.Validate() && (endpoint == null <==> err.Some?)
      ensures endpoint != null <==>
        || policy.mode == Default || policy.mode == SingleLookup
        || (policy.mode == Static && policy.staticAddr.Some?)
        || (policy.mode == TTL && (policy.ttlMax <= 0 || policy.ttlMin <= policy.ttlMax))
        || (policy.mode == Cadence && policy.cadence > 0)
      ensures endpoint != null ==>
        && fresh(endpoint) && fresh(endpoint.transport)
        && fresh(endpoint.transport.mgr) && fresh(endpoint.transport.base)
        && endpoint.Valid() && endpoint.responses == []
        && endpoint.transport.mgr.history == []
        && endpoint.transport.mgr.policy == policy && endpoint.transport.url == url
    {
      endpoint, err := null, policy.Validate();
      if err.None? {
        endpoint := new HttpEndpoint(url, policy, hooked);
      }
    }

    /** One request, one response. Whatever keeps the request from being answered, a DNS error and a
        fallback included, is reported as the response's error and counted as a failure; a success
        leaves the guard rail clear with nothing pending. An error comes with the decision of the last
        request that was not sent, which is this one's only if this one was not. */
    method Execute(malformed: Option<Error>, now: Time, raw: RawReply, later: Time)
      returns (err: Option<Error>, ghost used: Option<Target>)
      requires Valid() && now > 0 && later > 0
      modifies this, transport.mgr, transport.base
      ensures Valid()
      ensures |responses| == |old(responses)| + 1 && Front(responses) == old(responses)
      ensures Last(responses).err == err
      ensures malformed.Some? ==>
        err == malformed && used.None? && transport.mgr.history == old(transport.mgr.history)
      ensures malformed.None? ==>
        && transport.mgr.history != []
        && Last(transport.mgr.history) == Observed(Obs(later, FailedResponse(Last(responses))))
        && (err.Some? ==> Last(responses).decision == transport.mgr.lastDecision)
        && (!FailedResponse(Last(responses)) ==>
             transport.mgr.count == 0 && transport.mgr.firstFailure == 0 && !transport.mgr.triggered)
      ensures used.Some? && transport.mgr.policy.mode != Static ==>
        && (transport.url.port != "" ==> used.value.port == transport.url.port)
        && (transport.url.port == "" && transport.url.scheme == "http" ==> used.value.port == "80")
        && (transport.url.port == "" && transport.url.scheme == "https" ==> used.value.port == "443")
      ensures malformed.None? && transport.url.port == "" && transport.url.scheme !in {"http", "https"} ==>
        && used.None? && err.Some?
        && transport.mgr.history == old(transport.mgr.history) + [Observed(Obs(later, true))]
      ensures malformed.None? && PortOf(transport.url).Some? ==>
        var p, h := transport.mgr.policy, old(transport.mgr.history);
        var r := ResolveTold(p, h, transport.url.host, PortOf(transport.url).value, now, raw);
        && (used.Some? <==> Forwarded(r))
        && transport.mgr.history == h + CallTrail(p, h, Call(now, raw, later, !FailedResponse(Last(responses))))
        && (used.Some? ==> used == CurrentTarget(p, transport.mgr.history, transport.url))
        && (used.None? ==>
             && err == RefusedFor(r)
             && Last(responses).decision == RefusedWith(r, old(transport.mgr.lastDecision)))
        && (used.Some? && err.Some? ==> Last(responses).decision == old(transport.mgr.lastDecision))
        && (err.None? ==> ReportsTrigger(Last(responses).decision, TriggerPending(p, h)))
    {
      used := None;
      if malformed.Some? {
        err := malformed;
        responses := responses + [Response(err, None, 0)];
        return;
      }
      ghost var h := transport.mgr.history;
      var result, conn, told := transport.RoundTrip(now, raw);
      used := conn;
      ghost var before := transport.mgr.history;
      RoundTripKeeps(transport.mgr.policy, h, before, now, raw, used.Some?, PortOf(transport.url).Some?);
      FrontOfSnoc(before, Observed(Obs(later, FailedResult(result))));
      err := Report(result, told, later);
      assert FailedResponse(Last(responses)) == FailedResult(result);
      assert Front(responses) == old(responses);
      if PortOf(transport.url).Some? {
        CallIs(transport.mgr.policy, h, Call(now, raw, later, !FailedResult(result)), transport.url.host,
               PortOf(transport.url).value, FailedResult(result), before, transport.mgr.history);
      } else {
        assert used.None? && before == h;
      }
    }

    /** Reports the outcome of a round trip to the guard rail and on the response channel. */
    method Report(result: NetResult, told: Option<Decision>, later: Time) returns (err: Option<Error>)
      requires Valid() && later > 0
      requires !FailedResult(result) ==> transport.mgr.history != [] && Last(transport.mgr.history).Consumed?
      modifies `responses, transport.mgr
      ensures Valid()
      ensures err == if result.NetError? then Some(result.err) else None
      ensures responses != [] && FailedResponse(Last(responses)) == FailedResult(result)
      ensures transport.mgr.lastDecision == old(transport.mgr.lastDecision)
      ensures responses == old(responses) +
        [if result.NetError? then Response(err, transport.mgr.lastDecision, 0) else Response(None, told, result.code)]
      ensures transport.mgr.history == old(transport.mgr.history) + [Observed(Obs(later, FailedResult(result)))]
      ensures CurrentTarget(transport.mgr.policy, transport.mgr.history, transport.url)
           == CurrentTarget(transport.mgr.policy, old(transport.mgr.history), transport.url)
      ensures !FailedResult(result) ==>
        transport.mgr.count == 0 && transport.mgr.firstFailure == 0 && !transport.mgr.triggered
    {
      ghost var h := transport.mgr.history;
      TargetIgnores(transport.mgr.policy, h, transport.url, Observed(Obs(later, FailedResult(result))));
      if result.NetError? {
        err := Some(result.err);
        transport.mgr.ObserveResult(0, err, later);
        responses := responses + [Response(err, transport.mgr.lastDecision, 0)];
      } else {
        err := None;
        transport.mgr.ObserveResult(result.code, None, later);
        responses := responses + [Response(None, told, result.code)];
      }
      if !FailedResult(result) {
        SuccessClearsGuard(transport.mgr.policy, transport.mgr.history);
      }
    }
  }

  predicate FailedResponse(r: Response) { r.err.Some? || r.status >= SERVER_ERROR_THRESHOLD }
}
