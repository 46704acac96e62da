/** dns_resolver.go: addresses and TTLs out of raw DNS answers. The network is a parameter: each
    server's reply to each query is given. */
module Resolver {
  import opened Basics

  type Byte = b: int | 0 <= b < 256
  type Seconds = t: int | 0 <= t < 0x1_0000_0000

  const SECOND: Duration := 1_000_000_000

  /** One resource record of an answer section; a record may lack its header. */
  datatype Record =
    | A(ttl: Seconds, bytes: seq<Byte>)
    | AAAA(ttl: Seconds, bytes: seq<Byte>)
    | Other(ttl: Seconds)
    | Headless

  /** An address is its 4 or 16 bytes. */
  type IP = seq<Byte>

  datatype ResolveError = NoTTLAnswer | Aborted(err: Error)

  datatype Answer = Found(addrs: seq<IP>, ttl: Duration) | NotFound(err: ResolveError)

  /** The address of a record that has one. */
  function ExtractAddr(r: Record): Option<IP> {
    if (r.A? || r.AAAA?) && (|r.bytes| == 4 || |r.bytes| == 16) then Some(r.bytes) else None
  }

  // ---------------------------------------------------------------------------
  // What an answer says, without any loop
  // ---------------------------------------------------------------------------

  /** The addresses of the records that have one, in order. */
  function Addresses(rrs: seq<Record>): seq<IP> {
    if rrs == [] then []
    else Addresses(Front(rrs)) + match ExtractAddr(Last(rrs)) case Some(a) => [a] case None => []
  }

  /** The TTLs, in nanoseconds, that accompany an address and are not zero. */
  function PositiveTTLs(rrs: seq<Record>): set<Duration> {
    if rrs == [] then {} else PositiveTTLs(Front(rrs)) + TTLOf(Last(rrs))
  }

  function TTLOf(r: Record): set<Duration> {
    if ExtractAddr(r).Some? && r.ttl > 0 then {r.ttl * SECOND} else {}
  }

  lemma {:induction false} PositiveTTLsIff(rrs: seq<Record>, t: Duration)
    ensures t in PositiveTTLs(rrs) <==> exists i :: 0 <= i < |rrs| && t in TTLOf(rrs[i])
    ensures t in PositiveTTLs(rrs) ==> 0 < t < 0x8000_0000_0000_0000
  {
    if rrs != [] {
      PositiveTTLsIff(Front(rrs), t);
      assert rrs[|rrs| - 1] == Last(rrs);
      if i :| 0 <= i < |rrs| && t in TTLOf(rrs[i]) && i < |rrs| - 1 {
        assert t in TTLOf(Front(rrs)[i]);
      }
    }
  }

  /** t is the least of the TTLs, or 0 when there are none. */
  predicate IsLeast(t: Duration, ttls: set<Duration>) {
    if ttls == {} then t == 0 else t in ttls && forall u :: u in ttls ==> t <= u
  }

  /** The summary of a list of records: its addresses in order with the least positive TTL, or no
      answer when it has no address. */
  predicate Summarises(a: Answer, rrs: seq<Record>) {
    match a
    case Found(addrs, ttl) => addrs == Addresses(rrs) != [] && IsLeast(ttl, PositiveTTLs(rrs))
    case NotFound(e) => e.NoTTLAnswer? && Addresses(rrs) == []
  }

  /** A list of records has one summary, and its TTL is not negative and fits a 64-bit duration. */
  lemma SummaryUnique(a: Answer, b: Answer, rrs: seq<Record>)
    requires Summarises(a, rrs) && Summarises(b, rrs)
    ensures a == b
    ensures a.Found? ==> 0 <= a.ttl < 0x8000_0000_0000_0000
  {
    if a.Found? {
      PositiveTTLsIff(rrs, a.ttl);
    }
  }

  /** Record i is an A or AAAA record with an address of 4 or 16 bytes. */
  predicate Carries(rrs: seq<Record>, i: int) {
    && 0 <= i < |rrs| && (rrs[i].A? || rrs[i].AAAA?)
    && (|rrs[i].bytes| == 4 || |rrs[i].bytes| == 16)
  }

  /** All such records, in order. */
  predicate AllCarrying(rrs: seq<Record>, order: seq<nat>) {
    && (forall j, k :: 0 <= j < k < |order| ==> order[j] < order[k])
    && (forall k :: 0 <= k < |order| ==> Carries(rrs, order[k]))
    && (forall i :: 0 <= i < |rrs| && Carries(rrs, i) ==> i in order)
  }

  function BytesOf(rrs: seq<Record>, order: seq<nat>): seq<IP>
    requires AllCarrying(rrs, order)
  {
    seq(|order|, k requires 0 <= k < |order| => rrs[order[k]].bytes)
  }

  lemma NextCarrying(rrs: seq<Record>, order: seq<nat>)
    requires rrs != [] && AllCarrying(Front(rrs), order)
    ensures Carries(rrs, |rrs| - 1) ==> AllCarrying(rrs, order + [|rrs| - 1])
    ensures !Carries(rrs, |rrs| - 1) ==> AllCarrying(rrs, order)
  {
    var f := Front(rrs);
    forall k | 0 <= k < |order| ensures Carries(rrs, order[k]) && order[k] < |rrs| - 1 {
      assert Carries(f, order[k]);
    }
    forall i | 0 <= i < |rrs| - 1 && Carries(rrs, i) ensures i in order {
      assert Carries(f, i);
    }
  }

  lemma NextBytes(rrs: seq<Record>, order: seq<nat>) returns (next: seq<nat>)
    requires rrs != [] && AllCarrying(Front(rrs), order)
    ensures AllCarrying(rrs, next)
    ensures BytesOf(rrs, next) == BytesOf(Front(rrs), order) + if Carries(rrs, |rrs| - 1) then [Last(rrs).bytes] else []
  {
    var f := Front(rrs);
    NextCarrying(rrs, order);
    next := if Carries(rrs, |rrs| - 1) then order + [|rrs| - 1] else order;
    forall k | 0 <= k < |order| ensures rrs[next[k]].bytes == f[order[k]].bytes {
      assert Carries(f, order[k]);
    }
  }

  lemma {:induction false} AddressesAre(rrs: seq<Record>) returns (order: seq<nat>)
    ensures AllCarrying(rrs, order) && Addresses(rrs) == BytesOf(rrs, order)
  {
    order := [];
    if rrs != [] {
      var before := AddressesAre(Front(rrs));
      order := NextBytes(rrs, before);
    }
  }

  /** The summary by the records alone: the addresses are the bytes of the records that carry one, in their
      order; the TTL is the least of those records' positive TTLs, of whole seconds, and 0 if there is none;
      and there is no answer exactly when no record carries an address. */
  lemma SummaryIs(a: Answer, rrs: seq<Record>) returns (order: seq<nat>)
    requires Summarises(a, rrs)
    ensures AllCarrying(rrs, order) && (a.Found? <==> order != [])
    ensures a.NotFound? ==> a.err == NoTTLAnswer
    ensures a.Found? ==>
      && |a.addrs| == |order| && (forall k :: 0 <= k < |order| ==> a.addrs[k] == rrs[order[k]].bytes)
      && (forall i :: 0 <= i < |rrs| && Carries(rrs, i) && rrs[i].ttl > 0 ==>
           0 < a.ttl <= rrs[i].ttl * 1_000_000_000)
      && (a.ttl == 0 || exists i :: Carries(rrs, i) && rrs[i].ttl > 0 && a.ttl == rrs[i].ttl * 1_000_000_000)
  {
    order := AddressesAre(rrs);
    if a.Found? {
      forall i | 0 <= i < |rrs| && Carries(rrs, i) && rrs[i].ttl > 0
        ensures 0 < a.ttl <= rrs[i].ttl * 1_000_000_000
      {
        assert rrs[i].ttl * SECOND in TTLOf(rrs[i]);
        PositiveTTLsIff(rrs, rrs[i].ttl * SECOND);
        PositiveTTLsIff(rrs, a.ttl);
      }
      if a.ttl != 0 {
        PositiveTTLsIff(rrs, a.ttl);
        var i :| 0 <= i < |rrs| && a.ttl in TTLOf(rrs[i]);
        assert Carries(rrs, i);
      }
    }
  }

  lemma {:induction false} AddressesConcat(x: seq<Record>, y: seq<Record>)
    ensures Addresses(x + y) == Addresses(x) + Addresses(y)
  {
    if y == [] {
      assert x + y == x;
    } else {
      AddressesConcat(x, Front(y));
      assert Front(x + y) == x + Front(y);
    }
  }

  lemma {:induction false} PositiveTTLsConcat(x: seq<Record>, y: seq<Record>)
    ensures PositiveTTLs(x + y) == PositiveTTLs(x) + PositiveTTLs(y)
  {
    if y == [] {
      assert x + y == x;
    } else {
      PositiveTTLsConcat(x, Front(y));
      assert Front(x + y) == x + Front(y);
    }
  }

  // ---------------------------------------------------------------------------
  // parseAnswers
  // ---------------------------------------------------------------------------

  /** The running minimum both loops keep: the least TTL so far, if any was positive. */
  predicate Tracks(minTTL: Duration, seen: bool, ttls: set<Duration>) {
    (seen <==> ttls != {}) && IsLeast(minTTL, ttls)
  }

  /** The addresses and the least positive TTL, as SummaryIs reads them off the records. */
  method ParseAnswers(rrs: seq<Record>) returns (answer: Answer)
    ensures Summarises(answer, rrs)
    ensures answer.Found? <==> exists i :: Carries(rrs, i)
    ensures answer.Found? ==> exists order :: AllCarrying(rrs, order) && BytesOf(rrs, order) == answer.addrs
    ensures answer.Found? ==>
      && (forall i :: Carries(rrs, i) && rrs[i].ttl > 0 ==> 0 < answer.ttl <= rrs[i].ttl * 1_000_000_000)
      && (answer.ttl == 0 || exists i :: Carries(rrs, i) && rrs[i].ttl > 0 && answer.ttl == rrs[i].ttl * 1_000_000_000)
    ensures answer.NotFound? ==> answer.err == NoTTLAnswer
  {
    var addresses: seq<IP>, minTTL, seenTTL := [], 0, false;
    for i := 0 to |rrs|
      invariant addresses == Addresses(rrs[..i])
      invariant Tracks(minTTL, seenTTL, PositiveTTLs(rrs[..i]))
    {
      var rr := rrs[i];
      assert rrs[..i + 1] == rrs[..i] + [rr];
      FrontOfSnoc(rrs[..i], rr);
      if rr.Headless? {
        continue;
      }
      var addr := ExtractAddr(rr);
      if addr.None? {
        continue;
      }
      addresses := addresses + [addr.value];
      var ttl := rr.ttl * SECOND;
      if ttl > 0 && (!seenTTL || ttl < minTTL) {
        minTTL, seenTTL := ttl, true;
      }
    }
    assert rrs[..|rrs|] == rrs;
    answer := if addresses == [] then NotFound(NoTTLAnswer) else Found(addresses, minTTL);
    ghost var order := SummaryIs(answer, rrs);
    assert order != [] ==> Carries(rrs, order[0]);
    assert answer.Found? ==> BytesOf(rrs, order) == answer.addrs;
  }

  // ---------------------------------------------------------------------------
  // queryType and lookupWithTTL
  // ---------------------------------------------------------------------------

  /** What happens at one server: the context ends before the query, the exchange is cancelled or
      fails, the server answers without success, or it answers with records. */
  datatype ServerReply =
    | ContextDone(err: Error)
    | Cancelled(err: Error)
    | Broken
    | Unsuccessful
    | Records(rrs: seq<Record>)

  predicate Stops(r: ServerReply) { r.ContextDone? || r.Cancelled? }

  predicate Usable(r: ServerReply) { r.Records? && Addresses(r.rrs) != [] }

  /** The records of the first server, in order, that answers with an address; none if no server does. */
  function FirstUsable(replies: seq<ServerReply>): seq<Record> {
    if replies == [] then [] else if Usable(replies[0]) then replies[0].rrs else FirstUsable(replies[1..])
  }

  /** The query is not cut short before some server answers it. */
  predicate Uninterrupted(replies: seq<ServerReply>) {
    replies == [] || Usable(replies[0]) || (!Stops(replies[0]) && Uninterrupted(replies[1..]))
  }

  lemma {:induction false} SkipUnusable(replies: seq<ServerReply>, n: nat)
    requires n <= |replies| && forall i :: 0 <= i < n ==> !Usable(replies[i]) && !Stops(replies[i])
    ensures FirstUsable(replies) == FirstUsable(replies[n..])
    ensures Uninterrupted(replies) <==> Uninterrupted(replies[n..])
  {
    if n > 0 {
      SkipUnusable(replies[1..], n - 1);
      assert replies[1..][n - 1..] == replies[n..];
    }
  }

  /** This server's reply does not end the query: an exchange that failed for another reason than a
      cancellation, an answer without success, or one without an address. */
  predicate PassedOver(r: ServerReply) {
    r.Broken? || r.Unsuccessful? || (r.Records? && forall i :: 0 <= i < |r.rrs| ==> !Carries(r.rrs, i))
  }

  /** The answer is that of the first server whose reply ends the query. */
  predicate EndedBy(replies: seq<ServerReply>, k: nat, answer: Answer)
    requires k <= |replies|
  {
    && (forall j :: 0 <= j < k ==> PassedOver(replies[j]))
    && (k == |replies| ==> answer == NotFound(NoTTLAnswer))
    && (k < |replies| ==>
         && !PassedOver(replies[k])
         && (replies[k].ContextDone? || replies[k].Cancelled? ==> answer == NotFound(Aborted(replies[k].err)))
         && (replies[k].Records? ==> answer.Found? && Summarises(answer, replies[k].rrs)))
  }

  lemma {:induction false} NoneCarryIff(rrs: seq<Record>)
    ensures Addresses(rrs) == [] <==> forall i :: 0 <= i < |rrs| ==> !Carries(rrs, i)
  {
    if rrs != [] {
      NoneCarryIff(Front(rrs));
      assert forall i :: 0 <= i < |rrs| - 1 ==> (Carries(rrs, i) <==> Carries(Front(rrs), i));
      assert Carries(rrs, |rrs| - 1) <==> ExtractAddr(Last(rrs)).Some?;
    }
  }

  lemma PassedOverIff(r: ServerReply)
    ensures PassedOver(r) <==> !Usable(r) && !Stops(r)
  {
    if r.Records? {
      NoneCarryIff(r.rrs);
    }
  }

  method QueryType(replies: seq<ServerReply>) returns (answer: Answer)
    ensures exists k :: 0 <= k <= |replies| && EndedBy(replies, k, answer)
    ensures Uninterrupted(replies) ==> Summarises(answer, FirstUsable(replies))
    ensures !Uninterrupted(replies) ==> answer.NotFound? && answer.err.Aborted?
  {
    for i := 0 to |replies|
      invariant forall j :: 0 <= j < i ==> !Usable(replies[j]) && !Stops(replies[j]) && PassedOver(replies[j])
    {
      SkipUnusable(replies, i);
      PassedOverIff(replies[i]);
      match replies[i]
      case ContextDone(e) =>
        assert EndedBy(replies, i, NotFound(Aborted(e)));
        return NotFound(Aborted(e));
      case Cancelled(e) =>
        assert EndedBy(replies, i, NotFound(Aborted(e)));
        return NotFound(Aborted(e));
      case Broken => continue;
      case Unsuccessful => continue;
      case Records(rrs) =>
        var found := ParseAnswers(rrs);
        if found.NotFound? {
          continue;
        }
        assert EndedBy(replies, i, found);
        return found;
    }
    SkipUnusable(replies, |replies|);
    answer := NotFound(NoTTLAnswer);
    assert EndedBy(replies, |replies|, answer);
  }

  lemma {:induction false} NoAddressNoTTL(rrs: seq<Record>)
    requires Addresses(rrs) == []
    ensures PositiveTTLs(rrs) == {}
  {
    if rrs != [] {
      NoAddressNoTTL(Front(rrs));
    }
  }

  /** Merging a query's answer into what was collected is summarising the longer list of records. */
  lemma MergeIsConcat(addrs: seq<IP>, minTTL: Duration, seen: bool, before: seq<Record>, rrs: seq<Record>,
                      found: Answer)
    requires addrs == Addresses(before) && Tracks(minTTL, seen, PositiveTTLs(before)) && Summarises(found, rrs)
    ensures found.NotFound? ==>
      addrs == Addresses(before + rrs) && Tracks(minTTL, seen, PositiveTTLs(before + rrs))
    ensures found.Found? ==>
      var takes := found.ttl > 0 && (!seen || found.ttl < minTTL);
      && addrs + found.addrs == Addresses(before + rrs)
      && Tracks(if takes then found.ttl else minTTL, seen || takes, PositiveTTLs(before + rrs))
  {
    AddressesConcat(before, rrs);
    PositiveTTLsConcat(before, rrs);
    if found.NotFound? {
      NoAddressNoTTL(rrs);
    } else {
      TTLsArePositive(rrs);
      TTLsArePositive(before);
    }
  }

  lemma TTLsArePositive(rrs: seq<Record>)
    ensures forall t :: t in PositiveTTLs(rrs) ==> t > 0
  {
    forall t | t in PositiveTTLs(rrs) ensures t > 0 {
      PositiveTTLsIff(rrs, t);
    }
  }

  /** Two queries, A then AAAA. If neither is cut short, the result is the summary of the records of the
      first answering server of each, concatenated: one minimum over all of them. */
  method LookupWithTTL(config: Option<Error>, a: seq<ServerReply>, aaaa: seq<ServerReply>) returns (answer: Answer)
    ensures config.Some? ==> answer == NotFound(Aborted(config.value))
    ensures config.None? && Uninterrupted(a) && Uninterrupted(aaaa) ==>
      Summarises(answer, FirstUsable(a) + FirstUsable(aaaa))
    ensures config.None? && !(Uninterrupted(a) && Uninterrupted(aaaa)) ==> answer.NotFound? && answer.err.Aborted?
    ensures config.None? && !Uninterrupted(a) ==> exists k :: 0 <= k <= |a| && EndedBy(a, k, answer)
    ensures config.None? && Uninterrupted(a) && !Uninterrupted(aaaa) ==>
      exists k :: 0 <= k <= |aaaa| && EndedBy(aaaa, k, answer)
  {
    if config.Some? {
      return NotFound(Aborted(config.value));
    }
    var collected: seq<IP>, minTTL, seenTTL := [], 0, false;
    var queries := [a, aaaa];
    ghost var records: seq<Record> := [];
    for q := 0 to 2
      invariant forall i :: 0 <= i < q ==> Uninterrupted(queries[i])
      invariant records == if q == 0 then [] else if q == 1 then FirstUsable(a) else FirstUsable(a) + FirstUsable(aaaa)
      invariant collected == Addresses(records)
      invariant Tracks(minTTL, seenTTL, PositiveTTLs(records))
    {
      var found := QueryType(queries[q]);
      if found.NotFound? && found.err.Aborted? {
        ghost var k :| 0 <= k <= |queries[q]| && EndedBy(queries[q], k, found);
        assert queries[0] == a && queries[1] == aaaa;
        return found;
      }
      MergeIsConcat(collected, minTTL, seenTTL, records, FirstUsable(queries[q]), found);
      assert [] + FirstUsable(a) == FirstUsable(a);
      records := records + FirstUsable(queries[q]);
      if found.NotFound? {
        continue;
      }
      collected := collected + found.addrs;
      if found.ttl > 0 && (!seenTTL || found.ttl < minTTL) {
        minTTL, seenTTL := found.ttl, true;
      }
    }
    assert Uninterrupted(queries[0]) && Uninterrupted(queries[1]);
    answer := if collected == [] then NotFound(NoTTLAnswer) else Found(collected, minTTL);
  }

  /** What the system resolver answers: addresses, which carry no TTL, or an error. */
  datatype SystemReply = Addrs(addrs: seq<IP>) | SystemFailed(err: Error)

  /** A literal address needs no query. Otherwise the system resolver is asked exactly when the queries
      gave no address, and its answer has no TTL. */
  method Lookup(literal: Option<IP>, config: Option<Error>, a: seq<ServerReply>, aaaa: seq<ServerReply>,
                system: SystemReply) returns (answer: Answer)
    ensures literal.Some? ==> answer == Found([literal.value], 0)
    ensures literal.None? ==>
      var records := FirstUsable(a) + FirstUsable(aaaa);
      if config.None? && Uninterrupted(a) && Uninterrupted(aaaa) && Addresses(records) != []
      then Summarises(answer, records)
      else (answer.Found? <==> system.Addrs?) && (system.Addrs? ==> answer == Found(system.addrs, 0))
  {
    if literal.Some? {
      return Found([literal.value], 0);
    }
    answer := LookupWithTTL(config, a, aaaa);
    if answer.Found? && answer.addrs != [] {
      return;
    }
    answer := match system
      case Addrs(addrs) => Found(addrs, 0)
      case SystemFailed(e) => NotFound(Aborted(e));
  }
}
