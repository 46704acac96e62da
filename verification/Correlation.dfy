/** task_ws.go: what the history of a persistent JSON-RPC endpoint says about its inflight messages and
    its responses. Ids follow section 5 of the JSON-RPC 2.0 Specification: a response carries the id of
    the request it answers. */
module Correlation {
  import opened Basics

  type Id = string

  /** The id of the payload's own request; None is the nil id. */
  type OriginalId = Option<string>

  datatype Inflight = Inflight(originalId: OriginalId, timeSent: Time)

  /** One message read from the connection; an id of "" is a missing one. */
  datatype Frame = Unparsable | Response(empty: bool, id: Id, body: string)

  datatype ReadError = CloseFrame(code: nat) | LocallyClosed | Timeout | OtherReadError

  datatype Out =
    | Success(originalId: OriginalId, timeSent: Time, firstByte: Time, body: string)
    | ParseFailed
    | EmptyResponse
    | NilId
    | UnknownId(id: Id)
    | RestoreFailed
    | ReadFailed(err: ReadError)

  /** Stored: a message entered the inflight map. Handled: a frame was matched, or not, against the
      map; a matched one left it. Surfaced: a read error was reported. */
  datatype Event =
    | Stored(id: Id, msg: Inflight)
    | Handled(frame: Frame, firstByte: Time, restorable: bool)
    | Surfaced(err: ReadError)

  type Log = seq<Event>

  predicate Answers(m: map<Id, Inflight>, f: Frame) {
    f.Response? && !f.empty && f.id != "" && f.id in m
  }

  /** The response a frame produces against an inflight map. */
  function Verdict(m: map<Id, Inflight>, f: Frame, firstByte: Time, restorable: bool): Out {
    if f.Unparsable? then ParseFailed
    else if f.empty then EmptyResponse
    else if f.id == "" then NilId
    else if f.id !in m then UnknownId(f.id)
    else if !restorable then RestoreFailed
    else Success(m[f.id].originalId, m[f.id].timeSent, firstByte, f.body)
  }

  /** Close codes 1000, 1001 and 1012 and a local close end the pump quietly. */
  predicate Surfaces(e: ReadError) {
    match e
    case CloseFrame(code) => code != 1000 && code != 1001 && code != 1012
    case LocallyClosed => false
    case _ => true
  }

  function Outstanding(log: Log): map<Id, Inflight> {
    if log == [] then map[]
    else
      var m := Outstanding(Front(log));
      match Last(log)
      case Stored(id, msg) => m[id := msg]
      case Handled(f, _, _) => if Answers(m, f) then m - {f.id} else m
      case Surfaced(_) => m
  }

  /** The responses a history produces, in order: one per handled frame or surfaced error. */
  function Outs(log: Log): seq<Out> {
    if log == [] then []
    else
      Outs(Front(log)) +
        match Last(log)
        case Stored(_, _) => []
        case Handled(f, t, r) => [Verdict(Outstanding(Front(log)), f, t, r)]
        case Surfaced(e) => [ReadFailed(e)]
  }

  function StoredIds(log: Log): set<Id> {
    if log == [] then {}
    else StoredIds(Front(log)) + if Last(log).Stored? then {Last(log).id} else {}
  }

  /** Event i is a frame that was matched. */
  predicate AnsweredAt(log: Log, i: int) {
    0 <= i < |log| && log[i].Handled? && Answers(Outstanding(log[..i]), log[i].frame)
  }

  function AnsweredIds(log: Log): set<Id> {
    if log == [] then {}
    else AnsweredIds(Front(log)) + if AnsweredAt(log, |log| - 1) then {Last(log).frame.id} else {}
  }

  function Stores(log: Log): nat {
    if log == [] then 0 else Stores(Front(log)) + if Last(log).Stored? then 1 else 0
  }

  function Matches(log: Log): nat {
    if log == [] then 0 else Matches(Front(log)) + if AnsweredAt(log, |log| - 1) then 1 else 0
  }

  function Frames(log: Log): nat {
    if log == [] then 0 else Frames(Front(log)) + if Last(log).Handled? then 1 else 0
  }

  function Errors(log: Log): nat {
    if log == [] then 0 else Errors(Front(log)) + if Last(log).Surfaced? then 1 else 0
  }

  /** No id is stored twice; the id generator never repeats itself, and no id is empty. */
  predicate Fresh(log: Log) {
    log == [] || (Fresh(Front(log)) &&
      (Last(log).Stored? ==> Last(log).id != "" && Last(log).id !in StoredIds(Front(log))))
  }

  lemma LogSnoc(log: Log, e: Event)
    ensures StoredIds(log + [e]) == StoredIds(log) + if e.Stored? then {e.id} else {}
    ensures Fresh(log + [e]) <==> Fresh(log) && (e.Stored? ==> e.id != "" && e.id !in StoredIds(log))
    ensures Frames(log + [e]) == Frames(log) + if e.Handled? then 1 else 0
    ensures Errors(log + [e]) == Errors(log) + if e.Surfaced? then 1 else 0
    ensures e.Stored? ==> Outstanding(log + [e]) == Outstanding(log)[e.id := e.msg] && Outs(log + [e]) == Outs(log)
    ensures e.Surfaced? ==>
      Outstanding(log + [e]) == Outstanding(log) && Outs(log + [e]) == Outs(log) + [ReadFailed(e.err)]
    ensures e.Handled? ==>
      && Outs(log + [e]) == Outs(log) + [Verdict(Outstanding(log), e.frame, e.firstByte, e.restorable)]
      && Outstanding(log + [e]) ==
           if Answers(Outstanding(log), e.frame) then Outstanding(log) - {e.frame.id} else Outstanding(log)
  {
    FrontOfSnoc(log, e);
  }

  lemma SurfacedSnoc(log: Log, e: ReadError)
    ensures var log' := log + [Surfaced(e)];
            && (Fresh(log') <==> Fresh(log)) && Outstanding(log') == Outstanding(log)
            && Outs(log') == Outs(log) + [ReadFailed(e)]
  {
    LogSnoc(log, Surfaced(e));
  }

  lemma HandledSnoc(log: Log, frame: Frame, firstByte: Time, restorable: bool)
    ensures var log', m := log + [Handled(frame, firstByte, restorable)], Outstanding(log);
            && (Fresh(log') <==> Fresh(log))
            && Outstanding(log') == (if Answers(m, frame) then m - {frame.id} else m)
            && Outs(log') == Outs(log) + [Verdict(m, frame, firstByte, restorable)]
  {
    LogSnoc(log, Handled(frame, firstByte, restorable));
  }

  // ---------------------------------------------------------------------------

  lemma {:induction false} InflightIds(log: Log)
    requires Fresh(log)
    ensures Outstanding(log).Keys == StoredIds(log) - AnsweredIds(log)
    ensures AnsweredIds(log) <= StoredIds(log)
  {
    if log != [] {
      InflightIds(Front(log));
      assert log[..|log| - 1] == Front(log);
    }
  }

  lemma {:induction false} Counts(log: Log)
    requires Fresh(log)
    ensures Stores(log) == |StoredIds(log)| && Matches(log) == |AnsweredIds(log)|
  {
    if log != [] {
      Counts(Front(log));
      InflightIds(Front(log));
      assert log[..|log| - 1] == Front(log);
    }
  }

  lemma {:induction false} OneOutEach(log: Log)
    ensures |Outs(log)| == Frames(log) + Errors(log)
  {
    if log != [] {
      OneOutEach(Front(log));
    }
  }

  /** The accounts balance: every stored message is inflight or was matched once, and every handled
      frame and surfaced error gave exactly one response. */
  lemma Accounts(log: Log)
    requires Fresh(log)
    ensures Stores(log) == |Outstanding(log)| + Matches(log)
    ensures |Outs(log)| == Frames(log) + Errors(log)
  {
    InflightIds(log);
    Counts(log);
    OneOutEach(log);
    Partition(StoredIds(log), AnsweredIds(log));
    assert |Outstanding(log)| == |Outstanding(log).Keys|;
  }

  lemma Partition(a: set<Id>, b: set<Id>)
    requires b <= a
    ensures |a - b| == |a| - |b|
  {
    assert a == (a - b) + b;
  }

  lemma {:induction false} PrefixIds(log: Log, n: nat)
    requires n <= |log|
    ensures StoredIds(log[..n]) <= StoredIds(log) && AnsweredIds(log[..n]) <= AnsweredIds(log)
    ensures Fresh(log) ==> Fresh(log[..n])
    decreases |log|
  {
    if n < |log| {
      PrefixIds(Front(log), n);
      assert Front(log)[..n] == log[..n];
    } else {
      assert log[..n] == log;
    }
  }

  lemma EventIds(log: Log, i: nat)
    requires i < |log|
    ensures log[i].Stored? ==> log[i].id in StoredIds(log)
    ensures log[i].Stored? && Fresh(log) ==> log[i].id !in StoredIds(log[..i])
    ensures AnsweredAt(log, i) ==> log[i].frame.id in AnsweredIds(log)
  {
    var l := log[..i + 1];
    assert Front(l) == log[..i] && Last(l) == log[i] && l[..|l| - 1] == log[..i];
    PrefixIds(log, i + 1);
  }

  lemma {:induction false} StoredWitness(log: Log, id: Id) returns (k: nat)
    requires id in Outstanding(log)
    ensures k < |log| && log[k] == Stored(id, Outstanding(log)[id])
  {
    if Last(log).Stored? && Last(log).id == id {
      k := |log| - 1;
    } else {
      k := StoredWitness(Front(log), id);
    }
  }

  /** A frame is answered exactly when its id was stored earlier and not answered since. So the first
      reply after a store always matches, and every further one is an unknown id. */
  lemma AnsweredIff(log: Log, i: nat)
    requires Fresh(log) && i < |log| && log[i].Handled? && log[i].frame.Response?
    requires !log[i].frame.empty && log[i].frame.id != ""
    ensures AnsweredAt(log, i) <==>
            log[i].frame.id in StoredIds(log[..i]) && log[i].frame.id !in AnsweredIds(log[..i])
  {
    PrefixIds(log, i);
    InflightIds(log[..i]);
  }

  /** A matched frame answers an earlier send and carries that send's original id and time. */
  lemma MatchedSend(log: Log, i: nat) returns (k: nat)
    requires Fresh(log) && AnsweredAt(log, i)
    ensures k < i && log[k].Stored? && log[k].id == log[i].frame.id
    ensures Verdict(Outstanding(log[..i]), log[i].frame, log[i].firstByte, log[i].restorable) ==
      if log[i].restorable
      then Success(log[k].msg.originalId, log[k].msg.timeSent, log[i].firstByte, log[i].frame.body)
      else RestoreFailed
  {
    k := StoredWitness(log[..i], log[i].frame.id);
    assert log[..i][k] == log[k];
  }

  /** No two sends share an id, */
  lemma StoredApart(log: Log, m: nat, k: nat)
    requires Fresh(log) && m < |log| && k < |log| && log[m].Stored? && log[k].Stored? && log[m].id == log[k].id
    ensures m == k
  {
    EventIds(log, m);
    EventIds(log, k);
    if m < k {
      EventIds(log[..k], m);
    } else if k < m {
      EventIds(log[..m], k);
    }
  }

  lemma AnsweredLater(log: Log, j: nat, i: nat)
    requires Fresh(log) && j < i && AnsweredAt(log, j) && AnsweredAt(log, i)
    ensures log[j].frame.id != log[i].frame.id
  {
    var l := log[..i];
    assert l[..j] == log[..j] && l[j] == log[j];
    EventIds(l, j);
    AnsweredIff(log, i);
  }

  /** and no two frames are matched to the same send. */
  lemma AnsweredApart(log: Log, j: nat, i: nat)
    requires Fresh(log) && AnsweredAt(log, j) && AnsweredAt(log, i) && log[j].frame.id == log[i].frame.id
    ensures j == i
  {
    if j < i {
      AnsweredLater(log, j, i);
    } else if i < j {
      AnsweredLater(log, i, j);
    }
  }
}
