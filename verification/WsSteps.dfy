/** task_ws.go under concurrency: senders, the read pump and reconnects as interleaved steps. The
    server may send any frame at any time. Writes succeed, reconnects do not overlap one another, and
    Close is not called; each of these is a guard on a step. */
module WsSteps {
  import opened Basics
  import opened Correlation

  /** What a running read pump is doing. */
  datatype Pump =
    | Reading
    | Got(frame: Frame, firstByte: Time)
    | Matched(frame: Frame, firstByte: Time)      // loaded from the inflight map, not yet deleted
    | Emitting(out: Out)
    | Failing(err: ReadError)
    | Closing
    | Exiting

  datatype Reconnect = Quiet | Waiting | Redialling

  /** A connection, and the pump started for it, is named by the number of earlier dials. */
  datatype State = State(
    conn: Option<nat>,
    dialled: nat,
    shut: set<nat>,
    pumps: map<nat, Pump>,
    rc: Reconnect,
    buffered: nat,                       // frames the reader of a shut connection still holds
    writer: Option<(Id, bool)>,          // the sender holding the mutex, and whether its request carries the id
    inflight: map<Id, Inflight>,
    written: set<Id>,
    framesRead: nat,
    out: seq<Out>,
    log: Log)

  const BEGINNING := State(None, 0, {}, map[], Quiet, 0, None, map[], {}, 0, [], [])

  datatype Action =
    | Connect(ok: bool)
    | Store(id: Id, msg: Inflight, carries: bool)
    | Write
    | Read(g: nat, frame: Frame, at: Time)
    | Load(g: nat, restorable: bool)
    | Delete(g: nat, restorable: bool)
    | Emit(g: nat)
    | ReadFails(g: nat, err: ReadError)
    | Report(g: nat)
    | CloseConn(g: nat)
    | Exit(g: nat)
    | StartReconnect(left: nat)
    | PumpGone
    | Redial(ok: bool)

  predicate Usable(s: State) { s.conn.Some? && s.conn.value !in s.shut }

  predicate Enabled(s: State, a: Action) {
    match a
    case Connect(_) => s.dialled == 0 && s.conn.None? && s.rc == Quiet && s.writer.None?
    case Store(id, _, _) => Usable(s) && s.writer.None? && id != "" && id !in StoredIds(s.log)
    case Write => Usable(s) && s.writer.Some?
    case Read(g, _, _) => g in s.pumps && s.pumps[g].Reading? && (Usable(s) || (s.conn.Some? && s.buffered > 0))
    case Load(g, _) => g in s.pumps && s.pumps[g].Got?
    case Delete(g, _) => g in s.pumps && s.pumps[g].Matched?
    case Emit(g) => g in s.pumps && s.pumps[g].Emitting?
    case ReadFails(g, _) => g in s.pumps && s.pumps[g].Reading?
    case Report(g) => g in s.pumps && s.pumps[g].Failing?
    case CloseConn(g) => g in s.pumps && s.pumps[g].Closing? && s.writer.None?
    case Exit(g) => g in s.pumps && s.pumps[g].Exiting?
    case StartReconnect(left) => s.rc == Quiet && s.writer.None? && (s.conn.Some? || left == 0)
    case PumpGone => s.rc == Waiting && s.pumps == map[]
    case Redial(_) => s.rc == Redialling && s.writer.None?
  }

  /** A successful dial installs the connection and starts its pump. */
  function Install(s: State): State {
    s.(conn := Some(s.dialled), pumps := s.pumps[s.dialled := Reading], dialled := s.dialled + 1)
  }

  function SetPump(s: State, g: nat, p: Pump): State { s.(pumps := s.pumps[g := p]) }

  function Do(s: State, a: Action): State
    requires Enabled(s, a)
  {
    match a
    case Connect(ok) => if ok then Install(s) else s
    case Store(id, msg, carries) =>
      s.(inflight := s.inflight[id := msg], writer := Some((id, carries)), log := s.log + [Stored(id, msg)])
    case Write =>
      s.(written := if s.writer.value.1 then s.written + {s.writer.value.0} else s.written, writer := None)
    case Read(g, frame, at) =>
      SetPump(s, g, Got(frame, at))
        .(framesRead := s.framesRead + 1, buffered := if Usable(s) then s.buffered else s.buffered - 1)
    case Load(g, restorable) =>
      var f, t := s.pumps[g].frame, s.pumps[g].firstByte;
      if Answers(s.inflight, f) then SetPump(s, g, Matched(f, t))
      else SetPump(s, g, Emitting(Verdict(s.inflight, f, t, restorable))).(log := s.log + [Handled(f, t, restorable)])
    case Delete(g, restorable) =>
      var f, t := s.pumps[g].frame, s.pumps[g].firstByte;
      SetPump(s, g, Emitting(Verdict(s.inflight, f, t, restorable)))
        .(inflight := s.inflight - {if f.Response? then f.id else ""}, log := s.log + [Handled(f, t, restorable)])
    case Emit(g) => SetPump(s, g, Reading).(out := s.out + [s.pumps[g].out])
    case ReadFails(g, e) => SetPump(s, g, Failing(e))
    case Report(g) =>
      var e := s.pumps[g].err;
      if Surfaces(e) then SetPump(s, g, Closing).(out := s.out + [ReadFailed(e)], log := s.log + [Surfaced(e)])
      else SetPump(s, g, Closing)
    case CloseConn(g) =>
      var s' := SetPump(s, g, Exiting);
      if s.conn.Some?
      then s'.(conn := None, shut := s.shut + {s.conn.value})
      else s'
    case Exit(g) => s.(pumps := s.pumps - {g})
    case StartReconnect(left) =>
      s.(rc := Waiting, buffered := left, shut := if s.conn.Some? then s.shut + {s.conn.value} else s.shut)
    case PumpGone => s.(rc := Redialling)
    case Redial(ok) => if ok then Install(s.(conn := None)).(rc := Quiet) else s.(conn := None, rc := Quiet)
  }

  predicate Runs(s: State, acts: seq<Action>)
    decreases acts
  {
    acts == [] || (Enabled(s, acts[0]) && Runs(Do(s, acts[0]), acts[1..]))
  }

  function After(s: State, acts: seq<Action>): State
    requires Runs(s, acts)
    decreases acts
  {
    if acts == [] then s else After(Do(s, acts[0]), acts[1..])
  }

  ghost predicate Reachable(s: State) {
    exists acts :: Runs(BEGINNING, acts) && After(BEGINNING, acts) == s
  }

  // ---------------------------------------------------------------------------
  // Connection life cycle
  // ---------------------------------------------------------------------------

  predicate OnePump(s: State) {
    && (forall g :: g in s.pumps ==> g < s.dialled)
    && (forall g, g' :: g in s.pumps && g' in s.pumps ==> g == g')
    && (s.conn.Some? ==> s.conn.value in s.pumps && !s.pumps[s.conn.value].Exiting?)
    && (s.rc == Redialling ==> s.pumps == map[])
    && (s.dialled == 0 ==> s.pumps == map[])
  }

  predicate OneSocket(s: State) {
    && (forall c :: 0 <= c < s.dialled && c !in s.shut ==> s.conn == Some(c))
    && (forall c :: c in s.shut ==> c < s.dialled)
    && (s.writer.Some? ==> Usable(s))
    && (s.rc != Quiet ==> !Usable(s))
    && (s.rc == Quiet && s.conn.Some? ==> Usable(s))
  }

  predicate LifeCycle(s: State) { OnePump(s) && OneSocket(s) }

  predicate LogsFromPump(a: Action) { a.Load? || a.Delete? || a.Report? }

  predicate OtherPumpAction(a: Action) {
    a.Read? || a.Emit? || a.ReadFails? || a.CloseConn? || a.Exit?
  }

  lemma LoggingKeepsLifeCycle(s: State, a: Action)
    requires LifeCycle(s) && Enabled(s, a) && LogsFromPump(a)
    ensures LifeCycle(Do(s, a))
  {
  }

  lemma PumpKeepsLifeCycle(s: State, a: Action)
    requires LifeCycle(s) && Enabled(s, a) && OtherPumpAction(a)
    ensures LifeCycle(Do(s, a))
  {
  }

  lemma SendersKeepLifeCycle(s: State, a: Action)
    requires LifeCycle(s) && Enabled(s, a) && !LogsFromPump(a) && !OtherPumpAction(a)
    ensures LifeCycle(Do(s, a))
  {
  }

  lemma LifeCycleStep(s: State, a: Action)
    requires LifeCycle(s) && Enabled(s, a)
    ensures LifeCycle(Do(s, a))
  {
    if LogsFromPump(a) {
      LoggingKeepsLifeCycle(s, a);
    } else if OtherPumpAction(a) {
      PumpKeepsLifeCycle(s, a);
    } else {
      SendersKeepLifeCycle(s, a);
    }
  }

  // ---------------------------------------------------------------------------
  // Correlation
  // ---------------------------------------------------------------------------

  /** The response the pump still has in hand. */
  function InHand(p: Pump): seq<Out> { if p.Emitting? then [p.out] else [] }

  /** A frame read but not yet handled. */
  predicate Unhandled(p: Pump) { p.Got? || p.Matched? }

  function PumpOf(s: State): Pump {
    if s.dialled > 0 && s.dialled - 1 in s.pumps then s.pumps[s.dialled - 1] else Exiting
  }

  /** The only pump that can be running was started for the latest connection. */
  predicate LatestPump(s: State) { forall g :: g in s.pumps ==> g == s.dialled - 1 }

  predicate Correlates(s: State) {
    && Fresh(s.log)
    && s.inflight == Outstanding(s.log)
    && (s.writer.Some? ==> s.writer.value.0 in StoredIds(s.log))
    && s.written <= StoredIds(s.log)
    && s.out + InHand(PumpOf(s)) == Outs(s.log)
    && s.framesRead == Frames(s.log) + (if Unhandled(PumpOf(s)) then 1 else 0)
    && (PumpOf(s).Matched? ==> Answers(s.inflight, PumpOf(s).frame))
    && Errors(s.log) + (if MayReport(PumpOf(s)) then 1 else 0) <= s.dialled
  }

  /** The pump has not been through its one read error yet. */
  predicate MayReport(p: Pump) { !p.Closing? && !p.Exiting? }

  lemma LatestPumpStep(s: State, a: Action)
    requires LifeCycle(s) && LatestPump(s) && Enabled(s, a)
    ensures LatestPump(Do(s, a))
    ensures LogsFromPump(a) || OtherPumpAction(a) ==>
      && PumpOf(s) == s.pumps[a.g]
      && PumpOf(Do(s, a)) == if a.Exit? then Exiting else Do(s, a).pumps[a.g]
    ensures !LogsFromPump(a) && !OtherPumpAction(a) ==>
      || PumpOf(Do(s, a)) == PumpOf(s)
      || (PumpOf(s).Exiting? && PumpOf(Do(s, a)).Reading?)
  {
  }

  lemma LoadCorrelates(s: State, a: Action)
    requires LifeCycle(s) && LatestPump(s) && Correlates(s) && Enabled(s, a) && a.Load?
    ensures Correlates(Do(s, a))
  {
    LatestPumpStep(s, a);
    LogSnoc(s.log, Handled(PumpOf(s).frame, PumpOf(s).firstByte, a.restorable));
    assert s.out + [] == s.out;
  }

  lemma DeleteCorrelates(s: State, a: Action)
    requires LifeCycle(s) && LatestPump(s) && Correlates(s) && Enabled(s, a) && a.Delete?
    ensures Correlates(Do(s, a))
  {
    LatestPumpStep(s, a);
    LogSnoc(s.log, Handled(PumpOf(s).frame, PumpOf(s).firstByte, a.restorable));
    assert s.out + [] == s.out;
  }

  lemma LoudReportCorrelates(s: State, a: Action)
    requires LifeCycle(s) && LatestPump(s) && Correlates(s) && Enabled(s, a) && a.Report?
    requires Surfaces(s.pumps[a.g].err)
    ensures Correlates(Do(s, a))
  {
    LatestPumpStep(s, a);
    LogSnoc(s.log, Surfaced(PumpOf(s).err));
    assert s.out + [] == s.out;
  }

  lemma QuietReportCorrelates(s: State, a: Action)
    requires LifeCycle(s) && LatestPump(s) && Correlates(s) && Enabled(s, a) && a.Report?
    requires !Surfaces(s.pumps[a.g].err)
    ensures Correlates(Do(s, a))
  {
    LatestPumpStep(s, a);
    assert s.out + [] == s.out;
  }

  lemma OtherPumpActionCorrelates(s: State, a: Action)
    requires LifeCycle(s) && LatestPump(s) && Correlates(s) && Enabled(s, a) && OtherPumpAction(a)
    ensures Correlates(Do(s, a))
  {
    LatestPumpStep(s, a);
    assert s.out + [] == s.out && Do(s, a).out + [] == Do(s, a).out;
  }

  lemma StoreCorrelates(s: State, a: Action)
    requires LifeCycle(s) && LatestPump(s) && Correlates(s) && Enabled(s, a) && a.Store?
    ensures Correlates(Do(s, a))
  {
    LatestPumpStep(s, a);
    LogSnoc(s.log, Stored(a.id, a.msg));
  }

  lemma ReconnectsCorrelate(s: State, a: Action)
    requires LifeCycle(s) && LatestPump(s) && Correlates(s) && Enabled(s, a)
    requires !LogsFromPump(a) && !OtherPumpAction(a) && !a.Store?
    ensures Correlates(Do(s, a))
  {
    LatestPumpStep(s, a);
  }

  lemma CorrelatesStep(s: State, a: Action)
    requires LifeCycle(s) && LatestPump(s) && Correlates(s) && Enabled(s, a)
    ensures LatestPump(Do(s, a)) && Correlates(Do(s, a))
  {
    LatestPumpStep(s, a);
    if LogsFromPump(a) {
      match a {
        case Load(_, _) => LoadCorrelates(s, a);
        case Delete(_, _) => DeleteCorrelates(s, a);
        case Report(g) =>
          if Surfaces(s.pumps[g].err) {
            LoudReportCorrelates(s, a);
          } else {
            QuietReportCorrelates(s, a);
          }
      }
    } else if OtherPumpAction(a) {
      OtherPumpActionCorrelates(s, a);
    } else if a.Store? {
      StoreCorrelates(s, a);
    } else {
      ReconnectsCorrelate(s, a);
    }
  }

  lemma {:induction false} Along(s: State, acts: seq<Action>)
    requires Runs(s, acts) && LifeCycle(s) && LatestPump(s) && Correlates(s)
    ensures LifeCycle(After(s, acts)) && LatestPump(After(s, acts)) && Correlates(After(s, acts))
    decreases acts
  {
    if acts != [] {
      LifeCycleStep(s, acts[0]);
      CorrelatesStep(s, acts[0]);
      Along(Do(s, acts[0]), acts[1..]);
    }
  }

  lemma Invariants(s: State)
    requires Reachable(s)
    ensures LifeCycle(s) && LatestPump(s) && Correlates(s)
  {
    var acts :| Runs(BEGINNING, acts) && After(BEGINNING, acts) == s;
    Along(BEGINNING, acts);
  }

  // ---------------------------------------------------------------------------
  // Main results
  // ---------------------------------------------------------------------------

  lemma AtMostOne(m: map<nat, Pump>)
    requires forall g, g' :: g in m && g' in m ==> g == g'
    ensures |m| <= 1
    ensures forall g :: g in m ==> m.Keys == {g} && m - {g} == map[]
  {
    if g :| g in m {
      assert m.Keys == {g};
      assert |m| == |m.Keys|;
    }
  }

  /** While there is a connection exactly one read pump runs, the one started for it; a pump never
      closes a connection installed after it started; and every connection ever dialled but the
      current one is shut. */
  lemma ConnectionLifeCycle(s: State)
    requires Reachable(s)
    ensures s.conn.Some? ==> s.pumps.Keys == {s.conn.value}
    ensures |s.pumps| <= 1
    ensures forall g :: Enabled(s, CloseConn(g)) && s.conn.Some? ==> s.conn.value == g
    ensures forall c :: 0 <= c < s.dialled && c !in s.shut ==> s.conn == Some(c)
  {
    Invariants(s);
    AtMostOne(s.pumps);
  }

  /** A pump that ends on a read error leaves no connection and no pump behind. */
  lemma ExitLeavesNil(s: State, g: nat)
    requires Reachable(s) && Enabled(s, Exit(g))
    ensures Do(s, Exit(g)).conn.None? && Do(s, Exit(g)).pumps == map[]
  {
    Invariants(s);
    AtMostOne(s.pumps);
  }

  /** What a pump still has to do before it is gone, frames that its reader holds included. */
  function PumpRank(s: State): nat {
    if s.pumps == map[] then 0 else Stage(PumpOf(s)) + 4 * s.buffered
  }

  function Stage(p: Pump): nat {
    match p
    case Got(_, _) => 7
    case Matched(_, _) => 6
    case Emitting(_) => 5
    case Reading => 4
    case Failing(_) => 3
    case Closing => 2
    case Exiting => 1
  }

  /** A reconnect that waits for the pump waits for at most seven steps of it, and four for every frame
      that its reader held when the connection was shut: no step adds to what the pump has to do, each
      step of its own brings it closer to the end, and it always has one that no sender holds up. */
  lemma ReconnectWaitEnds(s: State)
    requires Reachable(s) && s.rc == Waiting
    ensures PumpRank(s) <= 7 + 4 * s.buffered
    ensures PumpRank(s) == 0 <==> Enabled(s, PumpGone)
    ensures forall a :: Enabled(s, a) ==> PumpRank(Do(s, a)) <= PumpRank(s)
    ensures forall a :: Enabled(s, a) && (LogsFromPump(a) || OtherPumpAction(a)) ==> PumpRank(Do(s, a)) < PumpRank(s)
    ensures PumpRank(s) > 0 ==> exists a :: Enabled(s, a) && (LogsFromPump(a) || OtherPumpAction(a))
  {
    Invariants(s);
    forall a | Enabled(s, a)
      ensures PumpRank(Do(s, a)) <= PumpRank(s)
      ensures LogsFromPump(a) || OtherPumpAction(a) ==> PumpRank(Do(s, a)) < PumpRank(s)
    {
      WaitingStep(s, a);
    }
    if s.pumps != map[] {
      var a := NextPumpAction(s);
    }
  }

  lemma WaitingStep(s: State, a: Action)
    requires LifeCycle(s) && LatestPump(s) && s.rc == Waiting && Enabled(s, a)
    ensures PumpRank(Do(s, a)) <= PumpRank(s) && Do(s, a).dialled == s.dialled
    ensures LogsFromPump(a) || OtherPumpAction(a) ==> PumpRank(Do(s, a)) < PumpRank(s) && Do(s, a).rc == Waiting
  {
    LatestPumpStep(s, a);
    if a.Exit? {
      AtMostOne(s.pumps);
    }
  }

  lemma NextPumpAction(s: State) returns (a: Action)
    requires LifeCycle(s) && LatestPump(s) && s.rc == Waiting && s.pumps != map[]
    ensures Enabled(s, a) && (LogsFromPump(a) || OtherPumpAction(a))
  {
    var g :| g in s.pumps;
    match s.pumps[g] {
      case Reading => a := ReadFails(g, LocallyClosed);
      case Got(_, _) => a := Load(g, true);
      case Matched(_, _) => a := Delete(g, true);
      case Emitting(_) => a := Emit(g);
      case Failing(_) => a := Report(g);
      case Closing => a := CloseConn(g);
      case Exiting => a := Exit(g);
    }
  }

  predicate ReconnectAction(a: Action) { LogsFromPump(a) || OtherPumpAction(a) || a.PumpGone? || a.Redial? }

  /** Such actions bring the reconnect to its end: the dial leaves the next connection with its pump, or
      none. */
  predicate Completes(s: State, acts: seq<Action>, ok: bool) {
    && Runs(s, acts) && (forall i :: 0 <= i < |acts| ==> ReconnectAction(acts[i]))
    && var end := After(s, acts);
    && end.rc == Quiet && end.dialled == s.dialled + (if ok then 1 else 0)
    && (ok ==> Usable(end) && end.conn == Some(s.dialled) && end.pumps == map[s.dialled := Reading])
    && (!ok ==> end.conn.None? && end.pumps == map[])
  }

  lemma RedialCompletes(s: State, ok: bool)
    requires LifeCycle(s) && s.rc == Waiting && s.pumps == map[]
    ensures Completes(s, [PumpGone, Redial(ok)], ok)
  {
    var s1 := Do(s, PumpGone);
    var s2 := Do(s1, Redial(ok));
    assert [PumpGone, Redial(ok)][1..] == [Redial(ok)] && [Redial(ok)][1..] == [];
    assert After(s2, []) == s2 && After(s1, [Redial(ok)]) == s2;
    assert After(s, [PumpGone, Redial(ok)]) == s2;
  }

  lemma {:induction false} CompletesFrom(s: State, ok: bool) returns (acts: seq<Action>)
    requires LifeCycle(s) && LatestPump(s) && s.rc == Waiting
    ensures |acts| <= PumpRank(s) + 2 && Completes(s, acts, ok)
    decreases PumpRank(s)
  {
    if s.pumps == map[] {
      acts := [PumpGone, Redial(ok)];
      RedialCompletes(s, ok);
    } else {
      var a := NextPumpAction(s);
      WaitingStep(s, a);
      LatestPumpStep(s, a);
      LifeCycleStep(s, a);
      var rest := CompletesFrom(Do(s, a), ok);
      acts := [a] + rest;
      assert acts[1..] == rest;
    }
  }

  /** So a reconnect under way can be completed without any sender: what is left of the pump ends, and
      the dial, if it succeeds, leaves the next connection with its pump, and otherwise none. */
  lemma ReconnectCompletes(s: State, ok: bool) returns (acts: seq<Action>)
    requires Reachable(s) && s.rc == Waiting
    ensures |acts| <= 9 + 4 * s.buffered && Completes(s, acts, ok)
  {
    Invariants(s);
    acts := CompletesFrom(s, ok);
  }

  /** What is stored can be written: nothing takes the connection from a sender between the two. */
  lemma StoredIsWritten(s: State)
    requires Reachable(s) && s.writer.Some?
    ensures Enabled(s, Write)
    ensures forall a :: Enabled(s, a) && !a.Write? ==> Do(s, a).conn == s.conn && Do(s, a).writer == s.writer
  {
    Invariants(s);
  }

  /** Across any reconnects: stored sends are inflight or matched once, and the pump has produced one
      response per frame read and per surfaced read error, but for the frame it is working on; no
      connection surfaces more than one read error. */
  lemma WsAccounting(s: State)
    requires Reachable(s)
    ensures Stores(s.log) == |s.inflight| + Matches(s.log)
    ensures |s.out| + |InHand(PumpOf(s))| + (if Unhandled(PumpOf(s)) then 1 else 0)
              == s.framesRead + Errors(s.log)
    ensures Errors(s.log) <= s.dialled
  {
    Invariants(s);
    Accounts(s.log);
  }

  /** The event that produced the n-th response. */
  lemma {:induction false} OutOrigin(log: Log, n: nat) returns (i: nat)
    requires n < |Outs(log)|
    ensures i < |log| && |Outs(log[..i])| == n
    ensures log[i].Surfaced? ==> Outs(log)[n] == ReadFailed(log[i].err)
    ensures log[i].Handled? ==>
      Outs(log)[n] == Verdict(Outstanding(log[..i]), log[i].frame, log[i].firstByte, log[i].restorable)
    ensures !log[i].Stored?
  {
    var f := Front(log);
    if n < |Outs(f)| {
      i := OutOrigin(f, n);
      assert f[..i] == log[..i];
    } else {
      i := |f|;
      assert log[..i] == f;
    }
  }

  /** The n-th response was produced by a frame that was matched to send k. */
  predicate AnswersSend(s: State, n: nat, i: nat, k: nat) {
    && k < i && AnsweredAt(s.log, i) && |Outs(s.log[..i])| == n
    && s.log[k].Stored? && s.log[k].id == s.log[i].frame.id
  }

  /** Every success carries the original id and send time of an earlier send. */
  lemma SuccessCorrelated(s: State, n: nat) returns (i: nat, k: nat)
    requires Reachable(s) && n < |s.out| && s.out[n].Success?
    ensures AnswersSend(s, n, i, k)
    ensures s.out[n] ==
      Success(s.log[k].msg.originalId, s.log[k].msg.timeSent, s.log[i].firstByte, s.log[i].frame.body)
  {
    Invariants(s);
    assert s.out[n] == Outs(s.log)[n];
    i := OutOrigin(s.log, n);
    k := MatchedSend(s.log, i);
  }

  lemma {:induction false} OutsGrow(log: Log, i: nat, j: nat)
    requires i < j <= |log| && !log[i].Stored?
    ensures |Outs(log[..i])| < |Outs(log[..j])|
    decreases j
  {
    assert Front(log[..j]) == log[..j - 1] && Last(log[..j]) == log[j - 1];
    if i < j - 1 {
      OutsGrow(log, i, j - 1);
    }
  }

  /** A response answers one send only, and no send is answered by two responses. */
  lemma OneAnswerPerSend(s: State, n: nat, i: nat, k: nat, n': nat, i': nat, k': nat)
    requires Reachable(s) && AnswersSend(s, n, i, k) && AnswersSend(s, n', i', k')
    ensures n == n' <==> k == k'
  {
    Invariants(s);
    if k == k' {
      AnsweredApart(s.log, i, i');
    } else if n == n' {
      if i < i' {
        OutsGrow(s.log, i, i');
      } else if i' < i {
        OutsGrow(s.log, i', i);
      }
      StoredApart(s.log, k, k');
    }
  }

  /** When the pump looks up a reply to a written id, the first such reply is matched and every further
      one becomes an unknown id, whatever senders and reconnects do: storing precedes writing. */
  lemma FirstReplyMatched(s: State, g: nat, restorable: bool)
    requires Reachable(s) && Enabled(s, Load(g, restorable))
    requires s.pumps[g].frame.Response? && !s.pumps[g].frame.empty && s.pumps[g].frame.id in s.written
    ensures var id, s' := s.pumps[g].frame.id, Do(s, Load(g, restorable));
            && (id !in AnsweredIds(s.log) ==> s'.pumps[g].Matched? && Enabled(s', Delete(g, restorable)))
            && (id in AnsweredIds(s.log) ==> s'.pumps[g] == Emitting(UnknownId(id)))
  {
    Invariants(s);
    InflightIds(s.log);
    StoredNonEmpty(s.log, s.pumps[g].frame.id);
  }

  /** The pump takes one frame from reading to emitting with nobody else moving. */
  predicate HandlesAlone(s: State, g: nat, frame: Frame, at: Time, restorable: bool, end: State) {
    && Enabled(s, Read(g, frame, at))
    && var s1 := Do(s, Read(g, frame, at));
    && Enabled(s1, Load(g, restorable))
    && var s2 := Do(s1, Load(g, restorable));
    && (s2.pumps[g].Matched? ==> Enabled(s2, Delete(g, restorable)))
    && var s3 := if s2.pumps[g].Matched? then Do(s2, Delete(g, restorable)) else s2;
    && Enabled(s3, Emit(g))
    && end == Do(s3, Emit(g))
  }

  /** Its steps then compose to one call of the endpoint's handler: the same log, the same inflight
      messages, and one more response, the same verdict. */
  lemma AloneIsSequential(s: State, g: nat, frame: Frame, at: Time, restorable: bool) returns (end: State)
    requires Reachable(s) && Enabled(s, Read(g, frame, at))
    ensures HandlesAlone(s, g, frame, at, restorable, end)
    ensures end.log == s.log + [Handled(frame, at, restorable)] && end.inflight == Outstanding(end.log)
    ensures end.out == s.out + [Verdict(Outstanding(s.log), frame, at, restorable)]
  {
    Invariants(s);
    LogSnoc(s.log, Handled(frame, at, restorable));
    var s1 := Do(s, Read(g, frame, at));
    var s2 := Do(s1, Load(g, restorable));
    var s3 := if s2.pumps[g].Matched? then Do(s2, Delete(g, restorable)) else s2;
    end := Do(s3, Emit(g));
  }

  /** And a sender's two steps compose to one send of the endpoint, which no frame or reconnect can part:
      the same log, the same inflight messages, and the id is out if the request carries it. */
  lemma SendIsSequential(s: State, id: Id, msg: Inflight, carries: bool)
    requires Reachable(s) && Enabled(s, Store(id, msg, carries))
    ensures var s1 := Do(s, Store(id, msg, carries));
            && Enabled(s1, Write)
            && var end := Do(s1, Write);
            && end.log == s.log + [Stored(id, msg)] && end.inflight == Outstanding(end.log)
            && end.written == (if carries then s.written + {id} else s.written) && end.writer.None?
  {
    Invariants(s);
    LogSnoc(s.log, Stored(id, msg));
  }

  // ---------------------------------------------------------------------------
  // What can always be done
  // ---------------------------------------------------------------------------

  /** What a pump can do, whatever else goes on: between two frames meet any error, or read any frame from
      a live connection, or from the reader of a shut one while that still holds some; after that handle the
      frame, or report the error and close, the last but for a sender's holding the connection. */
  lemma PumpReady(s: State, g: nat, f: Frame, t: Time, e: ReadError, restorable: bool)
    requires Reachable(s) && g in s.pumps
    ensures s.pumps[g].Reading? ==> Enabled(s, ReadFails(g, e))
    ensures s.pumps[g].Reading? && s.conn.Some? && (s.rc == Quiet || s.buffered > 0) ==> Enabled(s, Read(g, f, t))
    ensures s.pumps[g].Got? ==> Enabled(s, Load(g, restorable))
    ensures s.pumps[g].Matched? ==> Enabled(s, Delete(g, restorable))
    ensures s.pumps[g].Emitting? ==> Enabled(s, Emit(g))
    ensures s.pumps[g].Failing? ==> Enabled(s, Report(g))
    ensures s.pumps[g].Closing? && s.writer.None? ==> Enabled(s, CloseConn(g))
    ensures s.pumps[g].Exiting? ==> Enabled(s, Exit(g))
  {
    Invariants(s);
  }

  /** Over a connection that nobody is replacing a sender can store under any fresh id when no other sends,
      and its pump runs. */
  lemma ConnectionUsable(s: State, id: Id, msg: Inflight, carries: bool)
    requires Reachable(s) && s.conn.Some? && s.rc == Quiet
    ensures s.conn.value in s.pumps && s.conn.value !in s.shut
    ensures s.writer.None? && id != "" && id !in StoredIds(s.log) ==> Enabled(s, Store(id, msg, carries))
  {
    Invariants(s);
  }

  /** The first connection can be made, and a reconnect begun, whenever nothing else is going on. */
  lemma ConnectionObtainable(s: State, ok: bool, left: nat)
    requires Reachable(s) && s.writer.None? && s.rc == Quiet
    ensures s.dialled == 0 ==> Enabled(s, Connect(ok)) && (Do(s, Connect(ok)).conn.Some? <==> ok)
    ensures s.conn.Some? || left == 0 ==>
      && Enabled(s, StartReconnect(left))
      && var s' := Do(s, StartReconnect(left));
      && s'.rc == Waiting && s'.buffered == left && !Usable(s') && s'.inflight == s.inflight
  {
    Invariants(s);
  }

  lemma {:induction false} RunsSnoc(s: State, acts: seq<Action>, a: Action)
    requires Runs(s, acts) && Enabled(After(s, acts), a)
    ensures Runs(s, acts + [a]) && After(s, acts + [a]) == Do(After(s, acts), a)
    decreases acts
  {
    var all := acts + [a];
    if acts == [] {
      assert all[1..] == [] && all[0] == a;
    } else {
      assert all[1..] == acts[1..] + [a] && all[0] == acts[0];
      RunsSnoc(Do(s, acts[0]), acts[1..], a);
    }
  }

  lemma ReachableStep(s: State, a: Action)
    requires Reachable(s) && Enabled(s, a)
    ensures Reachable(Do(s, a))
  {
    var acts :| Runs(BEGINNING, acts) && After(BEGINNING, acts) == s;
    RunsSnoc(BEGINNING, acts, a);
  }

  /** The sender's two steps. */
  predicate Sends(s: State, id: Id, msg: Inflight, carries: bool, sent: State) {
    && Enabled(s, Store(id, msg, carries))
    && Enabled(Do(s, Store(id, msg, carries)), Write)
    && sent == Do(Do(s, Store(id, msg, carries)), Write)
  }

  lemma SendReached(s: State, id: Id, msg: Inflight, carries: bool) returns (sent: State)
    requires Reachable(s) && Enabled(s, Store(id, msg, carries))
    ensures Sends(s, id, msg, carries, sent) && Reachable(sent)
    ensures sent.pumps == s.pumps && sent.conn == s.conn && sent.shut == s.shut && sent.out == s.out
    ensures sent.log == s.log + [Stored(id, msg)] && id !in s.inflight && sent.inflight == s.inflight[id := msg]
    ensures sent.written == if carries then s.written + {id} else s.written
  {
    Invariants(s);
    InflightIds(s.log);
    sent := Do(Do(s, Store(id, msg, carries)), Write);
    ReachableStep(s, Store(id, msg, carries));
    ReachableStep(Do(s, Store(id, msg, carries)), Write);
  }

  /** A pump between two frames that reads the reply to an inflight message makes a success of it. */
  lemma ReplySucceeds(s: State, g: nat, id: Id, body: string, at: Time) returns (end: State)
    requires Reachable(s) && Enabled(s, Read(g, Response(false, id, body), at)) && id != "" && id in s.inflight
    ensures HandlesAlone(s, g, Response(false, id, body), at, true, end)
    ensures end.out == s.out + [Success(s.inflight[id].originalId, s.inflight[id].timeSent, at, body)]
    ensures end.inflight == s.inflight - {id}
  {
    Invariants(s);
    LogSnoc(s.log, Handled(Response(false, id, body), at, true));
    end := AloneIsSequential(s, g, Response(false, id, body), at, true);
  }

  /** A message can be sent over such a connection and the server's first reply to it be handled: the
      result is a success with the message's own id and send time, and nothing is left inflight of it. */
  lemma ExchangeSucceeds(s: State, id: Id, msg: Inflight, body: string, at: Time) returns (sent: State, end: State)
    requires Reachable(s) && s.conn.Some? && s.rc == Quiet && s.writer.None?
    requires s.conn.value in s.pumps && s.pumps[s.conn.value].Reading? && id != "" && id !in StoredIds(s.log)
    ensures Sends(s, id, msg, true, sent) && id in sent.written
    ensures HandlesAlone(sent, s.conn.value, Response(false, id, body), at, true, end)
    ensures end.out == s.out + [Success(msg.originalId, msg.timeSent, at, body)] && end.inflight == s.inflight
  {
    ConnectionUsable(s, id, msg, true);
    sent := SendReached(s, id, msg, true);
    PumpReady(sent, s.conn.value, Response(false, id, body), at, Timeout, true);
    end := ReplySucceeds(sent, s.conn.value, id, body, at);
    assert s.inflight[id := msg] - {id} == s.inflight;
  }

  /** A read error ends the pump and the connection. Close codes 1000, 1001 and 1012 and a local close do so
      without a response, anything else with exactly one. */
  lemma ReadErrorEnds(s: State, e: ReadError)
    requires Reachable(s) && s.conn.Some? && s.rc == Quiet && s.writer.None?
    requires s.conn.value in s.pumps && s.pumps[s.conn.value].Reading?
    ensures var g := s.conn.value;
            && Enabled(s, ReadFails(g, e))
            && var s1 := Do(s, ReadFails(g, e));
            && Enabled(s1, Report(g))
            && var s2 := Do(s1, Report(g));
            && Enabled(s2, CloseConn(g))
            && var s3 := Do(s2, CloseConn(g));
            && Enabled(s3, Exit(g))
            && var end := Do(s3, Exit(g));
            && end.conn.None? && end.pumps == map[] && g in end.shut && end.inflight == s.inflight
            && (e.LocallyClosed? || (e.CloseFrame? && (e.code == 1000 || e.code == 1001 || e.code == 1012)) ==>
                 end.out == s.out)
            && (e.Timeout? || e.OtherReadError? ||
                (e.CloseFrame? && e.code != 1000 && e.code != 1001 && e.code != 1012) ==>
                 end.out == s.out + [ReadFailed(e)])
  {
    Invariants(s);
    AtMostOne(s.pumps);
  }

  lemma {:induction false} StoredNonEmpty(log: Log, id: Id)
    requires Fresh(log) && id in StoredIds(log)
    ensures id != ""
  {
    if !(Last(log).Stored? && Last(log).id == id) {
      StoredNonEmpty(Front(log), id);
    }
  }
}
