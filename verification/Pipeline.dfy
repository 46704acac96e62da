/** wadjit.go: the response pipeline. Watchers put responses on the gather channel, one forwarder moves
    them to the export channel, a consumer takes them from there, and Close shuts all of it down in
    order. Channels are buffers with a capacity; a waiting receiver takes directly from a sender. */
module Pipeline {

  type Resp = string

  /** The forwarder: in its select, holding a received response before it has looked at the context,
      sending one, or returned. */
  datatype Forwarder = Selecting | Holding(resp: Resp) | Sending(resp: Resp) | Returned

  /** How far the one call of Close that runs has got. */
  datatype Closer = NotClosing | Cancelled | Stopped | GatherClosed | Waited | Closed

  datatype State = State(
    cap: nat,
    gathered: seq<Resp>,            // everything ever put on the gather channel
    gatherBuf: seq<Resp>,
    forwarder: Forwarder,
    exportBuf: seq<Resp>,
    consumed: seq<Resp>,
    dropped: seq<Resp>,             // received by the forwarder and never exported
    closer: Closer,
    exportedAtCancel: nat,
    exportCloses: nat)

  function Start(cap: nat): State {
    State(cap, [], [], Selecting, [], [], [], NotClosing, 0, 0)
  }

  datatype Action =
    | Gather(resp: Resp)
    | GatherDirect(resp: Resp)      // the forwarder is waiting
    | Receive
    | CheckContext
    | SeeCancelled
    | SeeGatherClosed
    | Send
    | HandOver                      // the consumer is waiting
    | Consume
    | Cancel
    | StopWatchers
    | CloseGather
    | AwaitForwarder
    | CloseExport

  predicate IsCancelled(s: State) { s.closer != NotClosing }

  predicate GatherOpen(s: State) { s.closer == NotClosing || s.closer == Cancelled || s.closer == Stopped }

  /** No step looks at whether the export channel is closed: that is what has to be proved. */
  predicate Enabled(s: State, a: Action) {
    match a
    case Gather(_) => GatherOpen(s) && |s.gatherBuf| < s.cap
    case GatherDirect(_) => GatherOpen(s) && s.forwarder.Selecting? && s.gatherBuf == []
    case Receive => s.forwarder.Selecting? && s.gatherBuf != []
    case CheckContext => s.forwarder.Holding?
    case SeeCancelled => s.forwarder.Selecting? && IsCancelled(s)
    case SeeGatherClosed => s.forwarder.Selecting? && s.gatherBuf == [] && !GatherOpen(s)
    case Send => s.forwarder.Sending? && |s.exportBuf| < s.cap
    case HandOver => s.forwarder.Sending? && s.exportBuf == []
    case Consume => s.exportBuf != []
    case Cancel => s.closer == NotClosing
    case StopWatchers => s.closer == Cancelled
    case CloseGather => s.closer == Stopped
    case AwaitForwarder => s.closer == GatherClosed && s.forwarder.Returned?
    case CloseExport => s.closer == Waited
  }

  function Do(s: State, a: Action): State
    requires Enabled(s, a)
  {
    match a
    case Gather(x) => s.(gatherBuf := s.gatherBuf + [x], gathered := s.gathered + [x])
    case GatherDirect(x) => s.(forwarder := Holding(x), gathered := s.gathered + [x])
    case Receive => s.(forwarder := Holding(s.gatherBuf[0]), gatherBuf := s.gatherBuf[1..])
    case CheckContext =>
      if IsCancelled(s) then s.(forwarder := Returned, dropped := s.dropped + [s.forwarder.resp])
      else s.(forwarder := Sending(s.forwarder.resp))
    case SeeCancelled => s.(forwarder := Returned)
    case SeeGatherClosed => s.(forwarder := Returned)
    case Send => s.(forwarder := Selecting, exportBuf := s.exportBuf + [s.forwarder.resp])
    case HandOver => s.(forwarder := Selecting, consumed := s.consumed + [s.forwarder.resp])
    case Consume => s.(consumed := s.consumed + [s.exportBuf[0]], exportBuf := s.exportBuf[1..])
    case Cancel => s.(closer := Cancelled, exportedAtCancel := |Exported(s)|)
    case StopWatchers => s.(closer := Stopped)
    case CloseGather => s.(closer := GatherClosed)
    case AwaitForwarder => s.(closer := Waited)
    case CloseExport => s.(closer := Closed, exportCloses := s.exportCloses + 1)
  }

  /** Everything ever put on the export channel. */
  function Exported(s: State): seq<Resp> { s.consumed + s.exportBuf }

  function InHand(s: State): seq<Resp> {
    if s.forwarder.Holding? || s.forwarder.Sending? then [s.forwarder.resp] else []
  }

  predicate Runs(s: State, acts: seq<Action>)
    decreases acts
  {
    acts == [] || (Enabled(s, acts[0]) && Runs(Do(s, acts[0]), acts[1..]))
  }

  function After(s: State, acts: seq<Action>): State
    requires Runs(s, acts)
    decreases acts
  {
    if acts == [] then s else After(Do(s, acts[0]), acts[1..])
  }

  ghost predicate Reachable(s: State) {
    exists acts :: Runs(Start(s.cap), acts) && After(Start(s.cap), acts) == s
  }

  // ---------------------------------------------------------------------------

  /** Everything gathered is exported, in hand, dropped or still buffered, in this order. */
  predicate InOrder(s: State) {
    s.gathered == Exported(s) + (InHand(s) + s.dropped) + s.gatherBuf
  }

  predicate Counted(s: State) {
    && |s.dropped| <= 1
    && (s.dropped != [] ==> s.forwarder.Returned? && IsCancelled(s))
    && (s.forwarder.Returned? ==> IsCancelled(s))
    && (IsCancelled(s) ==> |Exported(s)| + (if s.forwarder.Sending? then 1 else 0) <= s.exportedAtCancel + 1)
    && (s.closer == Waited || s.closer == Closed ==> s.forwarder.Returned?)
    && s.exportCloses == (if s.closer == Closed then 1 else 0)
    && |s.exportBuf| <= s.cap && |s.gatherBuf| <= s.cap
  }

  predicate Inv(s: State) { InOrder(s) && Counted(s) }

  /** Exporting a response appends it; no step reorders or removes what was exported. */
  lemma ExportedStep(s: State, a: Action)
    requires Enabled(s, a)
    ensures Exported(Do(s, a)) == Exported(s) + if a.Send? || a.HandOver? then [s.forwarder.resp] else []
  {
    if a.Consume? {
      assert s.exportBuf == [s.exportBuf[0]] + s.exportBuf[1..];
    }
  }

  lemma Regroup(e: seq<Resp>, x: seq<Resp>, y: seq<Resp>)
    ensures e + (x + []) + y == (e + x) + ([] + []) + y
    ensures e + ([] + []) + (x + y) == e + (x + []) + y
  {
  }

  lemma GatherInOrder(s: State, a: Action)
    requires Inv(s) && Enabled(s, a) && (a.Gather? || a.GatherDirect?)
    ensures InOrder(Do(s, a))
  {
    match a
    case Gather(x) => assert Do(s, a).gathered == Exported(s) + (InHand(s) + s.dropped) + (s.gatherBuf + [x]);
    case GatherDirect(x) => Regroup(Exported(s), [x], []);
  }

  lemma ReceiveInOrder(s: State)
    requires Inv(s) && Enabled(s, Receive)
    ensures InOrder(Do(s, Receive))
  {
    assert s.gatherBuf == [s.gatherBuf[0]] + s.gatherBuf[1..];
    Regroup(Exported(s), [s.gatherBuf[0]], s.gatherBuf[1..]);
  }

  lemma ExportInOrder(s: State, a: Action)
    requires Inv(s) && Enabled(s, a) && (a.Send? || a.HandOver?)
    ensures InOrder(Do(s, a))
  {
    ExportedStep(s, a);
    Regroup(Exported(s), [s.forwarder.resp], s.gatherBuf);
  }

  lemma CheckInOrder(s: State)
    requires Inv(s) && Enabled(s, CheckContext)
    ensures InOrder(Do(s, CheckContext))
  {
    assert s.dropped == [];
    assert [] + [s.forwarder.resp] == [s.forwarder.resp] + [];
  }

  lemma OtherInOrder(s: State, a: Action)
    requires Inv(s) && Enabled(s, a) && !a.CheckContext?
    requires !a.Gather? && !a.GatherDirect? && !a.Receive? && !a.Send? && !a.HandOver?
    ensures InOrder(Do(s, a))
  {
    ExportedStep(s, a);
  }

  lemma InOrderStep(s: State, a: Action)
    requires Inv(s) && Enabled(s, a)
    ensures InOrder(Do(s, a))
  {
    match a
    case Gather(_) => GatherInOrder(s, a);
    case GatherDirect(_) => GatherInOrder(s, a);
    case Receive => ReceiveInOrder(s);
    case Send => ExportInOrder(s, a);
    case HandOver => ExportInOrder(s, a);
    case CheckContext => CheckInOrder(s);
    case _ => OtherInOrder(s, a);
  }

  lemma CountedStep(s: State, a: Action)
    requires Counted(s) && Enabled(s, a)
    ensures Counted(Do(s, a)) && Do(s, a).cap == s.cap
  {
    ExportedStep(s, a);
  }

  lemma InvStep(s: State, a: Action)
    requires Inv(s) && Enabled(s, a)
    ensures Inv(Do(s, a)) && Do(s, a).cap == s.cap
  {
    InOrderStep(s, a);
    CountedStep(s, a);
  }

  lemma {:induction false} InvAlong(s: State, acts: seq<Action>)
    requires Inv(s) && Runs(s, acts)
    ensures Inv(After(s, acts)) && Exported(s) <= Exported(After(s, acts))
    decreases acts
  {
    if acts != [] {
      InvStep(s, acts[0]);
      ExportedStep(s, acts[0]);
      InvAlong(Do(s, acts[0]), acts[1..]);
    }
  }

  lemma ReachableInv(s: State)
    requires Reachable(s)
    ensures Inv(s)
  {
    var acts :| Runs(Start(s.cap), acts) && After(Start(s.cap), acts) == s;
    InvAlong(Start(s.cap), acts);
  }

  /** Nothing is lost, duplicated or reordered: until Close cancels, everything gathered is consumed,
      buffered for export, in the forwarder's hand or buffered for it, in that order. At all times
      what was exported is a prefix of what was gathered; after the cancellation at most one more
      response is exported and at most one that was received is dropped. */
  lemma Conservation(s: State)
    requires Reachable(s)
    ensures !IsCancelled(s) ==> s.gathered == s.consumed + s.exportBuf + InHand(s) + s.gatherBuf
    ensures s.gathered == Exported(s) + (InHand(s) + s.dropped) + s.gatherBuf
    ensures Exported(s) <= s.gathered && s.consumed <= s.gathered
    ensures IsCancelled(s) ==> |Exported(s)| <= s.exportedAtCancel + 1
    ensures |s.dropped| <= 1
  {
    ReachableInv(s);
    assert InHand(s) + [] == InHand(s);
  }

  /** No reachable step puts a response on the export channel after it was closed, and it is closed at
      most once. */
  lemma NoSendAfterClose(s: State)
    requires Reachable(s)
    ensures Enabled(s, Send) || Enabled(s, HandOver) ==> s.exportCloses == 0
    ensures Enabled(s, CloseExport) ==> s.exportCloses == 0
    ensures s.exportCloses <= 1
  {
    ReachableInv(s);
  }

  // ---------------------------------------------------------------------------
  // Close terminates
  // ---------------------------------------------------------------------------

  function CloserRank(c: Closer): nat {
    match c
    case NotClosing => 5
    case Cancelled => 4
    case Stopped => 3
    case GatherClosed => 2
    case Waited => 1
    case Closed => 0
  }

  function ForwarderRank(f: Forwarder): nat {
    match f
    case Sending(_) => 3
    case Selecting => 2
    case Holding(_) => 1
    case Returned => 0
  }

  /** Decreases with every step after the cancellation but a producer's. */
  function Measure(s: State): nat { 2 * (CloserRank(s.closer) + ForwarderRank(s.forwarder)) + |s.exportBuf| }

  function SystemSteps(acts: seq<Action>): nat {
    if acts == [] then 0 else (if acts[0].Gather? || acts[0].GatherDirect? then 0 else 1) + SystemSteps(acts[1..])
  }

  /** After the cancellation no run has more than Measure steps other than the producers'. */
  lemma {:induction false} CloseBounded(s: State, acts: seq<Action>)
    requires IsCancelled(s) && Runs(s, acts)
    ensures SystemSteps(acts) + Measure(After(s, acts)) <= Measure(s)
    decreases acts
  {
    if acts != [] {
      CloseBounded(Do(s, acts[0]), acts[1..]);
    }
  }

  predicate CloseStep(a: Action) { a.StopWatchers? || a.CloseGather? || a.AwaitForwarder? || a.CloseExport? }

  predicate ForwarderStep(a: Action) {
    a.Receive? || a.CheckContext? || a.SeeCancelled? || a.SeeGatherClosed? || a.Send?
  }

  /** Until Close is done it is never stuck on its own: Close or the forwarder can step, or the
      forwarder waits for room on the export channel, which a consumer that reads provides. */
  lemma CloseProgresses(s: State)
    requires Reachable(s) && IsCancelled(s) && s.closer != Closed
    ensures (exists a :: (CloseStep(a) || ForwarderStep(a)) && Enabled(s, a))
         || (s.forwarder.Sending? && |s.exportBuf| == s.cap && (Enabled(s, Consume) || Enabled(s, HandOver)))
  {
    ReachableInv(s);
    match s.closer {
      case Cancelled => assert CloseStep(StopWatchers) && Enabled(s, StopWatchers);
      case Stopped => assert CloseStep(CloseGather) && Enabled(s, CloseGather);
      case Waited => assert CloseStep(CloseExport) && Enabled(s, CloseExport);
      case GatherClosed =>
        match s.forwarder {
          case Selecting => assert ForwarderStep(SeeCancelled) && Enabled(s, SeeCancelled);
          case Holding(_) => assert ForwarderStep(CheckContext) && Enabled(s, CheckContext);
          case Sending(_) =>
            if |s.exportBuf| < s.cap {
              assert ForwarderStep(Send) && Enabled(s, Send);
            }
          case Returned => assert CloseStep(AwaitForwarder) && Enabled(s, AwaitForwarder);
        }
    }
  }

  predicate ShutdownStep(a: Action) { CloseStep(a) || ForwarderStep(a) || a.Consume? || a.HandOver? }

  lemma NextShutdownStep(s: State) returns (a: Action)
    requires Inv(s) && IsCancelled(s) && s.closer != Closed
    ensures ShutdownStep(a) && Enabled(s, a)
  {
    match s.closer {
      case Cancelled => a := StopWatchers;
      case Stopped => a := CloseGather;
      case Waited => a := CloseExport;
      case GatherClosed =>
        match s.forwarder {
          case Selecting => a := SeeCancelled;
          case Holding(_) => a := CheckContext;
          case Sending(_) => a := if s.exportBuf == [] then HandOver else Consume;
          case Returned => a := AwaitForwarder;
        }
    }
  }

  lemma {:induction false} CompletesFrom(s: State) returns (acts: seq<Action>)
    requires Inv(s) && IsCancelled(s)
    ensures Runs(s, acts) && |acts| <= Measure(s) && forall i :: 0 <= i < |acts| ==> ShutdownStep(acts[i])
    ensures After(s, acts).closer == Closed && After(s, acts).forwarder.Returned? && After(s, acts).exportCloses == 1
    decreases Measure(s)
  {
    acts := [];
    if s.closer != Closed {
      var a := NextShutdownStep(s);
      InvStep(s, a);
      CloseBounded(s, [a]);
      var rest := CompletesFrom(Do(s, a));
      acts := [a] + rest;
      assert acts[1..] == rest;
    }
  }

  /** So with a consumer that reads, Close can be called in every state before the cancellation and
      completed in at most 16 steps and one for every response buffered for export. */
  lemma CloseCompletes(s: State) returns (acts: seq<Action>)
    requires Reachable(s) && !IsCancelled(s)
    ensures Enabled(s, Cancel) && Runs(Do(s, Cancel), acts)
    ensures |acts| <= 16 + |s.exportBuf| && forall i :: 0 <= i < |acts| ==> ShutdownStep(acts[i])
    ensures var end := After(Do(s, Cancel), acts);
            end.closer == Closed && end.forwarder.Returned? && end.exportCloses == 1
  {
    ReachableInv(s);
    InvStep(s, Cancel);
    acts := CompletesFrom(Do(s, Cancel));
  }

  // ---------------------------------------------------------------------------
  // The pipeline runs
  // ---------------------------------------------------------------------------

  /** The forwarder and a consumer that reads. */
  predicate ReadingStep(a: Action) {
    a.Receive? || a.CheckContext? || a.Send? || a.HandOver? || a.Consume?
  }

  function Backlog(s: State): nat {
    5 * |s.gatherBuf| + 2 * |s.exportBuf| +
      match s.forwarder case Holding(_) => 4 case Sending(_) => 3 case Selecting => 0 case Returned => 0
  }

  lemma NextReadingStep(s: State) returns (a: Action)
    requires Inv(s) && !IsCancelled(s) && Backlog(s) > 0
    ensures ReadingStep(a) && Enabled(s, a) && Backlog(Do(s, a)) < Backlog(s) && !IsCancelled(Do(s, a))
    ensures Do(s, a).gathered == s.gathered
  {
    if s.exportBuf != [] {
      a := Consume;
    } else {
      match s.forwarder {
        case Holding(_) => a := CheckContext;
        case Sending(_) => a := HandOver;
        case Selecting => a := Receive;
      }
    }
  }

  lemma {:induction false} DrainsFrom(s: State) returns (acts: seq<Action>)
    requires Inv(s) && !IsCancelled(s)
    ensures Runs(s, acts) && |acts| <= Backlog(s) && forall i :: 0 <= i < |acts| ==> ReadingStep(acts[i])
    ensures var end := After(s, acts);
            Inv(end) && !IsCancelled(end) && Backlog(end) == 0 && end.gathered == s.gathered && end.cap == s.cap
    decreases Backlog(s)
  {
    acts := [];
    if Backlog(s) > 0 {
      var a := NextReadingStep(s);
      InvStep(s, a);
      var rest := DrainsFrom(Do(s, a));
      acts := [a] + rest;
      assert acts[1..] == rest;
    }
  }

  /** Until Close cancels, a consumer that reads can be given everything that was gathered, in order; after
      that any producer can gather again. */
  lemma EverythingIsDelivered(s: State, x: Resp) returns (acts: seq<Action>)
    requires Reachable(s) && !IsCancelled(s)
    ensures Runs(s, acts) && forall i :: 0 <= i < |acts| ==> ReadingStep(acts[i])
    ensures After(s, acts).consumed == s.gathered
    ensures Enabled(After(s, acts), GatherDirect(x)) && (s.cap > 0 ==> Enabled(After(s, acts), Gather(x)))
  {
    ReachableInv(s);
    acts := DrainsFrom(s);
  }

  /** What is open to a forwarder at its select: to receive if there is something, to return if the context
      is done, or if the gather channel is closed and empty. A producer can gather into a free slot for as
      long as the channel is open. */
  lemma SelectReady(s: State, x: Resp)
    ensures s.forwarder.Selecting? && s.gatherBuf != [] ==> Enabled(s, Receive)
    ensures s.forwarder.Selecting? && s.closer != NotClosing ==> Enabled(s, SeeCancelled)
    ensures s.forwarder.Selecting? && s.gatherBuf == [] && s.closer in {GatherClosed, Waited, Closed} ==>
      Enabled(s, SeeGatherClosed)
    ensures |s.gatherBuf| < s.cap && s.closer in {NotClosing, Cancelled, Stopped} ==> Enabled(s, Gather(x))
    ensures |s.exportBuf| < s.cap && s.forwarder.Sending? ==> Enabled(s, Send)
  {
  }

  // ---------------------------------------------------------------------------
  // The forwarder's own loop
  // ---------------------------------------------------------------------------

  /** What one pass of the forwarder's select finds. */
  datatype Select = Received(resp: Resp, cancelled: bool) | ChannelClosed | ContextDone

  predicate Forwards(x: Select) { x.Received? && !x.cancelled }

  /** What the loop exports: every response, in order, up to the first pass that is not to forward. */
  function ForwardedOf(selects: seq<Select>): seq<Resp> {
    if selects == [] || !Forwards(selects[0]) then [] else [selects[0].resp] + ForwardedOf(selects[1..])
  }

  /** What the loop still has to export after i passes that forwarded `done`. */
  predicate Exports(selects: seq<Select>, i: nat, done: seq<Resp>)
    requires i <= |selects|
  {
    ForwardedOf(selects) == done + ForwardedOf(selects[i..])
  }

  lemma NextPass(selects: seq<Select>, i: nat, done: seq<Resp>)
    requires i < |selects| && Exports(selects, i, done)
    ensures if Forwards(selects[i]) then Exports(selects, i + 1, done + [selects[i].resp])
            else ForwardedOf(selects) == done
  {
    var rest := ForwardedOf(selects[i + 1..]);
    assert selects[i..][1..] == selects[i + 1..];
    if Forwards(selects[i]) {
      assert done + ([selects[i].resp] + rest) == (done + [selects[i].resp]) + rest;
    }
  }

  lemma LastPass(selects: seq<Select>, done: seq<Resp>)
    ensures Exports(selects, 0, []) && (Exports(selects, |selects|, done) ==> ForwardedOf(selects) == done)
  {
    assert selects[0..] == selects && selects[|selects|..] == [];
  }

  /** In other words: the responses of the longest prefix of passes that forward. */
  lemma {:induction false} ForwardedIsPrefix(selects: seq<Select>)
    ensures var f := ForwardedOf(selects);
            && |f| <= |selects|
            && (forall i :: 0 <= i < |f| ==> Forwards(selects[i]) && f[i] == selects[i].resp)
            && (|f| < |selects| ==> !Forwards(selects[|f|]))
  {
    if selects != [] && Forwards(selects[0]) {
      ForwardedIsPrefix(selects[1..]);
    }
  }

  /** The loop over what its selects find, one after another; the pass that ends it is its last. */
  method ListenForResponses(selects: seq<Select>) returns (exported: seq<Resp>, passes: nat)
    ensures exported == ForwardedOf(selects)
    ensures passes == if |exported| < |selects| then |exported| + 1 else |selects|
  {
    exported, passes := [], 0;
    LastPass(selects, []);
    while passes < |selects|
      invariant passes <= |selects| && |exported| == passes
      invariant Exports(selects, passes, exported)
    {
      NextPass(selects, passes, exported);
      var found := selects[passes];
      passes := passes + 1;
      match found
      case ChannelClosed => return;
      case ContextDone => return;
      case Received(resp, cancelled) =>
        if cancelled {
          return;
        }
        exported := exported + [resp];
    }
    LastPass(selects, exported);
  }

  /** What the forwarder's select finds, if this step ends one; a response counts as received once the
      context has been looked at. */
  function PassOf(s: State, a: Action): seq<Select>
    requires Enabled(s, a)
  {
    match a
    case CheckContext => [Received(s.forwarder.resp, IsCancelled(s))]
    case SeeCancelled => [ContextDone]
    case SeeGatherClosed => [ChannelClosed]
    case _ => []
  }

  /** What its selects find in the course of a run. */
  function Passes(s: State, acts: seq<Action>): seq<Select>
    requires Runs(s, acts)
    decreases acts
  {
    if acts == [] then [] else PassOf(s, acts[0]) + Passes(Do(s, acts[0]), acts[1..])
  }

  /** What was exported, and what is about to be: its select is over. */
  function Committed(s: State): seq<Resp> {
    Exported(s) + if s.forwarder.Sending? then [s.forwarder.resp] else []
  }

  predicate AllForward(selects: seq<Select>) { forall i :: 0 <= i < |selects| ==> Forwards(selects[i]) }

  lemma PassStep(s: State, a: Action)
    requires Enabled(s, a)
    ensures Committed(Do(s, a)) == Committed(s) + ForwardedOf(PassOf(s, a))
    ensures s.forwarder.Returned? ==> PassOf(s, a) == []
    ensures Do(s, a).forwarder.Returned? <==> s.forwarder.Returned? || !AllForward(PassOf(s, a))
  {
    ExportedStep(s, a);
    if a.CheckContext? {
      assert ForwardedOf(PassOf(s, a)) == if IsCancelled(s) then [] else [s.forwarder.resp] + ForwardedOf([]);
    }
  }

  /** At most one pass more, in front. */
  lemma AllForwardConcat(first: seq<Select>, rest: seq<Select>)
    ensures AllForward(first + rest) <==> AllForward(first) && AllForward(rest)
  {
    if AllForward(first + rest) {
      forall i | 0 <= i < |first| ensures Forwards(first[i]) {
        assert (first + rest)[i] == first[i];
      }
      forall i | 0 <= i < |rest| ensures Forwards(rest[i]) {
        assert (first + rest)[|first| + i] == rest[i];
      }
    }
  }

  lemma OnePassMore(first: seq<Select>, rest: seq<Select>, before: seq<Resp>, after: seq<Resp>)
    requires |first| <= 1 && (AllForward(first) || rest == [])
    requires after == before + ForwardedOf(first) + ForwardedOf(rest)
    ensures after == before + ForwardedOf(first + rest)
  {
    if first == [] {
      assert first + rest == rest && before + [] == before;
    } else {
      assert (first + rest)[1..] == rest && first[1..] == [];
    }
  }

  lemma {:induction false} ReturnedAlong(s: State, acts: seq<Action>)
    requires Runs(s, acts)
    ensures s.forwarder.Returned? ==> Passes(s, acts) == []
    ensures After(s, acts).forwarder.Returned? <==> s.forwarder.Returned? || !AllForward(Passes(s, acts))
    decreases acts
  {
    if acts != [] {
      PassStep(s, acts[0]);
      ReturnedAlong(Do(s, acts[0]), acts[1..]);
      AllForwardConcat(PassOf(s, acts[0]), Passes(Do(s, acts[0]), acts[1..]));
    }
  }

  lemma {:induction false} CommittedAlong(s: State, acts: seq<Action>)
    requires Runs(s, acts)
    ensures Committed(After(s, acts)) == Committed(s) + ForwardedOf(Passes(s, acts))
    decreases acts
  {
    if acts == [] {
      assert Committed(s) + [] == Committed(s);
    } else {
      var s', rest := Do(s, acts[0]), acts[1..];
      PassStep(s, acts[0]);
      ReturnedAlong(s', rest);
      CommittedAlong(s', rest);
      OnePassMore(PassOf(s, acts[0]), Passes(s', rest), Committed(s), Committed(After(s', rest)));
    }
  }

  /** The forwarder's steps, interleaved with everybody else's, are that loop: over any run it exports
      what ListenForResponses exports for what its selects found, and has returned when the loop has. */
  lemma StepsAreTheLoop(s: State, acts: seq<Action>)
    requires s == Start(s.cap) && Runs(s, acts)
    ensures Committed(After(s, acts)) == ForwardedOf(Passes(s, acts))
    ensures After(s, acts).forwarder.Returned? <==> !AllForward(Passes(s, acts))
  {
    ReturnedAlong(s, acts);
    CommittedAlong(s, acts);
    assert Committed(s) == [];
  }
}
