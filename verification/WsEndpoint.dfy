/** task_ws.go: the persistent JSON-RPC endpoint as an object, one call at a time. */
module WsEndpoint {
  import opened Basics
  import opened Correlation

  datatype Request = Request(id: OriginalId, empty: bool, call: string)

  /** The configured payload as the JSON-RPC decoder sees it. */
  datatype Payload = Blank | Malformed(err: Error) | Call(request: Request)

  datatype Prepared = Refused(err: Error) | Ready(wire: Request, msg: Inflight)

  class Endpoint {
    const payload: Payload

    var conn: Option<nat>
    var dialled: nat
    var shut: set<nat>
    /** The connection the running read pump was started for. */
    var pump: Option<nat>
    var inflight: map<Id, Inflight>
    /** The endpoint's context is cancelled, which only Close does. */
    var done: bool
    /** Requests written to the server. */
    var sent: seq<Request>
    /** What the read pump, and what senders, have put on the response channel. */
    var replies: seq<Out>
    var sendErrors: seq<Error>

    ghost var log: Log

    ghost predicate Valid()
      reads this
    {
      Recorded() && Wired()
    }

    /** Inflight messages and responses are what the log says. */
    ghost predicate Recorded()
      reads `log, `inflight, `replies
    {
      Fresh(log) && inflight == Outstanding(log) && replies == Outs(log)
    }

    /** Every connection ever dialled but the current one is shut, and the current one's pump runs. */
    ghost predicate Wired()
      reads `conn, `dialled, `shut, `pump, `done
    {
      && (conn.Some? ==> conn.value < dialled && conn.value !in shut && (pump == conn || done))
      && (pump.Some? ==> pump.value < dialled)
      && (forall c :: 0 <= c < dialled && c !in shut ==> conn == Some(c))
      && (forall c :: c in shut ==> c < dialled)
    }

    constructor (payload: Payload)
      ensures Valid() && this.payload == payload && log == [] && conn.None? && dialled == 0 && !done
      ensures inflight == map[] && sent == [] && replies == [] && sendErrors == []
    {
      this.payload := payload;
      conn, dialled, shut, pump := None, 0, {}, None;
      inflight, sent, replies, sendErrors, done := map[], [], [], [], false;
      log := [];
    }

    /** Dials once; refuses when a connection is already there. */
    method Connect(dialOk: bool) returns (err: Option<Error>)
      requires Valid()
      modifies `conn, `dialled, `pump
      ensures Valid()
      ensures err.None? <==> old(conn).None? && dialOk
      ensures err.None? ==> conn == pump == Some(old(dialled)) && dialled == old(dialled) + 1
      ensures err.Some? ==> conn == old(conn) && dialled == old(dialled) && pump == old(pump)
    {
      if conn.Some? {
        return Some("connection already established");
      }
      if !dialOk {
        return Some("dial failed");
      }
      conn, pump := Some(dialled), Some(dialled);
      dialled := dialled + 1;
      err := None;
    }

    /** Shuts the current connection, if any, and forgets it. */
    method CloseConn()
      requires Valid()
      modifies `conn, `shut
      ensures Valid() && conn.None?
      ensures shut == old(shut) + if old(conn).Some? then {old(conn).value} else {}
    {
      if conn.Some? {
        shut := shut + {conn.value};
        conn := None;
      }
    }

    /** Replaces the connection. The old pump is gone and every older connection is shut before the
        new one is dialled; messages inflight stay inflight. If the old one cannot be closed, nothing
        happens. */
    method Reconnect(closeErr: Option<Error>, dialOk: bool) returns (err: Option<Error>)
      requires Valid()
      modifies `conn, `dialled, `shut, `pump
      ensures Valid() && (err.None? <==> (old(conn).None? || closeErr.None?) && dialOk)
      ensures old(conn).Some? && closeErr.Some? ==>
        err.Some? && conn == old(conn) && dialled == old(dialled) && shut == old(shut) && pump == old(pump)
      ensures old(conn).None? || closeErr.None? ==>
        && (forall c :: 0 <= c < old(dialled) ==> c in shut)
        && (dialOk ==> conn == pump == Some(old(dialled)) && dialled == old(dialled) + 1)
        && (!dialOk ==> conn.None? && pump.None? && dialled == old(dialled))
    {
      if conn.Some? {
        if closeErr.Some? {
          return Some("failed to close connection");
        }
        shut := shut + {conn.value};
      }
      // The pump, if one runs, now reads from a closed connection: it ends quietly through CloseConn.
      conn, pump := None, None;
      if !dialOk {
        return Some("failed to dial when reconnecting");
      }
      conn, pump := Some(dialled), Some(dialled);
      dialled := dialled + 1;
      err := None;
    }

    /** Closes the endpoint for good if there is a connection, and the server can be told, and it can be
        closed. Otherwise nothing changes: without a connection the context is not cancelled either. */
    method Close(writeErr: Option<Error>, closeErr: Option<Error>) returns (err: Option<Error>)
      requires Valid()
      modifies `conn, `shut, `done
      ensures Valid()
      ensures err == if old(conn).None? then None else if writeErr.Some? then writeErr else closeErr
      ensures if old(conn).Some? && err.None?
        then conn.None? && done && shut == old(shut) + {old(conn).value}
        else conn == old(conn) && done == old(done) && shut == old(shut)
    {
      if conn.None? {
        return None;
      }
      if writeErr.Some? {
        return writeErr;
      }
      if closeErr.Some? {
        return closeErr;
      }
      shut := shut + {conn.value};
      conn, done, err := None, true, None;
    }

    /** The payload holds a request, whose id can be replaced. */
    predicate HasRequest() { payload.Call? && !payload.request.empty }

    /** The message under its temporary id, and what is needed to restore it. A payload without a
        request goes out as it is, with nothing to restore. */
    function Prepare(id: Id, now: Time, marshalErr: Option<Error>): (r: Prepared)
      ensures r.Refused? <==> payload.Malformed? || marshalErr.Some?
      ensures r.Refused? ==> r.err == if payload.Malformed? then payload.err else marshalErr.value
      ensures r.Ready? && HasRequest() ==>
        && r.wire.id == Some(id) && r.msg == Inflight(payload.request.id, now)
        && r.wire.(id := r.msg.originalId) == payload.request
      ensures r.Ready? && !HasRequest() ==>
        && r.msg == Inflight(None, now)
        && r.wire == if payload.Call? then payload.request else Request(None, true, "")
    {
      match payload
      case Malformed(e) => Refused(e)
      case Blank => Marshalled(Request(None, true, ""), None, now, marshalErr)
      case Call(request) =>
        if request.empty then Marshalled(request, None, now, marshalErr)
        else Marshalled(request.(id := Some(id)), request.id, now, marshalErr)
    }

    static function Marshalled(wire: Request, original: OriginalId, now: Time, marshalErr: Option<Error>): Prepared {
      if marshalErr.Some? then Refused(marshalErr.value) else Ready(wire, Inflight(original, now))
    }

    /** Sends the payload under the fresh id, reconnecting first if there is no connection. What is
        written can be restored from the inflight map under the id it carries. A closed endpoint may
        still dial, but sends nothing. */
    method Execute(id: Id, now: Time, dialOk: bool, marshalErr: Option<Error>) returns (err: Option<Error>)
      requires Valid() && id != "" && id !in StoredIds(log)
      modifies `conn, `dialled, `shut, `pump, `inflight, `sent, `sendErrors, `log
      ensures Valid() && replies == old(replies)
      ensures old(conn).Some? ==> conn == old(conn) && dialled == old(dialled) && shut == old(shut) && pump == old(pump)
      ensures old(conn).None? && dialOk ==> conn == pump == Some(old(dialled)) && dialled == old(dialled) + 1
      ensures conn.None? ==> err.Some? && log == old(log) && sent == old(sent) && sendErrors == old(sendErrors)
      ensures conn.None? <==> old(conn).None? && !dialOk
      ensures conn.Some? && done ==> err.None? && log == old(log) && sent == old(sent) && sendErrors == old(sendErrors)
      ensures conn.Some? && !done && Prepare(id, now, marshalErr).Refused? ==>
        && err == Some(Prepare(id, now, marshalErr).err)
        && sendErrors == old(sendErrors) + [err.value]
        && log == old(log) && sent == old(sent)
      ensures conn.Some? && !done && Prepare(id, now, marshalErr).Ready? ==>
        && err.None? && sendErrors == old(sendErrors)
        && log == old(log) + [Stored(id, Prepare(id, now, marshalErr).msg)]
        && sent == old(sent) + [Prepare(id, now, marshalErr).wire]
        && id in Outstanding(log)
        && (HasRequest() ==>
             Last(sent).id == Some(id) && Outstanding(log)[id] == Inflight(payload.request.id, now))
    {
      err := None;
      if conn.None? {
        err := Reconnect(None, dialOk);
        if err.Some? {
          return;
        }
      }
      if !done {
        err := Send(id, now, marshalErr);
      }
    }

    /** The part of Execute that has a connection and holds the mutex. */
    method Send(id: Id, now: Time, marshalErr: Option<Error>) returns (err: Option<Error>)
      requires Valid() && id != "" && id !in StoredIds(log)
      modifies `inflight, `sent, `sendErrors, `log
      ensures Valid()
      ensures Prepare(id, now, marshalErr).Refused? ==>
        && err == Some(Prepare(id, now, marshalErr).err)
        && sendErrors == old(sendErrors) + [err.value]
        && log == old(log) && sent == old(sent)
      ensures Prepare(id, now, marshalErr).Ready? ==>
        && err.None? && sendErrors == old(sendErrors)
        && log == old(log) + [Stored(id, Prepare(id, now, marshalErr).msg)]
        && sent == old(sent) + [Prepare(id, now, marshalErr).wire]
        && id in Outstanding(log) && Outstanding(log)[id] == Prepare(id, now, marshalErr).msg
    {
      err := None;
      var prepared := Prepare(id, now, marshalErr);
      if prepared.Refused? {
        err := Some(prepared.err);
        sendErrors := sendErrors + [prepared.err];
        return;
      }
      Transmit(id, prepared.wire, prepared.msg);
    }

    /** Stores the message under its id, then writes it. */
    method Transmit(id: Id, wire: Request, msg: Inflight)
      requires Valid() && id != "" && id !in StoredIds(log)
      modifies `inflight, `sent, `log
      ensures Valid() && id in Outstanding(log) && Outstanding(log)[id] == msg
      ensures log == old(log) + [Stored(id, msg)] && sent == old(sent) + [wire]
    {
      LogSnoc(log, Stored(id, msg));
      inflight := inflight[id := msg];
      log := log + [Stored(id, msg)];
      sent := sent + [wire];
    }

    /** One frame, one response: the verdict of the messages the history left inflight. */
    method HandleJSONRPCResponse(frame: Frame, firstByte: Time, restorable: bool)
      requires Valid()
      modifies `inflight, `replies, `log
      ensures Valid()
      ensures log == old(log) + [Handled(frame, firstByte, restorable)]
      ensures replies == old(replies) + [Verdict(Outstanding(old(log)), frame, firstByte, restorable)]
      ensures frame.Unparsable? ==> replies == old(replies) + [ParseFailed] && inflight == old(inflight)
      ensures frame.Response? && frame.empty ==> replies == old(replies) + [EmptyResponse] && inflight == old(inflight)
      ensures frame.Response? && !frame.empty && frame.id == "" ==>
        replies == old(replies) + [NilId] && inflight == old(inflight)
      ensures frame.Response? && !frame.empty && frame.id != "" && frame.id !in old(inflight) ==>
        replies == old(replies) + [UnknownId(frame.id)] && inflight == old(inflight)
      ensures frame.Response? && !frame.empty && frame.id != "" && frame.id in old(inflight) ==>
        var msg := old(inflight)[frame.id];
        && inflight == old(inflight) - {frame.id}
        && replies == old(replies) +
             [if restorable then Success(msg.originalId, msg.timeSent, firstByte, frame.body) else RestoreFailed]
    {
      HandledSnoc(log, frame, firstByte, restorable);
      log := log + [Handled(frame, firstByte, restorable)];
      if frame.Unparsable? {
        replies := replies + [ParseFailed];
        return;
      }
      if frame.empty {
        replies := replies + [EmptyResponse];
        return;
      }
      if frame.id == "" {
        replies := replies + [NilId];
        return;
      }
      if frame.id in inflight {
        ProcessInflightMessage(frame, inflight[frame.id], firstByte, restorable);
      } else {
        replies := replies + [UnknownId(frame.id)];
      }
    }

    /** Takes the message out of the map first; it is gone even if its id cannot be restored. */
    method ProcessInflightMessage(frame: Frame, msg: Inflight, firstByte: Time, restorable: bool)
      requires frame.Response?
      modifies `inflight, `replies
      ensures inflight == old(inflight) - {frame.id}
      ensures replies == old(replies) +
        [if restorable then Success(msg.originalId, msg.timeSent, firstByte, frame.body) else RestoreFailed]
    {
      inflight := inflight - {frame.id};
      if !restorable {
        replies := replies + [RestoreFailed];
        return;
      }
      replies := replies + [Success(msg.originalId, msg.timeSent, firstByte, frame.body)];
    }

    /** The end of a read pump on a read error: at most one response, none once the endpoint is closed,
        and no connection left behind. */
    method HandleReadError(e: ReadError)
      requires Valid()
      modifies `conn, `shut, `pump, `replies, `log
      ensures Valid() && conn.None? && pump.None?
      ensures done || e.LocallyClosed? || (e.CloseFrame? && (e.code == 1000 || e.code == 1001 || e.code == 1012)) ==>
        replies == old(replies) && log == old(log)
      ensures !done && (e.Timeout? || e.OtherReadError? ||
                        (e.CloseFrame? && e.code != 1000 && e.code != 1001 && e.code != 1012)) ==>
        replies == old(replies) + [ReadFailed(e)] && log == old(log) + [Surfaced(e)]
    {
      if !done {
        Classify(e);
      }
      CloseConn();
      pump := None;
    }

    method Classify(e: ReadError)
      requires Valid()
      modifies `replies, `log
      ensures Valid()
      ensures log == old(log) + if Surfaces(e) then [Surfaced(e)] else []
      ensures replies == old(replies) + if Surfaces(e) then [ReadFailed(e)] else []
    {
      match e {
        case CloseFrame(code) =>
          if code != 1000 && code != 1001 && code != 1012 {
            Surface(e);
          }
        case LocallyClosed =>
        case _ => Surface(e);
      }
    }

    /** The other end of a read pump: between two reads it finds the endpoint closed. A connection that
        was dialled after the close stays open. */
    method StopPump()
      requires Valid() && done
      modifies `pump
      ensures Valid() && pump.None?
    {
      pump := None;
    }

    method Surface(e: ReadError)
      requires Valid()
      modifies `replies, `log
      ensures Valid()
      ensures log == old(log) + [Surfaced(e)] && replies == old(replies) + [ReadFailed(e)]
    {
      SurfacedSnoc(log, e);
      log := log + [Surfaced(e)];
      replies := replies + [ReadFailed(e)];
    }
  }

  /** An endpoint whose server goes away, and which is then closed: Close succeeds, but there is no connection
      it could close. */
  method LostThenClosed(payload: Payload) returns (e: Endpoint)
    ensures fresh(e) && e.Valid() && e.payload == payload && !e.done && e.conn.None?
    ensures e.log == [] && e.sent == []
  {
    e := new Endpoint(payload);
    var connected := e.Connect(true);
    e.HandleReadError(CloseFrame(1001));
    var closed := e.Close(None, None);
    assert closed.None?;
  }

  /** Close is documented to cancel the context. It does so exactly when it closes a connection: here it
      does not, and the next Execute dials again and sends. */
  method SendsAfterClose(request: Request, id: Id, now: Time) returns (e: Endpoint)
    requires !request.empty && id != ""
    ensures e.Valid() && !e.done && e.conn.Some? && e.sent == [request.(id := Some(id))]
  {
    e := LostThenClosed(Call(request));
    var err := e.Execute(id, now, true, None);
  }
}
