/** The virtual server: what is done with each event it is handed. */
module VirtualServer {
  import opened Config
  import opened RequestModel
  import opened ResponseModel
  import opened Kernel
  import opened EventModel
  import opened EventSafety
  import opened EventRuns
  import opened EventHandler

  class VirtualServer {
    const serverId: nat
    const info: Server
    const handler: EventHandler

    constructor (serverId: nat, info: Server, handler: EventHandler)
      ensures this.serverId == serverId && this.info == info && this.handler == handler
    {
      this.serverId, this.info, this.handler := serverId, info, handler;
    }

    /** The descriptors that are opened while an event is served, and those of them
        that the factory puts aside at once. */
    method Acquire(x: Input)
      modifies handler.d`open, handler.d`closing
      ensures handler.d.open == old(handler.d.open) + x.acquired
      ensures handler.d.closing == old(handler.d.closing) + x.discarded
    {
      handler.d.open := handler.d.open + x.acquired;
      handler.d.closing := handler.d.closing + x.discarded;
    }

    /** What is written back: the event, and that it has been dealt with. */
    method Store(id: nat, e: Event)
      modifies handler`events, handler`todo
      ensures handler.events == old(handler.events)[id := e] && handler.todo == old(handler.todo) - {id}
    {
      handler.events := handler.events[id := e];
      handler.todo := handler.todo - {id};
    }

    method RegisterFileFdToClose(fd: int)
      modifies handler.d`closing
      ensures handler.d.closing == old(handler.d.closing) + {fd}
    {
      handler.d.closing := handler.d.closing + {fd};
    }

    method ProcessHttpRequestReadable(id: nat, x: Input) returns (thrown: Thrown)
      requires id in handler.events
      modifies handler`events, handler`changeList, handler`todo, handler.d
      ensures var eff := ServeReadable(old(handler.events[id]), id, x);
              thrown == eff.thrown && handler.View() == Act(old(handler.View()), id, eff, x.acquired, x.discarded)
    {
      var e := handler.events[id];
      thrown := NotThrown;
      ghost var eff := ServeReadable(e, id, x);
      Acquire(x);
      if x.cgi && (e.req.head.verb.GET? || e.req.head.verb.POST? || e.req.head.verb.PUT?) {
        if x.faults.open {
          thrown := CallFailed;
        } else {
          e := e.(kind := RequestUpload, toSendFd := x.fd);
          handler.AppendNewEventToChangeList(e.toRecvFd, Reading, Disable, Conn(id));
          handler.AppendNewEventToChangeList(x.fd, Writing, Add, Conn(id));
        }
      } else if x.faults.reply {
        thrown := CallFailed;
      } else {
        e, thrown := FollowResponse(e.(resp := Some(x.reply.resp), source := x.reply.source), id, x);
      }
      Store(id, e);
      assert handler.changeList == old(handler.changeList) + eff.changes;
      assert handler.d.closing == old(handler.d.closing) + eff.closing + x.discarded;
    }

    /** Where the response that was made leads. */
    method FollowResponse(event: Event, id: nat, x: Input) returns (e: Event, thrown: Thrown)
      requires event.resp == Some(x.reply.resp) && event.source == x.reply.source
      requires !ToProgram(event, x) && !x.faults.reply
      modifies handler`changeList, handler.d`trash
      ensures var eff := ServeReadable(event, id, x);
              && eff.event == Some(e) && eff.thrown == thrown && eff.closing == {}
              && handler.d.trash == TrashAfter(old(handler.d.trash), eff.trash)
              && handler.changeList == old(handler.changeList) + eff.changes
    {
      e, thrown := event, NotThrown;
      handler.AppendNewEventToChangeList(e.toRecvFd, Reading, Disable, Conn(id));
      match x.reply.resp.kind {
        case TypePost =>
          e := e.(kind := RequestUpload, toSendFd := x.reply.resp.fd);
          handler.AppendNewEventToChangeList(e.toSendFd, Writing, Add, Conn(id));
        case TypeGet =>
          e := e.(kind := ResponseDownload, toRecvFd := x.reply.resp.fd);
          handler.AppendNewEventToChangeList(e.toRecvFd, Reading, Add, Conn(id));
        case TypeDel =>
          e := e.(kind := ResponseWritable, toSendFd := e.clientFd);
          handler.AppendNewEventToChangeList(e.clientFd, Writing, Enable, Conn(id));
        case TypeCgi =>
        case _ =>
          e := e.(kind := BufferFlush);
          if x.faults.open {
            thrown := CallFailed;
          } else {
            handler.d.OpenTrash();
            e := e.(toSendFd := x.fd);
            handler.AppendNewEventToChangeList(e.toSendFd, Writing, Add, Conn(id));
          }
      }
    }

    /** The event as it is to be stored, and whether the response was thrown at. */
    method RedirectUploadError(event: Event, id: nat) returns (e: Event, thrown: Thrown)
      requires event.resp.Some?
      modifies handler`changeList
      ensures Redirect(event, id).event == Some(e) && Redirect(event, id).thrown == thrown
      ensures handler.changeList == old(handler.changeList) + Redirect(event, id).changes
    {
      e, thrown := event, NotThrown;
      handler.AppendNewEventToChangeList(e.toSendFd, Writing, Delete, Nobody);
      match e.resp.value.kind {
        case TypeFlush =>
          e := e.(kind := ResponseWritable, toSendFd := e.clientFd);
          handler.AppendNewEventToChangeList(e.clientFd, Writing, Enable, Conn(id));
        case TypeFlushErr =>
          e := e.(kind := ResponseDownload, toRecvFd := e.resp.value.fd);
          handler.AppendNewEventToChangeList(e.toRecvFd, Reading, Add, Conn(id));
        case _ => thrown := WrongRoutine;
      }
    }

    /** The connection goes; what else was queued or put aside has been already. */
    method Remove(id: nat, e: Event)
      requires id in handler.events && e.clientFd == handler.events[id].clientFd
      modifies handler`events, handler`queue, handler`changeList, handler`todo, handler.d
      ensures handler.View() == Act(old(handler.View()), id, Removal(e), {}, {})
    {
      handler.events := handler.events[id := e];
      handler.RemoveConnection(id);
      assert handler.events == old(handler.events) - {id};
    }

    method UploadFile(id: nat, x: Input) returns (thrown: Thrown)
      requires id in handler.events && handler.events[id].req.Valid()
      modifies handler`events, handler`queue, handler`changeList, handler`todo, handler.d
      ensures var e := old(handler.events[id]);
              var eff := Uploading(e, Advanced(e, x), id, x);
              thrown == eff.thrown && handler.View() == Act(old(handler.View()), id, eff, x.acquired, x.discarded)
    {
      thrown := FinishUpload(id, Advanced(handler.events[id], x), x);
    }

    /** The same, once the request has been advanced to `u`. */
    method FinishUpload(id: nat, u: Request, x: Input) returns (thrown: Thrown)
      requires id in handler.events
      modifies handler`events, handler`queue, handler`changeList, handler`todo, handler.d
      ensures var eff := Uploading(old(handler.events[id]), u, id, x);
              thrown == eff.thrown && handler.View() == Act(old(handler.View()), id, eff, x.acquired, x.discarded)
    {
      var e := handler.events[id];
      thrown := NotThrown;
      Acquire(x);
      e := e.(req := u);
      ghost var eff := Uploading(handler.events[id], u, id, x);
      match e.req.state {
        case TimedOut => Remove(id, e);
        case ConnectionClosed => Remove(id, e);
        case BadRequest =>
          if x.faults.error {
            e, thrown := e.(resp := None), CallFailed;
          } else {
            e := e.(resp := Some(x.error.resp), source := x.error.source);
            e, thrown := RedirectUploadError(e, id);
          }
          Store(id, e);
        case UploadDone =>
          e, thrown := EndUpload(e, id, x);
          Store(id, e);
        case _ => Store(id, e);
      }
      assert handler.changeList == old(handler.changeList) + eff.changes;
      assert handler.d.closing == old(handler.d.closing) + eff.closing + x.discarded;
    }

    /** All of the body has been written. */
    method EndUpload(event: Event, id: nat, x: Input) returns (e: Event, thrown: Thrown)
      requires event.req.state.UploadDone?
      modifies handler`changeList, handler.d`closing
      ensures var eff := Uploading(event, event.req, id, x);
              && eff.event == Some(e) && eff.thrown == thrown && eff.trash == Untouched
              && handler.changeList == old(handler.changeList) + eff.changes
              && handler.d.closing == old(handler.d.closing) + eff.closing
    {
      e, thrown := event, NotThrown;
      var fdSent := e.toSendFd;
      RegisterFileFdToClose(fdSent);
      handler.AppendNewEventToChangeList(fdSent, Writing, Delete, Nobody);
      if x.cgi && x.faults.open {
        thrown := CallFailed;
      } else if x.cgi {
        e := e.(kind := CgiReadable, toRecvFd := x.fd);
        handler.AppendNewEventToChangeList(e.toRecvFd, Reading, Add, Conn(id));
      } else if e.resp.Some? && e.resp.value.kind.TypePost? {
        e := e.(kind := ResponseWritable, toSendFd := e.clientFd);
        handler.AppendNewEventToChangeList(e.clientFd, Writing, Enable, Conn(id));
      } else if e.resp.Some? && e.resp.value.kind.TypeFlushErr? {
        e := e.(kind := ResponseDownload, toRecvFd := e.resp.value.fd);
        handler.AppendNewEventToChangeList(e.toRecvFd, Reading, Add, Conn(id));
      } else {
        thrown := WrongRoutine;
      }
    }

    method FlushBuffer(id: nat, x: Input) returns (thrown: Thrown)
      requires id in handler.events && handler.events[id].req.Valid()
      requires handler.events[id].resp.Some? && x.trash == handler.d.trash
      modifies handler`events, handler`queue, handler`changeList, handler`todo, handler.d
      ensures var e := old(handler.events[id]);
              var eff := Flushing(e, Advanced(e, x), id, x);
              thrown == eff.thrown && handler.View() == Act(old(handler.View()), id, eff, x.acquired, x.discarded)
    {
      thrown := FinishFlush(id, Advanced(handler.events[id], x), x);
    }

    /** The same, once the request has been advanced to `u`. */
    method FinishFlush(id: nat, u: Request, x: Input) returns (thrown: Thrown)
      requires id in handler.events && handler.events[id].resp.Some? && x.trash == handler.d.trash
      modifies handler`events, handler`queue, handler`changeList, handler`todo, handler.d
      ensures var eff := Flushing(old(handler.events[id]), u, id, x);
              thrown == eff.thrown && handler.View() == Act(old(handler.View()), id, eff, x.acquired, x.discarded)
    {
      var e := handler.events[id];
      thrown := NotThrown;
      Acquire(x);
      var tempfileFd := e.toSendFd;
      e := e.(req := u);
      ghost var eff := Flushing(handler.events[id], u, id, x);
      match e.req.state {
        case TimedOut => thrown := BreakFlush(id, e, x);
        case ConnectionClosed => thrown := BreakFlush(id, e, x);
        case BadRequest =>
          e, thrown := RefuseFlush(e, id, x);
          Store(id, e);
        case UploadDone =>
          e, thrown := EndFlush(e, id, x);
          Store(id, e);
        case _ => Store(id, e);
      }
      assert handler.changeList == old(handler.changeList) + eff.changes;
      assert handler.d.closing == old(handler.d.closing) + eff.closing + x.discarded;
    }

    /** The connection failed while its body was flushed. */
    method BreakFlush(id: nat, e: Event, x: Input) returns (thrown: Thrown)
      requires id in handler.events && e.clientFd == handler.events[id].clientFd && x.trash == handler.d.trash
      modifies handler`events, handler`queue, handler`changeList, handler`todo, handler.d
      ensures var eff := FlushBroken(e, x);
              thrown == eff.thrown && handler.View() == Act(old(handler.View()), id, eff, {}, {})
    {
      var ok := handler.d.UnlinkTrash();
      if ok {
        thrown := NotThrown;
        RegisterFileFdToClose(e.toSendFd);
        handler.AppendNewEventToChangeList(e.toSendFd, Writing, Delete, Nobody);
        Remove(id, e);
      } else {
        thrown := CallFailed;
        Store(id, e);
      }
      assert handler.changeList == old(handler.changeList) + FlushBroken(e, x).changes;
      assert handler.d.closing == old(handler.d.closing) + FlushBroken(e, x).closing + {};
    }

    /** The body has been refused. */
    method RefuseFlush(event: Event, id: nat, x: Input) returns (e: Event, thrown: Thrown)
      requires event.resp.Some? && event.req.state.BadRequest? && x.trash == handler.d.trash
      modifies handler`changeList, handler.d`trash
      ensures var eff := Flushing(event, event.req, id, x);
              && eff.event == Some(e) && eff.thrown == thrown && eff.closing == {}
              && handler.d.trash == TrashAfter(old(handler.d.trash), eff.trash)
              && handler.changeList == old(handler.changeList) + eff.changes
    {
      if x.faults.error {
        return event.(resp := None), CallFailed;
      }
      e := event.(resp := Some(x.error.resp), source := x.error.source);
      var ok := handler.d.UnlinkTrash();
      if !ok {
        return e, CallFailed;
      }
      e, thrown := RedirectUploadError(e, id);
    }

    /** All of the body has been flushed. */
    method EndFlush(event: Event, id: nat, x: Input) returns (e: Event, thrown: Thrown)
      requires event.resp.Some? && event.req.state.UploadDone? && x.trash == handler.d.trash
      modifies handler`changeList, handler.d`closing, handler.d`trash
      ensures var eff := Flushing(event, event.req, id, x);
              && eff.event == Some(e) && eff.thrown == thrown
              && handler.d.trash == TrashAfter(old(handler.d.trash), eff.trash)
              && handler.changeList == old(handler.changeList) + eff.changes
              && handler.d.closing == old(handler.d.closing) + eff.closing
    {
      e, thrown := event, NotThrown;
      if x.fileSize > x.limit {
        if x.faults.error {
          return e.(resp := None), CallFailed;
        }
        e := e.(resp := Some(x.error.resp), source := x.error.source);
      }
      var ok := handler.d.UnlinkTrash();
      if !ok {
        return e, CallFailed;
      }
      RegisterFileFdToClose(e.toSendFd);
      e, thrown := RedirectUploadError(e, id);
    }

    method DownloadFile(id: nat, x: Input)
      requires id in handler.events && handler.events[id].resp.Some? && handler.events[id].resp.value.Valid()
      modifies handler`events, handler`queue, handler`changeList, handler`todo, handler.d
      ensures handler.View() == Act(old(handler.View()), id, ServeDownload(old(handler.events[id]), id, x), x.acquired, x.discarded)
    {
      var e := handler.events[id];
      ghost var eff := ServeDownload(e, id, x);
      Acquire(x);
      var fdReceived := e.toRecvFd;
      var read := ReadOf(e.source, x.io);
      e := e.(resp := Some(Download(e.resp.value, read)),
              source := if read.Bytes? then e.source[|read.piece|..] else e.source);
      match e.resp.value.state {
        case SendingTimedOut => BreakDownload(id, e);
        case SendingClosed => BreakDownload(id, e);
        case SendingStorage =>
          RegisterFileFdToClose(fdReceived);
          e := e.(kind := ResponseWritable, toSendFd := e.clientFd);
          handler.AppendNewEventToChangeList(fdReceived, Reading, Delete, Nobody);
          handler.AppendNewEventToChangeList(e.clientFd, Writing, Enable, Conn(id));
          Store(id, e);
        case _ => Store(id, e);
      }
      assert handler.changeList == old(handler.changeList) + eff.changes;
      assert handler.d.closing == old(handler.d.closing) + eff.closing + x.discarded;
    }

    /** The source cannot be read. */
    method BreakDownload(id: nat, e: Event)
      requires id in handler.events && e.clientFd == handler.events[id].clientFd
      modifies handler`events, handler`queue, handler`changeList, handler`todo, handler.d
      ensures handler.View()
           == Act(old(handler.View()), id,
                  After([Ch(e.toRecvFd, Reading, Delete, Nobody)], {e.toRecvFd}, Removal(e)), {}, {})
    {
      ghost var eff := After([Ch(e.toRecvFd, Reading, Delete, Nobody)], {e.toRecvFd}, Removal(e));
      RegisterFileFdToClose(e.toRecvFd);
      handler.AppendNewEventToChangeList(e.toRecvFd, Reading, Delete, Nobody);
      Remove(id, e);
      assert handler.changeList == old(handler.changeList) + eff.changes;
      assert handler.d.closing == old(handler.d.closing) + eff.closing + {};
    }

    method SendResponse(id: nat, x: Input) returns (thrown: Thrown)
      requires id in handler.events && handler.events[id].resp.Some? && handler.events[id].resp.value.Valid()
      modifies handler`events, handler`queue, handler`changeList, handler`todo, handler.d
      ensures var eff := ServeWritable(old(handler.events[id]), id, x);
              thrown == eff.thrown && handler.View() == Act(old(handler.View()), id, eff, x.acquired, x.discarded)
    {
      var e := handler.events[id];
      thrown := NotThrown;
      ghost var eff := ServeWritable(e, id, x);
      Acquire(x);
      e := e.(resp := Some(Send(e.resp.value, x.io).resp));
      match e.resp.value.state {
        case SendingClosed => Remove(id, e);
        case SendingDone =>
          if e.req.head.keepAlive && e.resp.value.status != 400 && x.cgi && x.faults.unlink {
            thrown := CallFailed;
            Store(id, e);
          } else if e.req.head.keepAlive && e.resp.value.status != 400 {
            handler.AppendNewEventToChangeList(e.clientFd, Writing, Disable, Conn(id));
            handler.AppendNewEventToChangeList(e.clientFd, Reading, Enable, Conn(id));
            Store(id, Renewed(e, x.now));
          } else {
            Remove(id, e);
          }
        case _ => Store(id, e);
      }
      assert handler.changeList == old(handler.changeList) + eff.changes;
      assert handler.d.closing == old(handler.d.closing) + eff.closing + x.discarded;
    }

    method CgiResponseToHttpResponse(id: nat, x: Input) returns (thrown: Thrown)
      requires id in handler.events
      modifies handler`events, handler`changeList, handler`todo, handler.d
      ensures var eff := ServeCgi(old(handler.events[id]), id, x);
              thrown == eff.thrown && handler.View() == Act(old(handler.View()), id, eff, x.acquired, x.discarded)
    {
      var e := handler.events[id];
      ghost var eff := ServeCgi(e, id, x);
      Acquire(x);
      if x.faults.reply {
        thrown := CallFailed;
        Store(id, e);
        return;
      }
      thrown := NotThrown;
      e := e.(resp := Some(x.reply.resp), source := x.reply.source);
      if x.reply.source != "" {
        e := e.(kind := ResponseDownload);
        e := e.(resp := Some(x.reply.resp.(fd := e.toRecvFd)));
      } else {
        RegisterFileFdToClose(e.toRecvFd);
        e := e.(kind := ResponseWritable, toSendFd := e.clientFd);
        handler.AppendNewEventToChangeList(e.toRecvFd, Reading, Delete, Nobody);
        handler.AppendNewEventToChangeList(e.clientFd, Writing, Enable, Conn(id));
      }
      Store(id, e);
      assert handler.changeList == old(handler.changeList) + eff.changes;
      assert handler.d.closing == old(handler.d.closing) + eff.closing + x.discarded;
    }

    /** One event, by its type. What the server keeps, each of its handlers keeps. */
    method ProcessEvent(id: nat, x: Input) returns (thrown: Thrown)
      requires id in handler.events && Coupled(handler.events[id]) && x.trash == handler.d.trash
      modifies handler`events, handler`queue, handler`changeList, handler`todo, handler.d
      ensures var eff := Serve(old(handler.events[id]), id, x);
              thrown == eff.thrown && handler.View() == Act(old(handler.View()), id, eff, x.acquired, x.discarded)
      ensures Inv(old(handler.View())) && CanServe(old(handler.View()), id, x) ==> Inv(handler.View())
    {
      hide Inv, CanServe;
      ghost var s := handler.View();
      thrown := NotThrown;
      if Inv(s) && CanServe(s, id, x) {
        ServeKeepsInv(s, id, x);
      }
      match handler.events[id].kind {
        case RequestReadable => thrown := ProcessHttpRequestReadable(id, x);
        case RequestUpload => thrown := UploadFile(id, x);
        case ResponseDownload => DownloadFile(id, x);
        case ResponseWritable => thrown := SendResponse(id, x);
        case CgiReadable => thrown := CgiResponseToHttpResponse(id, x);
        case BufferFlush => thrown := FlushBuffer(id, x);
      }
    }

    /** Serves what has been routed here, one event after the other, each of them live.
        `answer` stands for the environment, which may look at the whole state; `served`
        are the servers that have had their turn since the batch was routed. */
    method Start(answer: (State, nat) -> Input, ghost served: set<int>) returns (thrown: Thrown)
      requires Inv(handler.View()) && Handed(handler.View(), handler.routedEvents, served, serverId, 0)
      requires serverId !in served && AllHoused(handler.events, handler.servers.infos)
      requires Obliging(answer)
      modifies handler`events, handler`queue, handler`changeList, handler`todo, handler.d
      ensures handler.todo <= old(handler.todo) && thrown != NullEvent
      ensures thrown == NotThrown ==>
                && Inv(handler.View()) && AllHoused(handler.events, handler.servers.infos)
                && Handed(handler.View(), handler.routedEvents, served + {serverId}, -1, 0)
                && (serverId in handler.routedEvents ==>
                      forall k :: 0 <= k < |handler.routedEvents[serverId]| ==> handler.routedEvents[serverId][k] !in handler.todo)
    {
      hide Inv, Coupled, Allowed, Serve;
      thrown := NotThrown;
      var list := if serverId in handler.routedEvents then handler.routedEvents[serverId] else [];
      for i := 0 to |list|
        invariant thrown == NotThrown && Inv(handler.View()) && AllHoused(handler.events, handler.servers.infos)
        invariant handler.routedEvents == old(handler.routedEvents) && handler.todo <= old(handler.todo)
        invariant Handed(handler.View(), handler.routedEvents, served, serverId, i)
        invariant forall k :: 0 <= k < i ==> list[k] !in handler.todo
      {
        var id := list[i];
        var s := handler.View();
        LiveIsCoupled(s, id);
        var x := answer(s, id);
        AllowedInput(s, id, x);
        thrown := ProcessEvent(id, x);
        if thrown != NotThrown {
          return;
        }
        ServeKeepsHoused(s, id, x);
        ServedKeepsHanded(s, handler.routedEvents, served, serverId, i, Serve(s.events[id], id, x), x);
      }
    }
  }
}
