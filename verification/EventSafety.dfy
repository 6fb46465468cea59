/** What every step of the server keeps: one enabled registration for each live
    connection, none for any other, and descriptors that are never confused. */
module EventSafety {
  import opened Text
  import opened Storage
  import opened RequestModel
  import opened ResponseModel
  import opened CgiResponse
  import opened ResponseFactory
  import opened Kernel
  import opened Timeout
  import opened EventModel

  // ------------------------------------------------ changes, one at a time

  lemma {:induction false} AppliedOne(queue: Queue, a: Change)
    ensures Applied(queue, [a]) == Changed(queue, a)
  {
    AppliedMore(queue, [], a);
    assert [] + [a] == [a];
  }

  lemma {:induction false} AppliedTwo(queue: Queue, a: Change, b: Change)
    ensures Applied(queue, [a, b]) == Changed(Changed(queue, a), b)
  {
    AppliedOne(queue, a);
    AppliedMore(queue, [a], b);
    assert [a] + [b] == [a, b];
  }

  /** Changes leave alone what they do not mention. */
  lemma {:induction false} ChangesAreLocal(queue: Queue, changes: seq<Change>, key: Key)
    requires forall c :: c in changes ==> c.key.fd != key.fd
    ensures key in Applied(queue, changes) <==> key in queue
    ensures key in queue ==> Applied(queue, changes)[key] == queue[key]
    decreases |changes|
  {
    if changes != [] {
      var last := changes[|changes| - 1];
      assert last in changes;
      ChangesAreLocal(queue, changes[..|changes| - 1], key);
    }
  }

  // ---------------------------------------------------- one event's effect

  /** The registrations of one event, and of descriptors that are new. */
  ghost predicate Holds(queue: Queue, id: nat, e: Event, acquired: set<int>) {
    && (forall key: Key :: key.fd in Fds(e) ==> Matches(queue, key, id, e))
    && (forall key: Key :: key.fd in acquired ==> key !in queue)
  }

  /** After the changes, just the registrations the event now wants are there. A
      removed event's client descriptor is about to be closed and does not count. */
  ghost predicate Becomes(queue: Queue, id: nat, e: Event, eff: Effect, acquired: set<int>) {
    forall key: Key :: key.fd in Fds(e) + acquired ==>
      if eff.event.Some? && key.fd in Fds(eff.event.value) then Matches(queue, key, id, eff.event.value)
      else (eff.event.None? && key.fd == e.clientFd) || key !in queue
  }

  /** What makes an effect safe to have, for an event with no pending changes. */
  ghost predicate Proper(e: Event, id: nat, eff: Effect, acquired: set<int>, discarded: set<int>) {
    && eff.thrown == NotThrown
    && discarded <= acquired
    && (forall c :: c in eff.changes ==> c.key.fd in Fds(e) + acquired)
    && (forall queue :: Holds(queue, id, e, acquired) ==> Becomes(Applied(queue, eff.changes), id, e, eff, acquired))
    && eff.closing <= Fds(e) + acquired
    && (if eff.event.Some? then
          var e' := eff.event.value;
          && Coupled(e') && e'.clientFd == e.clientFd && Micros(e'.stamp) >= Micros(e.stamp)
          && Fds(e') <= Fds(e) + acquired && Fds(e') !! (eff.closing + discarded)
        else
          && e.clientFd !in eff.closing
          && forall c :: c in eff.changes ==> c.key.fd != e.clientFd)
  }

  /** What the environment may do while `id` is served: hand out descriptors that are
      not open, and let the factory make what its contract says it makes. Whether the
      file that is flushed to is there is not its choice. */
  ghost predicate Allowed(s: State, id: nat, x: Input)
    requires id in s.events && Coupled(s.events[id])
  {
    var e := s.events[id];
    var eff := Serve(e, id, x);
    && x.acquired !! s.open && x.discarded <= x.acquired
    && (eff.event.Some? ==> Fds(eff.event.value) - Fds(e) <= x.acquired - x.discarded)
    && Micros(x.now) >= Micros(e.stamp) && x.trash == s.trash
    && MadeFor(e, x)
  }

  /** What the factory is asked for: 400 for what is refused, 413 for what is too large. */
  predicate CodeFits(e: Event, x: Input)
    requires e.req.Valid()
  {
    ErrorIsMade(e, x) ==> x.error.resp.status == if Refuses(e.req) then 400 else 413
  }

  ghost predicate MadeFor(e: Event, x: Input)
    requires Coupled(e)
  {
    && x.reply.resp.Valid() && x.error.resp.Valid() && CodeFits(e, x)
    && match e.kind
       case RequestReadable =>
         && Suits(e.req.head.verb, x.reply.resp)
         && x.reply.resp.fd != x.fd && x.reply.resp.fd != e.clientFd && x.fd != e.clientFd
       case RequestUpload =>
         && x.cgi == e.resp.None? && SuitsError(e.req.head.verb, x.error.resp)
         && x.fd !in Fds(e) && x.error.resp.fd !in Fds(e)
       case BufferFlush => SuitsError(e.req.head.verb, x.error.resp) && x.error.resp.fd !in Fds(e)
       case CgiReadable =>
         && x.reply.resp.state == (if x.reply.source == "" then SendingStorage else DownloadingInit)
       case _ => true
  }

  /** What the factory promises of a response is what a step may be given: the
      descriptors it opened, and `x.fd` opened after them for a file to flush to. */
  lemma {:induction false} FactoryIsAllowed(s: State, id: nat, x: Input, f: Statics, open: set<int>, closing: set<int>)
    requires id in s.events && Separate(s) && s.events[id].kind.RequestReadable?
    requires WellMade(x.reply, f) && Suits(s.events[id].req.head.verb, x.reply.resp)
    requires AddsNew(s.open, s.closing, open, closing)
    requires x.reply.resp.fd == -1 || IsAdded(x.reply.resp.fd, s.open, s.closing, open, closing)
    requires x.fd >= 0 && x.fd !in open
    requires x.acquired == open - s.open + {x.fd} && x.discarded == closing - s.closing
    requires x.error.resp.Valid() && x.trash == s.trash && Micros(x.now) >= Micros(s.events[id].stamp)
    ensures Allowed(s, id, x)
  {
    hide ServeReadable, WellMade;
    var e, fd := s.events[id], x.reply.resp.fd;
    assert e.clientFd in Fds(e) && e.clientFd in s.open;
    WellMadeIsValid(x.reply, f);
    ReadableFds(e, id, x);
    OpenedForIt(s.open, s.closing, open, closing, x.fd, fd);
  }

  lemma {:induction false} OpenedForIt(wasOpen: set<int>, wasClosing: set<int>, open: set<int>, closing: set<int>,
                                       last: int, fd: int)
    requires AddsNew(wasOpen, wasClosing, open, closing) && last !in open && wasClosing <= wasOpen
    requires fd == -1 || IsAdded(fd, wasOpen, wasClosing, open, closing)
    ensures var acquired, discarded := open - wasOpen + {last}, closing - wasClosing;
            && acquired !! wasOpen && discarded <= acquired
            && last in acquired - discarded && (fd != -1 ==> fd in acquired - discarded)
  {
    forall put | put in closing - wasClosing ensures put in open - wasOpen {
      assert put in closing && put !in wasClosing;
    }
  }

  lemma {:induction false} WellMadeIsValid(reply: Reply, f: Statics)
    requires WellMade(reply, f)
    ensures reply.resp.Valid()
  {
  }

  /** A request that is served holds on to what was opened for it. */
  lemma {:induction false} ReadableFds(e: Event, id: nat, x: Input)
    requires Coupled(e) && e.kind.RequestReadable? && Suits(e.req.head.verb, x.reply.resp)
    ensures var after := ServeReadable(e, id, x).event;
            after.Some? && forall fd :: fd in Fds(after.value) && fd !in Fds(e) ==>
                             fd == x.fd || (fd == x.reply.resp.fd && fd != -1)
  {
  }

  /** No more is held afterwards than before, and what was opened. */
  predicate HoldsWithin(eff: Effect, e: Event, more: set<int>) {
    eff.event.Some? ==> Fds(eff.event.value) <= Fds(e) + more
  }

  lemma {:induction false} ReadableHolds(e: Event, id: nat, x: Input, more: set<int>)
    requires Coupled(e) && e.kind.RequestReadable? && x.fd in more
    requires Suits(e.req.head.verb, x.reply.resp) && x.reply.resp.fd in more + {-1}
    ensures HoldsWithin(ServeReadable(e, id, x), e, more)
  {
    hide ServeReadable;
    ReadableFds(e, id, x);
  }

  lemma {:induction false} UploadHolds(e: Event, u: Request, id: nat, x: Input, more: set<int>)
    requires Coupled(e) && e.kind.RequestUpload? && (x.fd in more || u.state.BadRequest?)
    requires SuitsError(e.req.head.verb, x.error.resp) && x.error.resp.fd in more + {-1}
    ensures HoldsWithin(Uploading(e, u, id, x), e, more)
  {
  }

  lemma {:induction false} FlushHolds(e: Event, u: Request, id: nat, x: Input, more: set<int>)
    requires Coupled(e) && e.kind.BufferFlush?
    requires SuitsError(e.req.head.verb, x.error.resp) && x.error.resp.fd in more + {-1}
    ensures HoldsWithin(Flushing(e, u, id, x), e, more)
  {
  }

  lemma {:induction false} OthersHold(e: Event, id: nat, x: Input, more: set<int>)
    requires Coupled(e) && (e.kind.ResponseDownload? || e.kind.ResponseWritable? || e.kind.CgiReadable?)
    ensures HoldsWithin(Serve(e, id, x), e, more)
  {
    hide Send, Download;
  }

  /** What the factory promises of an error response is what a step that has one made is
      given, while a body is written or flushed. */
  lemma {:induction false} ErrorReplyIsAllowed(s: State, id: nat, x: Input, f: Statics, open: set<int>, closing: set<int>)
    requires id in s.events && Separate(s) && (s.events[id].kind.RequestUpload? || s.events[id].kind.BufferFlush?)
    requires s.events[id].kind.RequestUpload? ==>
               Refuses(s.events[id].req) && !x.late && x.cgi == s.events[id].resp.None? && x.fd !in Fds(s.events[id])
    requires WellMade(x.error, f) && SuitsError(s.events[id].req.head.verb, x.error.resp)
    requires AddsNew(s.open, s.closing, open, closing)
    requires x.error.resp.fd == -1 || IsAdded(x.error.resp.fd, s.open, s.closing, open, closing)
    requires x.acquired == open - s.open && x.discarded == closing - s.closing
    requires x.reply.resp.Valid() && x.trash == s.trash && Micros(x.now) >= Micros(s.events[id].stamp)
    requires CodeFits(s.events[id], x)
    ensures Allowed(s, id, x)
  {
    hide WellMade, Uploading, Flushing, Upload, Refuses;
    var e, fd := s.events[id], x.error.resp.fd;
    WellMadeIsValid(x.error, f);
    OpenedOnTheWay(s.open, s.closing, open, closing, fd);
    if e.kind.RequestUpload? {
      UploadForetold(e.req, x.io);
      UploadHolds(e, Advanced(e, x), id, x, {fd});
    } else {
      FlushHolds(e, Advanced(e, x), id, x, {fd});
    }
  }

  lemma {:induction false} OpenedOnTheWay(wasOpen: set<int>, wasClosing: set<int>, open: set<int>, closing: set<int>, fd: int)
    requires AddsNew(wasOpen, wasClosing, open, closing) && wasClosing <= wasOpen
    requires fd == -1 || IsAdded(fd, wasOpen, wasClosing, open, closing)
    ensures var acquired, discarded := open - wasOpen, closing - wasClosing;
            && acquired !! wasOpen && discarded <= acquired && (fd != -1 ==> fd in acquired - discarded)
  {
    forall put | put in closing - wasClosing ensures put in open - wasOpen {
      assert put in closing && put !in wasClosing;
    }
  }

  /** What the factory promises of the response to a CGI answer, likewise: it opens none. */
  lemma {:induction false} CgiReplyIsAllowed(s: State, id: nat, x: Input, header: string, readAhead: string, status: int)
    requires id in s.events && Separate(s) && s.events[id].kind.CgiReadable?
    requires x.reply.resp == CgiReply(header, readAhead, x.reply.source, status, -1)
    requires x.acquired == {} && x.discarded == {}
    requires x.error.resp.Valid() && x.trash == s.trash && Micros(x.now) >= Micros(s.events[id].stamp)
    ensures Allowed(s, id, x)
  {
    OthersHold(s.events[id], id, x, {});
  }

  // ------------------------------------ each kind of step has a proper effect

  lemma {:induction false} UploadKeepsHead(r: Request, io: Io)
    requires r.Valid()
    ensures Upload(r, io).req.head == r.head && Upload(r, io).req.Valid()
    ensures CodingFits(r) ==> CodingFits(Upload(r, io).req)
  {
  }

  /** Taking over the client's write side, or the read side of a file that is new or
      was waiting, after dropping or disabling what the event had enabled. */
  lemma {:induction false} SwitchesOver(queue: Queue, id: nat, e: Event, off: Change, on: Change, e': Event, acquired: set<int>)
    requires Holds(queue, id, e, acquired) && e.clientFd !in acquired
    requires Coupled(e) && e'.clientFd == e.clientFd && e'.clientFd !in FileFds(e')
    requires e'.kind.ResponseWritable? || e'.kind.ResponseDownload? || e'.kind.RequestUpload? || e'.kind.BufferFlush? || e'.kind.CgiReadable?
    requires off.key == MainKey(e)
    requires off.flag == if off.key.fd == e.clientFd then Disable else Delete
    requires off.flag.Disable? ==> off.owner == Conn(id)
    requires on == Change(MainKey(e'), if e'.kind.ResponseWritable? then Enable else Add, Conn(id))
    requires Fds(e') <= Fds(e) + acquired
    requires on.key.fd != off.key.fd || (off.key.fd == e.clientFd && on.key == Key(e.clientFd, Writing) && e.kind.RequestReadable?)
    ensures Becomes(Applied(queue, [off, on]), id, e, Effect(Some(e'), [off, on], {}, NotThrown), acquired)
  {
    AppliedTwo(queue, off, on);
    forall key: Key | key.fd in Fds(e) + acquired
      ensures if key.fd in Fds(e') then Matches(Applied(queue, [off, on]), key, id, e') else key !in Applied(queue, [off, on])
    {
      if key.fd in Fds(e) {
        assert Matches(queue, key, id, e);
      }
    }
  }

  /** Neither type nor descriptors have changed. */
  predicate SameFds(e: Event, e': Event) {
    && e'.kind == e.kind && e'.clientFd == e.clientFd && e'.toSendFd == e.toSendFd && e'.toRecvFd == e.toRecvFd
    && FileFds(e') == FileFds(e) && e'.stamp == e.stamp
  }

  lemma {:induction false} StayingIsProper(e: Event, id: nat, e': Event, acquired: set<int>, discarded: set<int>)
    requires Coupled(e) && Coupled(e') && SameFds(e, e')
    requires discarded <= acquired && acquired !! Fds(e)
    ensures Proper(e, id, Quietly(e'), acquired, discarded)
  {
    forall queue | Holds(queue, id, e, acquired)
      ensures Becomes(Applied(queue, []), id, e, Quietly(e'), acquired)
    {
      forall key: Key | key.fd in Fds(e)
        ensures Matches(queue, key, id, e')
      {
        assert Matches(queue, key, id, e) && Wanted(e', key) == Wanted(e, key);
      }
    }
  }

  lemma {:induction false} SwitchIsProper(e: Event, id: nat, off: Change, on: Change, e': Event, closing: set<int>,
                                          acquired: set<int>, discarded: set<int>)
    requires Coupled(e) && Coupled(e') && e'.clientFd == e.clientFd && e'.stamp == e.stamp
    requires !e'.kind.RequestReadable?
    requires off.key == MainKey(e)
    requires off.flag == if off.key.fd == e.clientFd then Disable else Delete
    requires off.flag.Disable? ==> off.owner == Conn(id)
    requires on == Change(MainKey(e'), if e'.kind.ResponseWritable? then Enable else Add, Conn(id))
    requires on.key.fd != off.key.fd || (off.key.fd == e.clientFd && on.key == Key(e.clientFd, Writing) && e.kind.RequestReadable?)
    requires Fds(e') <= Fds(e) + (acquired - discarded) && acquired !! Fds(e) && discarded <= acquired
    requires closing <= FileFds(e) - Fds(e')
    ensures Proper(e, id, Effect(Some(e'), [off, on], closing, NotThrown), acquired, discarded)
  {
    var eff := Effect(Some(e'), [off, on], closing, NotThrown);
    forall queue | Holds(queue, id, e, acquired)
      ensures Becomes(Applied(queue, eff.changes), id, e, eff, acquired)
    {
      SwitchesOver(queue, id, e, off, on, e', acquired);
    }
    assert off.key.fd in Fds(e) && on.key.fd in Fds(e');
  }

  /** The changes delete what a removed event had registered for a file. */
  lemma {:induction false} RemovingIsProper(e: Event, id: nat, changes: seq<Change>, acquired: set<int>, discarded: set<int>)
    requires Coupled(e) && acquired !! Fds(e) && discarded <= acquired
    requires changes == [] || changes == [Change(MainKey(e), Delete, Nobody)]
             || changes == [Change(MainKey(e), Delete, Nobody), Change(MainKey(e), Delete, Nobody)]
    requires changes == [] <==> MainKey(e).fd == e.clientFd
    ensures Proper(e, id, Effect(None, changes, if changes == [] then {} else {MainKey(e).fd}, NotThrown), acquired, discarded)
  {
    var eff := Effect(None, changes, if changes == [] then {} else {MainKey(e).fd}, NotThrown);
    forall queue | Holds(queue, id, e, acquired)
      ensures Becomes(Applied(queue, changes), id, e, eff, acquired)
    {
      if |changes| == 1 {
        AppliedOne(queue, changes[0]);
      } else if |changes| == 2 {
        AppliedTwo(queue, changes[0], changes[1]);
      }
      forall key: Key | key.fd in Fds(e) && key.fd != e.clientFd
        ensures key !in Applied(queue, changes)
      {
        assert Matches(queue, key, id, e);
      }
    }
  }

  lemma {:induction false} RenewingIsProper(e: Event, id: nat, e': Event, acquired: set<int>, discarded: set<int>)
    requires Coupled(e) && e.kind.ResponseWritable? && Coupled(e') && e'.kind.RequestReadable?
    requires e'.clientFd == e.clientFd && Micros(e'.stamp) >= Micros(e.stamp)
    requires acquired !! Fds(e) && discarded <= acquired
    ensures Proper(e, id, Effect(Some(e'), [Ch(e.clientFd, Writing, Disable, Conn(id)), Ch(e.clientFd, Reading, Enable, Conn(id))], {}, NotThrown),
                   acquired, discarded)
  {
    var off, on := Ch(e.clientFd, Writing, Disable, Conn(id)), Ch(e.clientFd, Reading, Enable, Conn(id));
    var eff := Effect(Some(e'), [off, on], {}, NotThrown);
    forall queue | Holds(queue, id, e, acquired)
      ensures Becomes(Applied(queue, [off, on]), id, e, eff, acquired)
    {
      AppliedTwo(queue, off, on);
      forall key: Key | key.fd in Fds(e) ensures Matches(Applied(queue, [off, on]), key, id, e') {
        assert Matches(queue, key, id, e);
      }
    }
  }

  /** The file that is flushed to has nothing to do with it. */
  lemma {:induction false} ProperAnyTrash(e: Event, id: nat, eff: Effect, trash: Trash, acquired: set<int>, discarded: set<int>)
    requires Proper(e, id, eff, acquired, discarded)
    ensures Proper(e, id, eff.(trash := trash), acquired, discarded)
  {
    forall queue | Holds(queue, id, e, acquired)
      ensures Becomes(Applied(queue, eff.changes), id, e, eff.(trash := trash), acquired)
    {
      assert Becomes(Applied(queue, eff.changes), id, e, eff, acquired);
    }
  }

  lemma {:induction false} AfterOne(off: Change, on: Change, closing: set<int>, e': Event)
    ensures After([off], closing, Effect(Some(e'), [on], {}, NotThrown)) == Effect(Some(e'), [off, on], closing, NotThrown)
  {
    assert [off] + [on] == [off, on] && closing + {} == closing;
  }

  lemma {:induction false} ReadableIsProper(s: State, id: nat, x: Input)
    requires id in s.events && Separate(s) && s.events[id].kind.RequestReadable? && Allowed(s, id, x)
    requires Serve(s.events[id], id, x).thrown == NotThrown
    ensures Proper(s.events[id], id, Serve(s.events[id], id, x), x.acquired, x.discarded)
  {
    var e := s.events[id];
    assert Fds(e) !! x.acquired;
    var off := Ch(e.clientFd, Reading, Disable, Conn(id));
    var made := e.(resp := Some(x.reply.resp), source := x.reply.source);
    var e' :=
      if x.cgi && (e.req.head.verb.GET? || HasBody(e.req.head.verb)) then e.(kind := RequestUpload, toSendFd := x.fd)
      else match x.reply.resp.kind
        case TypePost => made.(kind := RequestUpload, toSendFd := x.reply.resp.fd)
        case TypeGet => made.(kind := ResponseDownload, toRecvFd := x.reply.resp.fd)
        case TypeDel => made.(kind := ResponseWritable, toSendFd := e.clientFd)
        case _ => made.(kind := BufferFlush, toSendFd := x.fd);
    var on := Change(MainKey(e'), if e'.kind.ResponseWritable? then Enable else Add, Conn(id));
    AfterOne(off, on, {}, e');
    var eff := Effect(Some(e'), [off, on], {}, NotThrown);
    assert Serve(e, id, x) == eff.(trash := Serve(e, id, x).trash);
    SwitchIsProper(e, id, off, on, e', {}, x.acquired, x.discarded);
    ProperAnyTrash(e, id, eff, Serve(e, id, x).trash, x.acquired, x.discarded);
  }

  lemma {:induction false} RedirectIsProper(e: Event, id: nat, closing: set<int>, acquired: set<int>, discarded: set<int>, was: Event)
    requires Coupled(was) && (was.kind.RequestUpload? || was.kind.BufferFlush?)
    requires e.resp.Some? && e == was.(req := e.req, resp := e.resp, source := e.source)
    requires e.req.Valid() && CodingFits(e.req) && e.resp.value.Valid() && BodyIsOver(e.req)
    requires (e.resp.value.kind.TypeFlush? && e.resp.value.state.SendingStorage?)
             || (e.resp.value.kind.TypeFlushErr? && e.resp.value.state.DownloadingInit? && e.resp.value.fd != e.toSendFd
                 && e.resp.value.fd != e.clientFd && e.resp.value.fd in FileFds(was) + (acquired - discarded))
    requires closing <= {e.toSendFd} && acquired !! Fds(was) && discarded <= acquired
    ensures Proper(was, id, After([], closing, Redirect(e, id)), acquired, discarded)
  {
    hide Proper;
    var eff := After([], closing, Redirect(e, id));
    assert eff.changes == Redirect(e, id).changes && |eff.changes| == 2;
    SwitchIsProper(was, id, eff.changes[0], eff.changes[1], eff.event.value, closing, acquired, discarded);
    assert eff == Effect(eff.event, [eff.changes[0], eff.changes[1]], closing, NotThrown);
  }

  /** What `Allowed` says of an effect, apart from the state. */
  ghost predicate Provided(e: Event, eff: Effect, x: Input)
    requires Coupled(e)
  {
    && x.acquired !! Fds(e) && x.discarded <= x.acquired
    && (eff.event.Some? ==> Fds(eff.event.value) - Fds(e) <= x.acquired - x.discarded)
    && MadeFor(e, x) && eff.thrown == NotThrown
  }

  lemma {:induction false} UploadIsProper(e: Event, u: Request, id: nat, x: Input)
    requires Coupled(e) && e.kind.RequestUpload? && Provided(e, Uploading(e, u, id, x), x)
    requires u.head == e.req.head && u.Valid() && CodingFits(u)
    ensures Proper(e, id, Uploading(e, u, id, x), x.acquired, x.discarded)
  {
    var next := e.(req := u);
    var off := Ch(e.toSendFd, Writing, Delete, Nobody);
    if u.state == TimedOut || u.state == ConnectionClosed {
      RemovingIsProper(e, id, [off], x.acquired, x.discarded);
    } else if u.state == BadRequest {
      RedirectIsProper(WithError(next, x), id, {}, x.acquired, x.discarded, e);
      AfterNothing(Redirect(WithError(next, x), id));
    } else if u.state == UploadDone {
      var e' := if x.cgi then next.(kind := CgiReadable, toRecvFd := x.fd)
                else next.(kind := ResponseWritable, toSendFd := e.clientFd);
      var on := Change(MainKey(e'), if x.cgi then Add else Enable, Conn(id));
      AfterOne(off, on, {e.toSendFd}, e');
      SwitchIsProper(e, id, off, on, e', {e.toSendFd}, x.acquired, x.discarded);
    } else {
      StayingIsProper(e, id, next, x.acquired, x.discarded);
    }
  }

  lemma {:induction false} AfterNothing(eff: Effect)
    ensures After([], {}, eff) == eff
  {
    assert [] + eff.changes == eff.changes;
  }

  lemma {:induction false} FlushIsProper(e: Event, u: Request, id: nat, x: Input)
    requires Coupled(e) && e.kind.BufferFlush? && Provided(e, Flushing(e, u, id, x), x)
    requires u.head == e.req.head && u.Valid() && CodingFits(u)
    ensures Proper(e, id, Flushing(e, u, id, x), x.acquired, x.discarded)
  {
    var next := e.(req := u);
    var off := Ch(e.toSendFd, Writing, Delete, Nobody);
    if u.state == TimedOut || u.state == ConnectionClosed {
      assert [off] + [] == [off] && {e.toSendFd} + {} == {e.toSendFd};
      RemovingIsProper(e, id, [off], x.acquired, x.discarded);
      ProperAnyTrash(e, id, Effect(None, [off], {e.toSendFd}, NotThrown), Unlinked, x.acquired, x.discarded);
    } else if u.state == BadRequest {
      var eff := Redirect(WithError(next, x), id);
      RedirectIsProper(WithError(next, x), id, {}, x.acquired, x.discarded, e);
      AfterNothing(eff);
      ProperAnyTrash(e, id, eff, Unlinked, x.acquired, x.discarded);
    } else if u.state == UploadDone {
      var last := if TooLarge(x) then WithError(next, x) else next;
      var eff := After([], {e.toSendFd}, Redirect(last, id));
      RedirectIsProper(last, id, {e.toSendFd}, x.acquired, x.discarded, e);
      ProperAnyTrash(e, id, eff, Unlinked, x.acquired, x.discarded);
      assert eff.(trash := Unlinked) == After([], {e.toSendFd}, Redirect(last, id)).(trash := Unlinked);
    } else {
      StayingIsProper(e, id, next, x.acquired, x.discarded);
    }
  }

  lemma {:induction false} DownloadIsProper(s: State, id: nat, x: Input)
    requires id in s.events && Separate(s) && s.events[id].kind.ResponseDownload? && Allowed(s, id, x)
    ensures Proper(s.events[id], id, Serve(s.events[id], id, x), x.acquired, x.discarded)
  {
    var e := s.events[id];
    assert Fds(e) !! x.acquired;
    var eff := ServeDownload(e, id, x);
    var read := ReadOf(e.source, x.io);
    var next := e.(resp := Some(Download(e.resp.value, read)),
                   source := if read.Bytes? then e.source[|read.piece|..] else e.source);
    var off := Ch(e.toRecvFd, Reading, Delete, Nobody);
    if next.resp.value.state == SendingTimedOut || next.resp.value.state == SendingClosed {
      assert [off] + [off] == [off, off] && {e.toRecvFd} + {e.toRecvFd} == {e.toRecvFd};
      RemovingIsProper(e, id, [off, off], x.acquired, x.discarded);
    } else if next.resp.value.state == SendingStorage {
      var e' := next.(kind := ResponseWritable, toSendFd := e.clientFd);
      var on := Change(MainKey(e'), Enable, Conn(id));
      AfterOne(off, on, {e.toRecvFd}, e');
      SwitchIsProper(e, id, off, on, e', {e.toRecvFd}, x.acquired, x.discarded);
    } else {
      StayingIsProper(e, id, next, x.acquired, x.discarded);
    }
  }

  lemma {:induction false} WritableIsProper(s: State, id: nat, x: Input)
    requires id in s.events && Separate(s) && s.events[id].kind.ResponseWritable? && Allowed(s, id, x)
    requires Serve(s.events[id], id, x).thrown == NotThrown
    ensures Proper(s.events[id], id, Serve(s.events[id], id, x), x.acquired, x.discarded)
  {
    var e := s.events[id];
    assert Fds(e) !! x.acquired;
    var next := e.(resp := Some(Send(e.resp.value, x.io).resp));
    if next.resp.value.state == SendingClosed
       || (next.resp.value.state == SendingDone && !(e.req.head.keepAlive && e.resp.value.status != 400)) {
      RemovingIsProper(e, id, [], x.acquired, x.discarded);
    } else if next.resp.value.state == SendingDone {
      RenewingIsProper(e, id, Renewed(next, x.now), x.acquired, x.discarded);
    } else {
      StayingIsProper(e, id, next, x.acquired, x.discarded);
    }
  }

  lemma {:induction false} CgiIsProper(s: State, id: nat, x: Input)
    requires id in s.events && Separate(s) && s.events[id].kind.CgiReadable? && Allowed(s, id, x)
    requires Serve(s.events[id], id, x).thrown == NotThrown
    ensures Proper(s.events[id], id, Serve(s.events[id], id, x), x.acquired, x.discarded)
  {
    var e := s.events[id];
    assert Fds(e) !! x.acquired;
    var off := Ch(e.toRecvFd, Reading, Delete, Nobody);
    if x.reply.source != "" {
      var e' := e.(resp := Some(x.reply.resp.(fd := e.toRecvFd)), source := x.reply.source, kind := ResponseDownload);
      DownloadContinues(e, id, e', x.acquired, x.discarded);
    } else {
      var e' := e.(resp := Some(x.reply.resp), source := "", kind := ResponseWritable, toSendFd := e.clientFd);
      var on := Change(MainKey(e'), Enable, Conn(id));
      AfterOne(off, on, {e.toRecvFd}, e');
      SwitchIsProper(e, id, off, on, e', {e.toRecvFd}, x.acquired, x.discarded);
    }
  }

  /** The registration of a CGI answer serves for the download of its body. */
  lemma {:induction false} DownloadContinues(e: Event, id: nat, e': Event, acquired: set<int>, discarded: set<int>)
    requires Coupled(e) && Coupled(e') && e.kind.CgiReadable? && e'.kind.ResponseDownload?
    requires e'.clientFd == e.clientFd && e'.toRecvFd == e.toRecvFd && e'.stamp == e.stamp
    requires discarded <= acquired && acquired !! Fds(e)
    ensures Proper(e, id, Quietly(e'), acquired, discarded)
  {
    forall queue | Holds(queue, id, e, acquired)
      ensures Becomes(Applied(queue, []), id, e, Quietly(e'), acquired)
    {
      forall key: Key | key.fd in Fds(e) ensures Matches(queue, key, id, e') {
        assert Matches(queue, key, id, e) && Wanted(e', key) == Wanted(e, key);
      }
    }
  }

  /** Whatever is served, and however the environment answers, the effect is proper. */
  lemma {:induction false} ServeIsProper(s: State, id: nat, x: Input)
    requires id in s.events && Separate(s) && Allowed(s, id, x) && Serve(s.events[id], id, x).thrown == NotThrown
    ensures Proper(s.events[id], id, Serve(s.events[id], id, x), x.acquired, x.discarded)
  {
    match s.events[id].kind {
      case RequestReadable => ReadableIsProper(s, id, x);
      case RequestUpload =>
        UploadKeepsHead(s.events[id].req, x.io);
        UploadIsProper(s.events[id], Advanced(s.events[id], x), id, x);
      case ResponseDownload => DownloadIsProper(s, id, x);
      case ResponseWritable => WritableIsProper(s, id, x);
      case CgiReadable => CgiIsProper(s, id, x);
      case BufferFlush =>
        UploadKeepsHead(s.events[id].req, x.io);
        FlushIsProper(s.events[id], Advanced(s.events[id], x), id, x);
    }
  }

  // ------------------------------------------- whether its changes can be made

  /** The one lapse: the source of a download cannot be read. */
  predicate ReadFails(e: Event, x: Input) {
    e.kind.ResponseDownload? && x.io.Failed?
  }

  lemma {:induction false} NoChangeFinds(queue: Queue)
    ensures Finds(queue, [])
  {
  }

  lemma {:induction false} OneFinds(queue: Queue, a: Change)
    requires a.flag.Add? || a.key in queue
    ensures Finds(queue, [a])
  {
    assert [a][..0] == [];
    assert !Misses(queue, [a], 0);
  }

  lemma {:induction false} TwoFind(queue: Queue, a: Change, b: Change)
    requires a.flag.Add? || a.key in queue
    requires b.flag.Add? || b.key in Changed(queue, a)
    ensures Finds(queue, [a, b])
  {
    AppliedOne(queue, a);
    OneFinds(queue, a);
    OneFinds(Changed(queue, a), b);
    FindsMore(queue, [a], [b]);
    assert [a] + [b] == [a, b];
  }

  /** The second deletion of one registration is in vain, and nobody's. */
  lemma {:induction false} TwiceDeletedMisses(queue: Queue, off: Change)
    requires off.flag.Delete? && off.owner == Nobody
    ensures Misses(queue, [off, off], 1) && !Finds(queue, [off, off]) && OnlyNobodys(queue, [off, off])
  {
    var two := [off, off];
    AppliedOne(queue, off);
    assert two[..1] == [off];
    assert Misses(queue, two, 1);
    assert forall i :: 0 <= i < |two| ==> two[i] == off;
  }

  lemma {:induction false} FindingIsEnough(queue: Queue, changes: seq<Change>)
    requires Finds(queue, changes)
    ensures OnlyNobodys(queue, changes)
  {
  }

  /** What the event has registered can be deleted or disabled, and another
      registration added, or that of the client's socket enabled. */
  lemma {:induction false} SwitchFinds(queue: Queue, id: nat, e: Event, off: Change, on: Change)
    requires Holds(queue, id, e, {}) && e.clientFd !in FileFds(e)
    requires off.key == MainKey(e) && (off.flag.Delete? || off.flag.Disable?)
    requires on.flag.Add? || (on.flag.Enable? && on.key.fd == e.clientFd && (on.key != off.key || off.flag.Disable?))
    ensures Finds(queue, [off, on]) && Finds(queue, [off])
  {
    assert Matches(queue, off.key, id, e);
    if on.key.fd == e.clientFd {
      assert Matches(queue, on.key, id, e);
    }
    TwoFind(queue, off, on);
    OneFinds(queue, off);
  }

  lemma {:induction false} ReadableFinds(queue: Queue, id: nat, e: Event, x: Input)
    requires Holds(queue, id, e, {}) && Coupled(e) && e.kind.RequestReadable? && ServeReadable(e, id, x).thrown == NotThrown
    requires MadeFor(e, x)
    ensures Finds(queue, ServeReadable(e, id, x).changes)
  {
    var eff := ServeReadable(e, id, x);
    assert |eff.changes| == 2 && eff.changes == [eff.changes[0], eff.changes[1]];
    SwitchFinds(queue, id, e, eff.changes[0], eff.changes[1]);
  }

  lemma {:induction false} RedirectFinds(queue: Queue, id: nat, e: Event, was: Event)
    requires Holds(queue, id, was, {}) && Coupled(was) && (was.kind.RequestUpload? || was.kind.BufferFlush?)
    requires e.kind == was.kind && e.clientFd == was.clientFd && e.toSendFd == was.toSendFd && e.resp.Some?
    requires Redirect(e, id).thrown == NotThrown
    ensures Finds(queue, Redirect(e, id).changes)
  {
    var eff := Redirect(e, id);
    assert |eff.changes| == 2 && eff.changes == [eff.changes[0], eff.changes[1]];
    SwitchFinds(queue, id, was, eff.changes[0], eff.changes[1]);
  }

  lemma {:induction false} UploadFinds(queue: Queue, id: nat, e: Event, u: Request, x: Input)
    requires Holds(queue, id, e, {}) && Coupled(e) && e.kind.RequestUpload? && Uploading(e, u, id, x).thrown == NotThrown
    ensures Finds(queue, Uploading(e, u, id, x).changes)
  {
    hide Holds, Finds;
    var eff, off := Uploading(e, u, id, x), Ch(e.toSendFd, Writing, Delete, Nobody);
    NoChangeFinds(queue);
    if u.state == BadRequest {
      RedirectFinds(queue, id, WithError(e.(req := u), x), e);
    } else if u.state == UploadDone {
      assert eff.changes == [off, eff.changes[1]];
      SwitchFinds(queue, id, e, off, eff.changes[1]);
    } else if u.state == TimedOut || u.state == ConnectionClosed {
      SwitchFinds(queue, id, e, off, Ch(e.clientFd, Writing, Enable, Conn(id)));
    }
  }

  lemma {:induction false} FlushFinds(queue: Queue, id: nat, e: Event, u: Request, x: Input)
    requires Holds(queue, id, e, {}) && Coupled(e) && e.kind.BufferFlush? && Flushing(e, u, id, x).thrown == NotThrown
    ensures Finds(queue, Flushing(e, u, id, x).changes)
  {
    hide Holds, Finds;
    var next, off := e.(req := u), Ch(e.toSendFd, Writing, Delete, Nobody);
    NoChangeFinds(queue);
    if u.state == BadRequest {
      RedirectFinds(queue, id, WithError(next, x), e);
    } else if u.state == UploadDone {
      var last := if TooLarge(x) then WithError(next, x) else next;
      RedirectFinds(queue, id, last, e);
      assert [] + Redirect(last, id).changes == Redirect(last, id).changes;
    } else if u.state == TimedOut || u.state == ConnectionClosed {
      assert [off] + [] == [off];
      SwitchFinds(queue, id, e, off, Ch(e.clientFd, Writing, Enable, Conn(id)));
    }
  }

  lemma {:induction false} DownloadFinds(queue: Queue, id: nat, e: Event, x: Input)
    requires Holds(queue, id, e, {}) && Coupled(e) && e.kind.ResponseDownload?
    ensures Finds(queue, ServeDownload(e, id, x).changes) <==> !ReadFails(e, x)
    ensures OnlyNobodys(queue, ServeDownload(e, id, x).changes)
  {
    hide Holds, Finds, OnlyNobodys;
    var off, on := Ch(e.toRecvFd, Reading, Delete, Nobody), Ch(e.clientFd, Writing, Enable, Conn(id));
    NoChangeFinds(queue);
    SwitchFinds(queue, id, e, off, on);
    TwiceDeletedMisses(queue, off);
    assert [off] + [off] == [off, off] && [off] + [on] == [off, on];
    FindingIsEnough(queue, if ReadFails(e, x) then [] else ServeDownload(e, id, x).changes);
  }

  lemma {:induction false} WritableFinds(queue: Queue, id: nat, e: Event, x: Input)
    requires Holds(queue, id, e, {}) && Coupled(e) && e.kind.ResponseWritable?
    ensures Finds(queue, ServeWritable(e, id, x).changes)
  {
    hide Holds, Finds;
    NoChangeFinds(queue);
    SwitchFinds(queue, id, e, Ch(e.clientFd, Writing, Disable, Conn(id)), Ch(e.clientFd, Reading, Enable, Conn(id)));
  }

  lemma {:induction false} CgiFinds(queue: Queue, id: nat, e: Event, x: Input)
    requires Holds(queue, id, e, {}) && Coupled(e) && e.kind.CgiReadable?
    ensures Finds(queue, ServeCgi(e, id, x).changes)
  {
    hide Holds, Finds;
    var off, on := Ch(e.toRecvFd, Reading, Delete, Nobody), Ch(e.clientFd, Writing, Enable, Conn(id));
    NoChangeFinds(queue);
    SwitchFinds(queue, id, e, off, on);
    assert [off] + [on] == [off, on];
  }

  /** Each change of a step finds the registration it changes, except exactly when the
      source of a download cannot be read; and then what fails is nobody's. */
  lemma {:induction false} ServeFindsExactly(queue: Queue, id: nat, e: Event, x: Input)
    requires Holds(queue, id, e, {}) && Coupled(e) && MadeFor(e, x) && Serve(e, id, x).thrown == NotThrown
    ensures Finds(queue, Serve(e, id, x).changes) <==> !ReadFails(e, x)
    ensures OnlyNobodys(queue, Serve(e, id, x).changes)
  {
    hide Holds, Finds, OnlyNobodys, MadeFor, ServeReadable, ServeDownload, ServeWritable, ServeCgi, Uploading, Flushing;
    match e.kind {
      case RequestReadable => ReadableFinds(queue, id, e, x);
      case RequestUpload => UploadFinds(queue, id, e, Advanced(e, x), x);
      case ResponseDownload => DownloadFinds(queue, id, e, x);
      case ResponseWritable => WritableFinds(queue, id, e, x);
      case CgiReadable => CgiFinds(queue, id, e, x);
      case BufferFlush => FlushFinds(queue, id, e, Advanced(e, x), x);
    }
    if !ReadFails(e, x) {
      FindingIsEnough(queue, Serve(e, id, x).changes);
    }
  }

  // ------------------------------------------------- when a step is cut short

  /** What the next call of the decoder will make of a request, told beforehand. It
      takes a line when it is at one and its connection has not failed. */
  predicate TakesLine(r: Request) {
    (r.state.UploadChunkInit? || r.state.UploadReadLine?) && r.conn != Closed
  }

  /** It has been refused before, or stands at a size line that is no number. */
  predicate Refuses(r: Request)
    requires r.pos <= |r.held|
  {
    r.state.BadRequest? || (TakesLine(r) && LineOf(r.Unread()) != "" && ChunkSize(LineOf(r.Unread())) == -1)
  }

  /** It is done, stands at the CRLF after the last chunk, or has all that is left of a
      body of declared length taken by the write. */
  predicate Finishes(r: Request, io: Io)
    requires r.pos <= |r.held|
  {
    || r.state.UploadDone?
    || (TakesLine(r) && LineOf(r.Unread()) == [CR] && r.chunkSize == 0)
    || (r.state.UploadInit? && !r.head.chunked && io.Moved?
        && r.chunkSize == r.uploaded + Taken(r.Unread(), SizeT(r.chunkSize - r.uploaded), io))
  }

  /** It has broken or timed out, or the connection has, or a write fails. */
  predicate Breaks(r: Request, io: Io)
    requires r.pos <= |r.held|
  {
    || r.state.TimedOut? || r.state.ConnectionClosed?
    || ((r.state.UploadChunkInit? || r.state.UploadReadLine?) && r.conn == Closed)
    || (io.Failed? && (r.state.UploadInit? || (TakesLine(r) && ChunkSize(LineOf(r.Unread())) > 0)))
  }

  lemma {:induction false} UploadForetold(r: Request, io: Io)
    requires r.Valid() && CodingFits(r)
    ensures var u := Upload(r, io).req;
            && (u.state.BadRequest? <==> Refuses(r))
            && (u.state.UploadDone? <==> Finishes(r, io))
            && (u.state.TimedOut? || u.state.ConnectionClosed? <==> Breaks(r, io))
  {
    if r.state.UploadChunkInit? || r.state.UploadReadLine? {
      var line := LineOf(r.Unread());
      LineForetold(r.Leaving(AfterLine(r.Unread())), line, io);
      BlankIsNoSize();
    }
  }

  lemma {:induction false} BlankIsNoSize()
    ensures ChunkSize([CR]) == 0 && ChunkSize("") == -1
  {
    assert DigitRun([CR], 16, 0) == 0;
  }

  lemma {:induction false} LineForetold(r: Request, line: string, io: Io)
    requires r.pos <= |r.held| && r.head.chunked && (r.state.UploadChunkInit? || r.state.UploadReadLine?)
    ensures var u := TakeLine(r, line, io).req;
            && (u.state.BadRequest? <==> r.conn != Closed && line != "" && line != [CR] && ChunkSize(line) == -1)
            && (u.state.UploadDone? <==> r.conn != Closed && line == [CR] && r.chunkSize == 0)
            && (u.state.ConnectionClosed? <==>
                  r.conn == Closed || (io.Failed? && line != "" && line != [CR] && ChunkSize(line) > 0))
            && !u.state.TimedOut?
  {
    hide ChunkSize;
  }

  /** How a step will be cut short, told from the event before it and from the calls
      that are to fail. */
  function Throws(e: Event, x: Input): Thrown
    requires Coupled(e)
  {
    match e.kind
    case RequestReadable =>
      FailsIf(if ToProgram(e, x) then x.faults.open
              else x.faults.reply || (x.faults.open && (x.reply.resp.kind.TypeFlush? || x.reply.resp.kind.TypeFlushErr?)))
    case RequestUpload =>
      if x.late then NotThrown
      else if Refuses(e.req) then
        if x.faults.error then CallFailed else if e.req.head.verb.GET? then WrongRoutine else NotThrown
      else FailsIf(Finishes(e.req, x.io) && x.cgi && x.faults.open)
    case BufferFlush =>
      FailsIf(FlushEnds(e, x) && (!x.trash || (ErrorIsMade(e, x) && x.faults.error)))
    case CgiReadable => FailsIf(x.faults.reply)
    case ResponseDownload => NotThrown
    case ResponseWritable => FailsIf(EndsAlive(e, x) && x.cgi && x.faults.unlink)
  }

  /** The flush is over: all is written, or the time is over, or something is wrong. */
  predicate FlushEnds(e: Event, x: Input)
    requires e.req.Valid()
  {
    x.late || Breaks(e.req, x.io) || Refuses(e.req) || Finishes(e.req, x.io)
  }

  /** The response is to be replaced by an error response. */
  predicate ErrorIsMade(e: Event, x: Input)
    requires e.req.Valid()
  {
    && (e.kind.RequestUpload? || e.kind.BufferFlush?) && !x.late
    && (Refuses(e.req) || (e.kind.BufferFlush? && Finishes(e.req, x.io) && TooLarge(x)))
  }

  function FailsIf(fails: bool): Thrown {
    if fails then CallFailed else NotThrown
  }

  /** The rest of the response will be taken, and the connection is to be kept. */
  predicate EndsAlive(e: Event, x: Input)
    requires Coupled(e) && e.kind.ResponseWritable?
  {
    var r := e.resp.value;
    && x.io.Moved? && r.goal == r.sent + Taken(r.Unread(), r.goal - r.sent, x.io)
    && e.req.head.keepAlive && r.status != 400
  }

  /** A step is cut short exactly as foretold. */
  lemma {:induction false} ThrowsExactly(e: Event, id: nat, x: Input)
    requires Coupled(e) && MadeFor(e, x)
    ensures Serve(e, id, x).thrown == Throws(e, x)
  {
    hide Upload, Refuses, Finishes, Breaks;
    if e.kind.RequestUpload? {
      UploadForetold(e.req, x.io);
      UploadKeepsHead(e.req, x.io);
      UploadThrowsExactly(e, Advanced(e, x), id, x);
    } else if e.kind.BufferFlush? {
      UploadForetold(e.req, x.io);
      UploadKeepsHead(e.req, x.io);
      FlushThrowsExactly(e, Advanced(e, x), id, x);
    }
  }

  lemma {:induction false} AllowedInput(s: State, id: nat, x: Input)
    requires id in s.events && Coupled(s.events[id]) && Allowed(s, id, x)
    ensures x.trash == s.trash && Serve(s.events[id], id, x).thrown != NullEvent
  {
    hide Serve;
    ThrowsExactly(s.events[id], id, x);
  }

  lemma {:induction false} UploadThrowsExactly(e: Event, u: Request, id: nat, x: Input)
    requires Coupled(e) && MadeFor(e, x) && e.kind.RequestUpload? && u.head == e.req.head
    ensures Uploading(e, u, id, x).thrown
         == if u.state.BadRequest? then
              if x.faults.error then CallFailed else if e.req.head.verb.GET? then WrongRoutine else NotThrown
            else FailsIf(u.state.UploadDone? && x.cgi && x.faults.open)
  {
  }

  /** From the flush of a body only calls that fail can throw. */
  lemma {:induction false} FlushThrowsExactly(e: Event, u: Request, id: nat, x: Input)
    requires Coupled(e) && MadeFor(e, x) && e.kind.BufferFlush? && u.head == e.req.head
    ensures Flushing(e, u, id, x).thrown
         == FailsIf(|| ((u.state.TimedOut? || u.state.ConnectionClosed?) && !x.trash)
                    || (u.state.BadRequest? && (x.faults.error || !x.trash))
                    || (u.state.UploadDone? && ((TooLarge(x) && x.faults.error) || !x.trash)))
  {
  }

  /** The throw that nothing catches: exactly for a GET whose request went to a CGI
      program, and is found malformed only then or was so before, unless making the
      error response fails first. */
  lemma {:induction false} AbortsExactly(e: Event, id: nat, x: Input)
    requires Coupled(e) && MadeFor(e, x)
    ensures Serve(e, id, x).thrown == WrongRoutine
       <==> e.kind.RequestUpload? && e.req.head.verb.GET? && Refuses(e.req) && !x.faults.error && !x.late
  {
    ThrowsExactly(e, id, x);
  }

  // ------------------------------------------------- where a step leads

  /** What becomes of an event in a step that is not cut short: it goes, or it has this
      type, this response and this source. */
  datatype Outlook = Gone | Goes(kind: EventType, resp: Option<Response>, source: string)

  /** The response that is there when the body is over. */
  function Answer(e: Event, x: Input): Outlook
    requires e.req.Valid()
  {
    if ErrorIsMade(e, x) then Goes(ResponseDownload, Some(x.error.resp), x.error.source)
    else if e.resp.Some? && e.resp.value.kind.TypeFlushErr? then Goes(ResponseDownload, e.resp, e.source)
    else Goes(ResponseWritable, e.resp, e.source)
  }

  /** Told beforehand, from the event and what the environment is to do. */
  function Foretold(e: Event, x: Input): Outlook
    requires Coupled(e)
  {
    match e.kind
    case RequestReadable =>
      if x.cgi && (e.req.head.verb.GET? || e.req.head.verb.POST? || e.req.head.verb.PUT?) then
        Goes(RequestUpload, None, e.source)
      else
        Goes(match x.reply.resp.kind
             case TypePost => RequestUpload
             case TypeGet => ResponseDownload
             case TypeDel => ResponseWritable
             case _ => BufferFlush,
             Some(x.reply.resp), x.reply.source)
    case RequestUpload =>
      if x.late || Breaks(e.req, x.io) then Gone
      else if Refuses(e.req) then Answer(e, x)
      else if !Finishes(e.req, x.io) then Goes(RequestUpload, e.resp, e.source)
      else if x.cgi then Goes(CgiReadable, e.resp, e.source)
      else Answer(e, x)
    case BufferFlush =>
      if x.late || Breaks(e.req, x.io) then Gone
      else if Refuses(e.req) || Finishes(e.req, x.io) then Answer(e, x)
      else Goes(BufferFlush, e.resp, e.source)
    case CgiReadable =>
      if x.reply.source != "" then Goes(ResponseDownload, Some(x.reply.resp.(fd := e.toRecvFd)), x.reply.source)
      else Goes(ResponseWritable, Some(x.reply.resp), "")
    case ResponseDownload => AfterRead(e, x)
    case ResponseWritable => AfterSend(e, x)
  }

  /** As many bytes as a read returns join what is to be sent; with the last of them the
      response is ready. */
  function AfterRead(e: Event, x: Input): Outlook
    requires Coupled(e) && e.kind.ResponseDownload?
  {
    var r := e.resp.value;
    if x.io.Failed? then Gone
    else
      var piece := ReadNext(e.source, x.io);
      var all := r.downloaded + |piece| == r.contentLength;
      Goes(if all then ResponseWritable else ResponseDownload,
           Some(r.(held := r.held + piece, downloaded := r.downloaded + |piece|,
                   state := if all then SendingStorage else DownloadingInit)),
           e.source[|piece|..])
  }

  /** The connection goes when nothing can be sent, or all has been and it is not to be
      kept. */
  function AfterSend(e: Event, x: Input): Outlook
    requires Coupled(e) && e.kind.ResponseWritable?
  {
    var r := e.resp.value;
    var n := Taken(r.Unread(), r.goal - r.sent, x.io);
    if x.io.Failed? then Gone
    else if r.sent + n == r.goal then
      if e.req.head.keepAlive && r.status != 400 then Goes(RequestReadable, None, "") else Gone
    else Goes(ResponseWritable, Some(r.(pos := r.pos + n, sent := r.sent + n)), e.source)
  }

  predicate Matching(eff: Effect, o: Outlook) {
    match o
    case Gone => eff.event.None?
    case Goes(kind, resp, source) =>
      eff.event.Some? && eff.event.value.kind == kind && eff.event.value.resp == resp && eff.event.value.source == source
  }

  /** A step that is not cut short leads just where it was foretold to: the event goes, or
      it has that type, that response and that source. */
  lemma {:induction false} LeadsExactly(e: Event, id: nat, x: Input)
    requires Coupled(e) && MadeFor(e, x) && Serve(e, id, x).thrown == NotThrown
    ensures Matching(Serve(e, id, x), Foretold(e, x))
  {
    hide Upload, Refuses, Finishes, Breaks;
    match e.kind {
      case RequestUpload =>
        UploadForetold(e.req, x.io);
        UploadKeepsHead(e.req, x.io);
        UploadLeads(e, Advanced(e, x), id, x);
      case BufferFlush =>
        UploadForetold(e.req, x.io);
        UploadKeepsHead(e.req, x.io);
        FlushLeads(e, Advanced(e, x), id, x);
      case RequestReadable => ReadableLeads(e, id, x);
      case CgiReadable =>
      case ResponseDownload => DownloadLeads(e, id, x);
      case ResponseWritable => WritableLeads(e, id, x);
    }
  }

  lemma {:induction false} ReadableLeads(e: Event, id: nat, x: Input)
    requires Coupled(e) && MadeFor(e, x) && e.kind.RequestReadable? && ServeReadable(e, id, x).thrown == NotThrown
    ensures Matching(ServeReadable(e, id, x), Foretold(e, x))
  {
    hide CodeFits;
  }

  lemma {:induction false} DownloadLeads(e: Event, id: nat, x: Input)
    requires Coupled(e) && e.kind.ResponseDownload?
    ensures Matching(ServeDownload(e, id, x), Foretold(e, x))
  {
  }

  lemma {:induction false} WritableLeads(e: Event, id: nat, x: Input)
    requires Coupled(e) && e.kind.ResponseWritable? && ServeWritable(e, id, x).thrown == NotThrown
    ensures Matching(ServeWritable(e, id, x), Foretold(e, x))
  {
  }

  lemma {:induction false} UploadLeads(e: Event, u: Request, id: nat, x: Input)
    requires Coupled(e) && MadeFor(e, x) && e.kind.RequestUpload? && u.head == e.req.head
    requires Uploading(e, u, id, x).thrown == NotThrown
    requires u.state.TimedOut? || u.state.ConnectionClosed? <==> x.late || Breaks(e.req, x.io)
    requires u.state.BadRequest? <==> !x.late && Refuses(e.req)
    requires u.state.UploadDone? <==> !x.late && Finishes(e.req, x.io)
    ensures Matching(Uploading(e, u, id, x), Foretold(e, x))
  {
    hide Refuses, Finishes, Breaks;
  }

  lemma {:induction false} FlushLeads(e: Event, u: Request, id: nat, x: Input)
    requires Coupled(e) && MadeFor(e, x) && e.kind.BufferFlush? && u.head == e.req.head
    requires Flushing(e, u, id, x).thrown == NotThrown
    requires u.state.TimedOut? || u.state.ConnectionClosed? <==> x.late || Breaks(e.req, x.io)
    requires u.state.BadRequest? <==> !x.late && Refuses(e.req)
    requires u.state.UploadDone? <==> !x.late && Finishes(e.req, x.io)
    ensures Matching(Flushing(e, u, id, x), Foretold(e, x))
  {
    hide Refuses, Finishes, Breaks;
  }

  /** A body that is flushed to its end is answered with 413 if the file it was flushed to
      is larger than the limit, and else as it was going to be. */
  lemma {:induction false} FlushAnswersExactly(e: Event, id: nat, x: Input)
    requires Coupled(e) && MadeFor(e, x) && e.kind.BufferFlush? && Serve(e, id, x).thrown == NotThrown
    requires Finishes(e.req, x.io) && !x.late && !Refuses(e.req) && !Breaks(e.req, x.io)
    ensures var after := Serve(e, id, x).event;
            && after.Some? && after.value.resp.Some?
            && (if x.fileSize > x.limit then
                  after.value.resp.value == x.error.resp && after.value.source == x.error.source && x.error.resp.status == 413
                else after.value.resp == e.resp && after.value.source == e.source)
  {
    hide Refuses, Finishes, Breaks, Serve;
    LeadsExactly(e, id, x);
  }

  // ------------------------------------------------- what is left open

  /** The descriptors an event had that it has no more after a step, and that nothing
      closes or puts aside. */
  function LeftOpen(e: Event, eff: Effect): set<int> {
    Fds(e) - eff.closing - (if eff.event.Some? then Fds(eff.event.value) else {e.clientFd})
  }

  function OldPage(e: Event): set<int> {
    if e.resp.Some? && e.resp.value.kind.TypeFlushErr? then {e.resp.value.fd} else {}
  }

  /** That is so exactly of the file of a body that is refused, and, where a body is
      flushed before an error page is sent, of that page when another takes its place or
      the connection breaks. */
  lemma {:induction false} LeftOpenExactly(e: Event, id: nat, x: Input)
    requires Coupled(e) && MadeFor(e, x) && Serve(e, id, x).thrown == NotThrown
    ensures LeftOpen(e, Serve(e, id, x)) ==
            if e.kind.RequestUpload? && !x.late && Refuses(e.req) then {e.toSendFd}
            else if e.kind.BufferFlush? then
              if x.late || Breaks(e.req, x.io) then OldPage(e)
              else if Refuses(e.req) then {e.toSendFd} + OldPage(e)
              else if Finishes(e.req, x.io) && TooLarge(x) then OldPage(e)
              else {}
            else {}
  {
    hide Upload, Refuses, Finishes, Breaks;
    if e.kind.RequestUpload? {
      UploadForetold(e.req, x.io);
      UploadLeavesOpen(e, Advanced(e, x), id, x);
    } else if e.kind.BufferFlush? {
      UploadForetold(e.req, x.io);
      FlushLeavesOpen(e, Advanced(e, x), id, x);
    } else if e.kind.RequestReadable? {
      ReadableLeavesNone(e, id, x);
    } else {
      OthersLeaveNone(e, id, x);
    }
  }

  lemma {:induction false} ReadableLeavesNone(e: Event, id: nat, x: Input)
    requires Coupled(e) && e.kind.RequestReadable?
    ensures LeftOpen(e, ServeReadable(e, id, x)) == {}
  {
  }

  lemma {:induction false} OthersLeaveNone(e: Event, id: nat, x: Input)
    requires Coupled(e) && (e.kind.ResponseDownload? || e.kind.ResponseWritable? || e.kind.CgiReadable?)
    ensures LeftOpen(e, Serve(e, id, x)) == {}
  {
    hide Send, Download;
  }

  lemma {:induction false} UploadLeavesOpen(e: Event, u: Request, id: nat, x: Input)
    requires Coupled(e) && MadeFor(e, x) && e.kind.RequestUpload? && Uploading(e, u, id, x).thrown == NotThrown
    ensures LeftOpen(e, Uploading(e, u, id, x)) == if u.state.BadRequest? then {e.toSendFd} else {}
  {
    hide CodeFits;
  }

  lemma {:induction false} FlushLeavesOpen(e: Event, u: Request, id: nat, x: Input)
    requires Coupled(e) && MadeFor(e, x) && e.kind.BufferFlush? && Flushing(e, u, id, x).thrown == NotThrown
    ensures LeftOpen(e, Flushing(e, u, id, x)) ==
            if u.state.BadRequest? then {e.toSendFd} + OldPage(e)
            else if u.state.TimedOut? || u.state.ConnectionClosed? || (u.state.UploadDone? && TooLarge(x)) then OldPage(e)
            else {}
  {
    hide CodeFits;
  }
}
