/** What the server is assumed to be given, it can be given: in every state that it can
    be in, some poll returns, some turn may begin, and every event can be served. */
module Environment {
  import opened Storage
  import opened RequestModel
  import opened ResponseModel
  import opened ResponseFactory
  import opened Kernel
  import opened Timeout
  import opened EventModel
  import opened EventSafety
  import opened EventRuns
  import opened Router

  function BareReply(kind: ResponseType, state: SendingState, status: int, fd: int): Reply {
    Reply(NewResponse(kind, state, "x", "", status, 0, fd), "", "")
  }

  function ErrorFor(verb: Method, status: int, fd: int): Reply {
    if verb.HEAD? then BareReply(TypeDel, SendingStorage, status, -1)
    else if verb.POST? || verb.PUT? then BareReply(TypeFlushErr, DownloadingInit, status, fd)
    else BareReply(TypeGet, DownloadingInit, status, fd)
  }

  /** Nothing fails, and time is over: two descriptors are opened, a POST is flushed, and
      any other request answered without a body. */
  ghost function PlainInput(s: State, e: Event): Input {
    var fd, verb := Above(s.open), e.req.head.verb;
    var kind := if verb.POST? then TypeFlush else TypeDel;
    Input(Moved(0), {fd, fd + 1}, {}, fd, BareReply(kind, SendingStorage, 200, -1), ErrorFor(verb, 400, fd + 1),
          0, 0, e.kind.RequestUpload? && e.resp.None?, true, e.stamp, NO_FAULTS, s.trash)
  }

  lemma {:induction false} PlainIsMade(s: State, id: nat)
    requires Inv(s) && id in s.events
    ensures Coupled(s.events[id]) && MadeFor(s.events[id], PlainInput(s, s.events[id]))
  {
    var e := s.events[id];
    assert Fds(e) <= s.open;
  }

  lemma {:induction false} PlainHolds(s: State, e: Event, id: nat)
    requires Coupled(e)
    ensures HoldsWithin(Serve(e, id, PlainInput(s, e)), e, PlainInput(s, e).acquired)
  {
    hide Uploading, Flushing, ServeReadable, ServeDownload, ServeWritable, ServeCgi, Advanced;
    var x := PlainInput(s, e);
    if e.kind.RequestReadable? {
      ReadableHolds(e, id, x, x.acquired);
    } else if e.kind.RequestUpload? {
      UploadHolds(e, Advanced(e, x), id, x, x.acquired);
    } else if e.kind.BufferFlush? {
      FlushHolds(e, Advanced(e, x), id, x, x.acquired);
    } else {
      OthersHold(e, id, x, x.acquired);
    }
  }

  /** Every event that is handed out can be served, and by a step that is not cut short,
      unless it flushes a body and the file that it flushes to is gone. */
  lemma {:induction false} EveryEventCanBeServed(s: State, id: nat)
    requires Inv(s) && Servable(s, id)
    ensures Coupled(s.events[id]) && Allowed(s, id, PlainInput(s, s.events[id]))
    ensures !s.events[id].kind.BufferFlush? || s.trash ==> CanServe(s, id, PlainInput(s, s.events[id]))
  {
    hide Serve, Inv, MadeFor;
    PlainIsMade(s, id);
    PlainHolds(s, s.events[id], id);
    ThrowsExactly(s.events[id], id, PlainInput(s, s.events[id]));
  }

  lemma {:induction false} SomeAnswerObliges() returns (answer: (State, nat) -> Input)
    ensures Obliging(answer)
  {
    hide Inv, Allowed, CanServe, Coupled, PlainInput;
    answer := (s: State, id: nat) =>
      PlainInput(s, if id in s.events then s.events[id] else NewEvent(0, Timeval(0, 0)));
    forall s: State, id: nat | Inv(s) && Servable(s, id)
      ensures id in s.events && Coupled(s.events[id]) && Allowed(s, id, answer(s, id))
    {
      EveryEventCanBeServed(s, id);
    }
  }

  /** Some poll returns: with no entry, or with one for a change that fails. */
  lemma {:induction false} SomePollReturns(s: State, now: Timeval) returns (batch: seq<Kevent>, stamps: map<nat, Timeval>)
    ensures Returns(s, batch, stamps, Micros(now))
  {
    batch, stamps := [], map[];
    if !Finds(s.queue, s.changes) {
      var i :| 0 <= i < |s.changes| && Misses(s.queue, s.changes, i);
      batch := [Kevent(s.changes[i].key, s.changes[i].owner, false)];
    } else {
      assert KeysOf(batch) == {} && OwnersIn(Pending(s), {}) == {};
    }
  }

  /** Any live connection may be the one that a poll returns. */
  lemma {:induction false} AnyMayFire(s: State, id: nat, now: Timeval) returns (batch: seq<Kevent>, stamps: map<nat, Timeval>)
    requires Inv(s) && id in s.events && Finds(s.queue, s.changes)
    ensures Returns(s, batch, stamps, Micros(now)) && |batch| == 1 && batch[0].owner == Conn(id)
  {
    hide Inv, Pending, MainKey, Finds;
    var key := MainKey(s.events[id]);
    batch, stamps := [Kevent(key, Conn(id), false)], map[id := now];
    InvGivesOneEnabled(s, id);
    assert Pending(s)[key] == Registration(true, Conn(id));
    OneKey(batch);
    OneOwner(Pending(s), key, id);
    assert stamps.Keys == {id};
  }

  lemma {:induction false} OneKey(batch: seq<Kevent>)
    requires |batch| == 1
    ensures KeysOf(batch) == {batch[0].key}
  {
    assert batch[0].key in KeysOf(batch);
  }

  lemma {:induction false} OneOwner(queue: Queue, key: Key, id: nat)
    requires key in queue && queue[key].owner == Conn(id)
    ensures OwnersIn(queue, {key}) == {id}
  {
    assert key in {key};
  }

  /** Whichever connection is to fire, if no pending change fails. */
  lemma {:induction false} ChosenReturns(s: State, id: nat, now: Timeval) returns (batch: seq<Kevent>, stamps: map<nat, Timeval>)
    requires Inv(s)
    ensures Returns(s, batch, stamps, Micros(now))
    ensures id in s.events && Finds(s.queue, s.changes) ==> |batch| == 1 && batch[0].owner == Conn(id)
  {
    hide Inv, Returns, Finds;
    if id in s.events && Finds(s.queue, s.changes) {
      batch, stamps := AnyMayFire(s, id, now);
    } else {
      batch, stamps := SomePollReturns(s, now);
    }
  }

  /** In every state of the server, whichever of its connections is to fire, there is an
      environment for a whole turn of the loop. */
  lemma {:induction false} EveryTurnCanBegin(s: State, id: nat, now: Timeval)
    returns (batch: seq<Kevent>, stamps: map<nat, Timeval>, at: nat -> Timeval, answer: (State, nat) -> Input)
    requires Inv(s)
    ensures MayTurn(s, batch, stamps, Micros(now), at, at, answer)
    ensures id in s.events && Finds(s.queue, s.changes) ==> |batch| == 1 && batch[0].owner == Conn(id)
  {
    hide Inv, Returns, Finds, Obliging;
    answer := SomeAnswerObliges();
    batch, stamps := ChosenReturns(s, id, now);
    at := _ => now;
  }
}
