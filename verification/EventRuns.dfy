/** Whole runs of the server: the actions of its main loop, and what holds after any
    sequence of them. */
module EventRuns {
  import opened Storage
  import opened RequestModel
  import opened ResponseModel
  import opened CgiResponse
  import opened Kernel
  import Config
  import opened Servers
  import opened Timeout
  import opened EventModel
  import opened EventSafety

  // --------------------------------------------- one event acts on the state

  /** Where the registrations of the others are not touched. */
  lemma {:induction false} OthersUntouched(s: State, id: nat, changes: seq<Change>, acquired: set<int>, key: Key)
    requires Inv(s) && id in s.events && acquired !! s.open
    requires forall c :: c in changes ==> c.key.fd in Fds(s.events[id]) + acquired
    requires key.fd !in Fds(s.events[id]) + acquired
    ensures key in Applied(Registered(s), changes) <==> key in Registered(s)
    ensures key in Registered(s) ==> Applied(Registered(s), changes)[key] == Registered(s)[key]
  {
    ChangesAreLocal(Registered(s), changes, key);
  }

  /** What is pending or registered is about open descriptors only. */
  lemma {:induction false} PendingIsOpen(s: State)
    requires Inv(s)
    ensures forall key :: key in Registered(s) ==> key.fd in s.open
  {
    forall key | key in Registered(s) ensures key.fd in s.open {
      if key !in s.lost && key.fd !in s.listeners {
        var id :| id in s.events && key.fd in Fds(s.events[id]);
      }
    }
  }

  lemma {:induction false} HoldsNow(s: State, id: nat, acquired: set<int>)
    requires Inv(s) && id in s.events && acquired !! s.open
    ensures Holds(Registered(s), id, s.events[id], acquired)
  {
    PendingIsOpen(s);
    forall key: Key | key.fd in Fds(s.events[id]) ensures Matches(Registered(s), key, id, s.events[id]) {
      assert Matches(Pending(s), key, id, s.events[id]) && key !in s.lost;
    }
  }

  /** The queue as it will be, after the event's changes are pending too. */
  lemma {:induction false} QueueAfter(s: State, id: nat, eff: Effect, acquired: set<int>, discarded: set<int>)
    requires Inv(s) && id in s.events && acquired !! s.open
    requires Proper(s.events[id], id, eff, acquired, discarded)
    requires eff.event.None? ==> Quiet(s, id)
    ensures var s' := Act(s, id, eff, acquired, discarded);
            Registered(s') == if eff.event.Some? then Applied(Registered(s), eff.changes)
                              else Without(Applied(Registered(s), eff.changes), {s.events[id].clientFd})
  {
    AppliedThen(s.queue, s.changes, eff.changes);
    if eff.event.None? {
      CloseCommutes(s.queue, s.changes + eff.changes, {s.events[id].clientFd});
    }
  }

  lemma {:induction false} LostIsElsewhere(s: State, id: nat, acquired: set<int>)
    requires Inv(s) && id in s.events && acquired !! s.open
    ensures forall key :: key in s.lost ==> key.fd !in Fds(s.events[id]) + acquired && key.fd in s.open
    ensures s.events[id].clientFd in Fds(s.events[id])
  {
  }

  lemma {:induction false} ApartAfter(s: State, id: nat, eff: Effect, acquired: set<int>, discarded: set<int>)
    requires Inv(s) && id in s.events && acquired !! s.open
    requires Proper(s.events[id], id, eff, acquired, discarded)
    requires eff.event.None? ==> Quiet(s, id)
    ensures Apart(Act(s, id, eff, acquired, discarded))
  {
    var s' := Act(s, id, eff, acquired, discarded);
    QueueAfter(s, id, eff, acquired, discarded);
    LostIsElsewhere(s, id, acquired);
    forall key | key in s.lost
      ensures key in Registered(s') && Registered(s')[key] == Registered(s)[key]
    {
      OthersUntouched(s, id, eff.changes, acquired, key);
    }
  }

  lemma {:induction false} EventsAfter(s: State, id: nat, eff: Effect, acquired: set<int>, discarded: set<int>)
    requires Inv(s) && id in s.events && acquired !! s.open
    requires Proper(s.events[id], id, eff, acquired, discarded)
    requires eff.event.None? ==> Quiet(s, id)
    ensures var s' := Act(s, id, eff, acquired, discarded); EventsRegistered(Pending(s'), s'.events)
  {
    hide Coupled, Applied, OnlyNobodys;
    var e, s' := s.events[id], Act(s, id, eff, acquired, discarded);
    QueueAfter(s, id, eff, acquired, discarded);
    HoldsNow(s, id, acquired);
    LostIsElsewhere(s, id, acquired);
    assert Becomes(Applied(Registered(s), eff.changes), id, e, eff, acquired);
    forall i, key: Key | i in s'.events && key.fd in Fds(s'.events[i])
      ensures Matches(Pending(s'), key, i, s'.events[i])
    {
      if i != id {
        assert key.fd !in Fds(e) && key.fd in s.open;
        OthersUntouched(s, id, eff.changes, acquired, key);
        assert Matches(Pending(s), key, i, s.events[i]);
      }
    }
  }

  lemma {:induction false} RegisteredAfter(s: State, id: nat, eff: Effect, acquired: set<int>, discarded: set<int>)
    requires Inv(s) && id in s.events && acquired !! s.open
    requires Proper(s.events[id], id, eff, acquired, discarded)
    requires eff.event.None? ==> Quiet(s, id)
    ensures var s' := Act(s, id, eff, acquired, discarded);
            && EventsRegistered(Pending(s'), s'.events)
            && ListenersRegistered(Pending(s'), s'.listeners)
            && OnlyThese(Pending(s'), s'.events, s'.listeners)
  {
    hide Coupled, Applied, OnlyNobodys, EventsRegistered;
    var e, s' := s.events[id], Act(s, id, eff, acquired, discarded);
    var q := Pending(s');
    EventsAfter(s, id, eff, acquired, discarded);
    QueueAfter(s, id, eff, acquired, discarded);
    HoldsNow(s, id, acquired);
    LostIsElsewhere(s, id, acquired);
    assert Becomes(Applied(Registered(s), eff.changes), id, e, eff, acquired);
    forall key: Key | key.fd in s'.listeners
      ensures if key.filter == Reading then key in q && q[key] == Registration(true, Listener(key.fd)) else key !in q
    {
      assert key.fd !in Fds(e);
      OthersUntouched(s, id, eff.changes, acquired, key);
    }
    forall key | key in q
      ensures key.fd in s'.listeners || exists i :: i in s'.events && key.fd in Fds(s'.events[i])
    {
      if key.fd in Fds(e) + acquired {
        assert eff.event.Some? && key.fd in Fds(eff.event.value);
        assert id in s'.events && key.fd in Fds(s'.events[id]);
      } else {
        OthersUntouched(s, id, eff.changes, acquired, key);
        if key.fd !in s.listeners {
          var i :| i in s.events && key.fd in Fds(s.events[i]);
          assert i in s'.events && key.fd in Fds(s'.events[i]);
        }
      }
    }
  }

  lemma {:induction false} SeparateAfter(s: State, id: nat, eff: Effect, acquired: set<int>, discarded: set<int>)
    requires Inv(s) && id in s.events && acquired !! s.open
    requires Proper(s.events[id], id, eff, acquired, discarded)
    ensures Separate(Act(s, id, eff, acquired, discarded))
  {
    var e, s' := s.events[id], Act(s, id, eff, acquired, discarded);
    forall i | i in s'.events
      ensures Coupled(s'.events[i]) && s'.events[i].clientFd >= 0
      ensures Fds(s'.events[i]) <= s'.open - s'.closing - s'.listeners
    {
      if i != id {
        assert Fds(s.events[i]) !! Fds(e);
      }
    }
    forall i, j | i in s'.events && j in s'.events && i != j
      ensures Fds(s'.events[i]) !! Fds(s'.events[j])
    {
      assert i != id ==> Fds(s.events[i]) !! Fds(e) + acquired;
      assert j != id ==> Fds(s.events[j]) !! Fds(e) + acquired;
    }
    assert s.listeners !! Fds(e) + acquired;
  }

  lemma {:induction false} TidyAfter(s: State, id: nat, eff: Effect, acquired: set<int>, discarded: set<int>)
    requires Inv(s) && id in s.events && acquired !! s.open
    requires Proper(s.events[id], id, eff, acquired, discarded)
    requires if eff.event.None? then Quiet(s, id) else id in s.todo
    ensures Tidy(Act(s, id, eff, acquired, discarded))
  {
    var e, s' := s.events[id], Act(s, id, eff, acquired, discarded);
    forall i | i in s'.events && i != id
      ensures Quiet(s', i) <==> Quiet(s, i)
    {
      assert s.events[i].clientFd in Fds(s.events[i]) && Fds(s.events[i]) !! Fds(e) && s.events[i].clientFd in s.open;
    }
  }

  /** What is pending fails after the event's changes if it did before, or one of them
      does; closing the client's descriptor makes none fail. */
  lemma {:induction false} FindsAfter(s: State, id: nat, eff: Effect, acquired: set<int>, discarded: set<int>)
    requires id in s.events && Proper(s.events[id], id, eff, acquired, discarded)
    requires eff.event.None? ==> Quiet(s, id)
    ensures var s' := Act(s, id, eff, acquired, discarded);
            && (Finds(s'.queue, s'.changes) <==> Finds(s.queue, s.changes) && Finds(Registered(s), eff.changes))
            && (OnlyNobodys(s'.queue, s'.changes) <==>
                  OnlyNobodys(s.queue, s.changes) && OnlyNobodys(Registered(s), eff.changes))
  {
    hide Finds, OnlyNobodys;
    FindsMore(s.queue, s.changes, eff.changes);
    if eff.event.None? {
      FindsAfterClose(s.queue, s.changes + eff.changes, {s.events[id].clientFd});
    }
  }

  lemma {:induction false} ActKeepsInv(s: State, id: nat, eff: Effect, acquired: set<int>, discarded: set<int>)
    requires Inv(s) && id in s.events && acquired !! s.open
    requires Proper(s.events[id], id, eff, acquired, discarded) && OnlyNobodys(Registered(s), eff.changes)
    requires if eff.event.None? then Quiet(s, id) else id in s.todo
    ensures Inv(Act(s, id, eff, acquired, discarded))
  {
    hide OnlyNobodys;
    FindsAfter(s, id, eff, acquired, discarded);
    RegisteredAfter(s, id, eff, acquired, discarded);
    SeparateAfter(s, id, eff, acquired, discarded);
    TidyAfter(s, id, eff, acquired, discarded);
    ApartAfter(s, id, eff, acquired, discarded);
  }

  // ------------------------------------------------- the server's own actions

  /** `kevent` applies the pending changes; the last batch is over. */
  function Flushed(s: State): State {
    s.(queue := Registered(s), changes := [], todo := {})
  }

  /** `clearFileFds` closes the descriptors put aside. */
  function FdsClosed(s: State): State {
    s.(queue := Without(s.queue, s.closing), open := s.open - s.closing, closing := {})
  }

  function Stamped(events: map<nat, Event>, stamps: map<nat, Timeval>): map<nat, Event> {
    map id | id in events :: if id in stamps then events[id].(stamp := stamps[id]) else events[id]
  }

  /** `_updateEventsTimestamp` stamps the events of a batch, from `since` on. */
  function Batched(s: State, batch: set<Key>, stamps: map<nat, Timeval>, since: int): State {
    s.(events := Stamped(s.events, stamps), todo := OwnersIn(s.queue, batch), since := since)
  }

  /** A poll that came back with a batch. */
  function Polled(s: State, batch: set<Key>, stamps: map<nat, Timeval>, since: int): State {
    Batched(FdsClosed(Flushed(s)), batch, stamps, since)
  }

  function OwnersIn(queue: Queue, batch: set<Key>): set<nat> {
    set key | key in batch && key in queue && queue[key].owner.Conn? :: queue[key].owner.id
  }

  /** A batch of enabled registrations, which comes if no pending change fails; what has
      been left behind is taken not to fire. */
  ghost predicate CanPoll(s: State, batch: set<Key>, stamps: map<nat, Timeval>, since: int) {
    && Finds(s.queue, s.changes)
    && (forall key :: key in batch ==> key in Pending(s) && Pending(s)[key].enabled)
    && stamps.Keys == OwnersIn(Pending(s), batch)
    && (forall id :: id in stamps ==> Micros(stamps[id]) >= since)
  }

  /** `_addConnection` of a client whose descriptor `accept` has handed out. */
  function Accepted(s: State, id: nat, fd: int, now: Timeval): State {
    s.(events := s.events[id := NewEvent(fd, now)], open := s.open + {fd},
       changes := s.changes + [Ch(fd, Reading, Add, Conn(id)), Ch(fd, Writing, Add, Conn(id)),
                               Ch(fd, Writing, Disable, Conn(id))])
  }

  ghost predicate CanAccept(s: State, id: nat, fd: int, now: Timeval) {
    id !in s.events && fd >= 0 && fd !in s.open && Micros(now) >= s.since
  }

  /** `_checkConnectionTimeout`, for one of the connections it finds idle. */
  ghost predicate CanSweep(s: State, id: nat, base: Timeval) {
    && id in s.events && s.events[id].kind.RequestReadable? && Stale(base, s.events[id].stamp)
    // Either no batch came, or one that was stamped in time.
    && ((s.todo == {} && s.changes == []) || Micros(base) - s.since <= (CONNECTION_TIMEOUT_MILISEC - 1) * 1000)
  }

  /** What routing an event of the batch takes from outside: whether its socket was
      shut, the piece received for a request, what the look at the answer of a CGI
      program came to, and whether time is over. */
  datatype Routing = Routing(eof: bool, piece: Recv, verdict: Verdict, late: bool)

  predicate IsRecvError(r: Request) {
    r.conn == Closed || r.state == ConnectionClosed || r.state == TimedOut
  }

  /** A request is given to a server when it is complete, and stays with it. */
  function ServerOf(hosts: seq<Config.Server>, e: Event, req: Request): int {
    if IsParsingEnd(req.state) && e.serverId == -1 then ServerFor(hosts, req.head.hostPort, req.head.hostName)
    else e.serverId
  }

  /** The removal of an event that waits for a CGI answer, which leaves the registration
      of the answer behind. */
  function GivenUp(s: State, id: nat): State
    requires id in s.events
  {
    var e := s.events[id];
    Act(s, id, Removal(e), {}, {}).(lost := s.lost + {Key(e.toRecvFd, Reading)})
  }

  /** `_routeEvent`. The event stays in `todo` when it is handed to its server. */
  function Routed(s: State, id: nat, x: Routing): State
    requires id in s.events && s.events[id].req.Valid()
  {
    var e := s.events[id];
    if x.eof then Act(s, id, Removal(e), {}, {})
    else if e.kind.RequestReadable? then
      var req := ReceiveTimed(e.req, x.piece, x.late);
      if IsRecvError(req) then Act(s, id, Removal(e), {}, {})
      else
        var e' := e.(req := req, serverId := ServerOf(s.hosts, e, req));
        s.(events := s.events[id := e'], todo := if IsParsingEnd(req.state) then s.todo else s.todo - {id})
    else if e.kind.CgiReadable? && x.verdict.Lacking? then GivenUp(s, id)
    else if e.kind.CgiReadable? && x.verdict.Early? then s.(todo := s.todo - {id})
    else s
  }

  ghost predicate CanRoute(s: State, id: nat, x: Routing) {
    && id in s.todo && id in s.events && s.events[id].req.Valid()
    && (x.eof ==> s.events[id].kind.RequestReadable? || s.events[id].kind.ResponseWritable?)
  }

  /** A line ends the header of the CGI answer that is looked at, if one is. */
  predicate Whole(e: Event, x: Routing) {
    e.kind.CgiReadable? ==> !x.verdict.Lacking?
  }

  ghost predicate CanServe(s: State, id: nat, x: Input) {
    && id in s.todo && id in s.events && Coupled(s.events[id])
    && (s.events[id].kind.RequestReadable? ==> IsParsingEnd(s.events[id].req.state))
    && Allowed(s, id, x) && Serve(s.events[id], id, x).thrown == NotThrown
  }

  datatype Action =
    | Poll(batch: set<Key>, stamps: map<nat, Timeval>, since: int)
    | Sweep(id: nat, base: Timeval)
    | Accept(id: nat, fd: int, now: Timeval)
    | Route(id: nat, routing: Routing)
    | ServeOne(id: nat, input: Input)

  ghost predicate Can(s: State, a: Action) {
    match a
    case Poll(batch, stamps, since) => CanPoll(s, batch, stamps, since)
    case Sweep(id, base) => CanSweep(s, id, base)
    case Accept(id, fd, now) => CanAccept(s, id, fd, now)
    case Route(id, x) => CanRoute(s, id, x)
    case ServeOne(id, x) => CanServe(s, id, x)
  }

  function Done(s: State, a: Action): State {
    match a
    case Poll(batch, stamps, since) => Polled(s, batch, stamps, since)
    case Sweep(id, base) => if id in s.events then Act(s, id, Removal(s.events[id]), {}, {}) else s
    case Accept(id, fd, now) => Accepted(s, id, fd, now)
    case Route(id, x) => if id in s.events && s.events[id].req.Valid() then Routed(s, id, x) else s
    case ServeOne(id, x) =>
      if id in s.events && Coupled(s.events[id]) then Act(s, id, Serve(s.events[id], id, x), x.acquired, x.discarded) else s
  }

  /** Types and descriptors are as they were. */
  predicate SameShape(e: Event, e': Event) {
    && e'.kind == e.kind && e'.clientFd == e.clientFd && e'.toSendFd == e.toSendFd && e'.toRecvFd == e.toRecvFd
    && FileFds(e') == FileFds(e)
  }

  ghost predicate SameShapes(events: map<nat, Event>, events': map<nat, Event>) {
    events'.Keys == events.Keys && forall id :: id in events ==> SameShape(events[id], events'[id])
  }

  lemma {:induction false} ShapesKeepRegistered(queue: Queue, events: map<nat, Event>, events': map<nat, Event>, listeners: set<int>)
    requires SameShapes(events, events')
    requires EventsRegistered(queue, events) && OnlyThese(queue, events, listeners)
    ensures EventsRegistered(queue, events') && OnlyThese(queue, events', listeners)
  {
    forall id, key: Key | id in events' && key.fd in Fds(events'[id])
      ensures Matches(queue, key, id, events'[id])
    {
      assert SameShape(events[id], events'[id]);
      assert Matches(queue, key, id, events[id]) && Wanted(events'[id], key) == Wanted(events[id], key);
    }
    forall key | key in queue && key.fd !in listeners
      ensures exists id :: id in events' && key.fd in Fds(events'[id])
    {
      var id :| id in events && key.fd in Fds(events[id]);
      assert SameShape(events[id], events'[id]);
      assert id in events' && key.fd in Fds(events'[id]);
    }
  }

  lemma {:induction false} ShapesKeepSeparate(s: State, s': State)
    requires Separate(s) && SameShapes(s.events, s'.events)
    requires forall id :: id in s'.events ==> Coupled(s'.events[id])
    requires s'.listeners == s.listeners
    requires s'.open - s'.closing == s.open - s.closing && s'.closing <= s'.open
    ensures Separate(s')
  {
    forall id | id in s'.events ensures Fds(s'.events[id]) == Fds(s.events[id]) {
      assert SameShape(s.events[id], s'.events[id]);
    }
  }

  lemma {:induction false} ClosingIsNotRegistered(s: State)
    requires Inv(s)
    ensures Without(Registered(s), s.closing) == Registered(s)
  {
    forall key | key in Registered(s) ensures key.fd !in s.closing {
      if key !in s.lost && key.fd !in s.listeners {
        var id :| id in s.events && key.fd in Fds(s.events[id]);
      }
    }
  }

  lemma {:induction false} StampingKeepsShapes(events: map<nat, Event>, stamps: map<nat, Timeval>)
    requires forall id :: id in events ==> Coupled(events[id])
    ensures SameShapes(events, Stamped(events, stamps))
    ensures forall id :: id in events ==> Coupled(Stamped(events, stamps)[id])
  {
    forall id | id in events ensures Coupled(Stamped(events, stamps)[id]) {
      RestampedIsCoupled(events[id], if id in stamps then stamps[id] else events[id].stamp);
    }
  }

  lemma {:induction false} RestampedIsCoupled(e: Event, stamp: Timeval)
    requires Coupled(e)
    ensures Coupled(e.(stamp := stamp))
  {
  }

  /** With nothing pending, tidiness is about the queue and the batch alone. */
  lemma {:induction false} NothingPendingIsTidy(s: State)
    requires s.changes == [] && (forall key :: key in s.queue ==> key.fd in s.open)
    requires forall id :: id in s.todo ==> id in s.events && Micros(s.events[id].stamp) >= s.since
    ensures Tidy(s)
  {
  }

  lemma {:induction false} FlushKeepsInv(s: State)
    requires Inv(s)
    ensures Inv(Flushed(s)) && Pending(Flushed(s)) == Pending(s)
  {
    hide Coupled, Fds, Wanted, Applied, OnlyNobodys, Finds;
    NothingToApply(Registered(s));
    assert Registered(Flushed(s)) == Registered(s);
    PendingIsOpen(s);
    NothingPendingIsTidy(Flushed(s));
    NoChangeFinds(Registered(s));
    FindingIsEnough(Registered(s), []);
  }

  lemma {:induction false} NothingToApply(queue: Queue)
    ensures Applied(queue, []) == queue
  {
  }

  lemma {:induction false} ClearKeepsInv(s: State)
    requires Inv(s) && s.changes == [] && s.todo == {}
    ensures Inv(FdsClosed(s)) && Pending(FdsClosed(s)) == Pending(s)
  {
    var s' := FdsClosed(s);
    ClosingIsNotRegistered(s);
    assert SameShapes(s.events, s'.events);
    ShapesKeepSeparate(s, s');
    PendingIsOpen(s);
    NothingPendingIsTidy(s');
  }

  lemma {:induction false} BatchKeepsInv(s: State, batch: set<Key>, stamps: map<nat, Timeval>, since: int)
    requires Inv(s) && s.changes == [] && s.todo == {} && CanPoll(s, batch, stamps, since)
    ensures Inv(Batched(s, batch, stamps, since))
  {
    var s' := Batched(s, batch, stamps, since);
    StampingKeepsShapes(s.events, stamps);
    ShapesKeepRegistered(Pending(s), s.events, s'.events, s.listeners);
    ShapesKeepSeparate(s, s');
    forall id | id in s'.todo ensures id in s'.events && Micros(s'.events[id].stamp) >= s'.since {
      OwnerIsLive(s, batch, id);
    }
    NothingPendingIsTidy(s');
  }

  lemma {:induction false} PollKeepsInv(s: State, batch: set<Key>, stamps: map<nat, Timeval>, since: int)
    requires Inv(s) && CanPoll(s, batch, stamps, since)
    ensures Inv(Polled(s, batch, stamps, since))
  {
    FlushKeepsInv(s);
    ClearKeepsInv(Flushed(s));
    BatchKeepsInv(FdsClosed(Flushed(s)), batch, stamps, since);
  }

  lemma {:induction false} OwnerIsLive(s: State, batch: set<Key>, id: nat)
    requires Inv(s) && id in OwnersIn(Pending(s), batch)
    ensures id in s.events
  {
    var key :| key in batch && key in Pending(s) && Pending(s)[key].owner == Conn(id);
    if key.fd !in s.listeners {
      var i :| i in s.events && key.fd in Fds(s.events[i]);
      assert Matches(Pending(s), key, i, s.events[i]);
    }
  }

  /** The new connection's registrations are in, and the others are as they were. */
  lemma {:induction false} QueueAfterAccept(s: State, id: nat, fd: int, now: Timeval)
    requires Inv(s) && CanAccept(s, id, fd, now)
    ensures var q := Pending(Accepted(s, id, fd, now));
            && (forall key: Key :: key.fd == fd ==> Matches(q, key, id, NewEvent(fd, now)))
            && (forall key: Key :: key.fd != fd ==>
                  (key in q <==> key in Pending(s)) && (key in q ==> q[key] == Pending(s)[key]))
    ensures Apart(Accepted(s, id, fd, now))
  {
    var a, b, c := Ch(fd, Reading, Add, Conn(id)), Ch(fd, Writing, Add, Conn(id)), Ch(fd, Writing, Disable, Conn(id));
    AppliedThen(s.queue, s.changes, [a, b, c]);
    AppliedTwo(Registered(s), a, b);
    AppliedMore(Registered(s), [a, b], c);
    assert [a, b] + [c] == [a, b, c];
  }

  lemma {:induction false} AcceptKeepsInv(s: State, id: nat, fd: int, now: Timeval)
    requires Inv(s) && CanAccept(s, id, fd, now)
    ensures Inv(Accepted(s, id, fd, now))
  {
    var s' := Accepted(s, id, fd, now);
    QueueAfterAccept(s, id, fd, now);
    AcceptRegistered(s, s', id, fd, now);
    AcceptIsSeparate(s, id, fd, now);
    AcceptIsTidy(s, id, fd, now);
    AcceptFinds(s, id, fd, now);
  }

  /** The changes of a new connection do not fail. */
  lemma {:induction false} AcceptFinds(s: State, id: nat, fd: int, now: Timeval)
    ensures var s' := Accepted(s, id, fd, now);
            && (Finds(s'.queue, s'.changes) <==> Finds(s.queue, s.changes))
            && (OnlyNobodys(s'.queue, s'.changes) <==> OnlyNobodys(s.queue, s.changes))
  {
    var a, b, c := Ch(fd, Reading, Add, Conn(id)), Ch(fd, Writing, Add, Conn(id)), Ch(fd, Writing, Disable, Conn(id));
    var was := Registered(s);
    AppliedOne(was, a);
    OneFinds(was, a);
    TwoFind(Changed(was, a), b, c);
    FindsMore(was, [a], [b, c]);
    assert [a] + [b, c] == [a, b, c];
    FindsMore(s.queue, s.changes, [a, b, c]);
    FindingIsEnough(was, [a, b, c]);
  }

  lemma {:induction false} AcceptIsSeparate(s: State, id: nat, fd: int, now: Timeval)
    requires Inv(s) && CanAccept(s, id, fd, now)
    ensures Separate(Accepted(s, id, fd, now))
  {
  }

  lemma {:induction false} AcceptIsTidy(s: State, id: nat, fd: int, now: Timeval)
    requires Inv(s) && CanAccept(s, id, fd, now)
    ensures Tidy(Accepted(s, id, fd, now))
  {
    var s' := Accepted(s, id, fd, now);
    forall i | i in s.events ensures Quiet(s', i) <==> Quiet(s, i) {
      assert s.events[i].clientFd in Fds(s.events[i]);
    }
  }

  lemma {:induction false} AcceptRegistered(s: State, s': State, id: nat, fd: int, now: Timeval)
    requires Inv(s) && CanAccept(s, id, fd, now)
    requires s'.events == s.events[id := NewEvent(fd, now)] && s'.listeners == s.listeners
    requires forall key: Key :: key.fd == fd ==> Matches(Pending(s'), key, id, NewEvent(fd, now))
    requires forall key: Key :: key.fd != fd ==>
               (key in Pending(s') <==> key in Pending(s)) && (key in Pending(s') ==> Pending(s')[key] == Pending(s)[key])
    ensures EventsRegistered(Pending(s'), s'.events)
    ensures ListenersRegistered(Pending(s'), s'.listeners)
    ensures OnlyThese(Pending(s'), s'.events, s'.listeners)
  {
    var q := Pending(s');
    forall i, key: Key | i in s'.events && key.fd in Fds(s'.events[i])
      ensures Matches(q, key, i, s'.events[i])
    {
      if i != id {
        assert Matches(Pending(s), key, i, s.events[i]);
      }
    }
    forall key | key in q && key.fd !in s'.listeners
      ensures exists i :: i in s'.events && key.fd in Fds(s'.events[i])
    {
      if key.fd == fd {
        assert id in s'.events && key.fd in Fds(s'.events[id]);
      } else {
        var i :| i in s.events && key.fd in Fds(s.events[i]);
        assert i in s'.events && key.fd in Fds(s'.events[i]);
      }
    }
  }

  /** Closing the socket of a connection that has no file open. */
  lemma {:induction false} SocketRemovalIsProper(e: Event, id: nat)
    requires Coupled(e) && (e.kind.RequestReadable? || e.kind.ResponseWritable?)
    ensures Proper(e, id, Removal(e), {}, {})
  {
    RemovingIsProper(e, id, [], {}, {});
  }

  /** Batch safety: a sweep never takes a connection of the current batch, nor one
      that changes are still pending for. */
  lemma {:induction false} SweepSparesBatch(s: State, id: nat, base: Timeval)
    requires Inv(s) && CanSweep(s, id, base)
    ensures id !in s.todo && Quiet(s, id)
  {
    if !(s.todo == {} && s.changes == []) && (id in s.todo || !Quiet(s, id)) {
      RecentIsNotStale(base, s.events[id].stamp, s.since);
    }
  }

  lemma {:induction false} SweepKeepsInv(s: State, id: nat, base: Timeval)
    requires Inv(s) && CanSweep(s, id, base)
    ensures Inv(Act(s, id, Removal(s.events[id]), {}, {}))
    ensures var s' := Act(s, id, Removal(s.events[id]), {}, {});
            s'.events == s.events - {id} && s'.todo == s.todo && s'.changes == s.changes && s'.since == s.since
  {
    assert s.changes + [] == s.changes;
    SweepSparesBatch(s, id, base);
    SocketRemovalIsProper(s.events[id], id);
    NoChangeFinds(Registered(s));
    ActKeepsInv(s, id, Removal(s.events[id]), {}, {});
  }

  /** An event whose type and descriptors stay as they are. */
  lemma {:induction false} UpdateKeepsInv(s: State, id: nat, e': Event, todo: set<nat>)
    requires Inv(s) && id in s.todo && todo <= s.todo
    requires Coupled(e') && SameFds(s.events[id], e')
    ensures Inv(s.(events := s.events[id := e'], todo := todo))
  {
    var s' := s.(events := s.events[id := e'], todo := todo);
    assert SameShapes(s.events, s'.events);
    assert Pending(s') == Pending(s);
    ShapesKeepRegistered(Pending(s), s.events, s'.events, s.listeners);
    ShapesKeepSeparate(s, s');
    forall i | i in s.events ensures Quiet(s', i) <==> Quiet(s, i) {
    }
    assert Tidy(s');
  }

  lemma {:induction false} ReceiveKeepsCoding(r: Request, piece: Recv, late: bool)
    requires r.Valid() && CodingFits(r)
    ensures CodingFits(ReceiveTimed(r, piece, late))
  {
    hide Scan;
    var bytes := if piece.Piece? then piece.bytes else "";
    var next := Holding(r, bytes).(conn := RecvState(piece));
    if RecvState(piece) == ReceiveDone && StillParsing(next.state) {
      ScanCoding(next.state, next.head, next.Unread(), next.chunkSize);
    }
  }

  lemma {:induction false} ScanCoding(state: ParsingState, h: Head, u: string, chunkSize: int)
    requires chunkSize >= -1 && StillParsing(state)
    ensures var o := Scan(state, h, u, chunkSize);
            !o.state.UploadReadLine? && (o.state.UploadChunkInit? ==> o.head.chunked)
  {
    hide Fields, Walk, WellFormedStart, StartLine;
  }

  /** What is left behind is all that is amiss. */
  lemma {:induction false} GivenUpKeepsInv(s: State, id: nat)
    requires Inv(s) && id in s.todo && id in s.events && s.events[id].kind.CgiReadable?
    ensures Inv(GivenUp(s, id))
  {
    var e, s' := s.events[id], GivenUp(s, id);
    var key := Key(e.toRecvFd, Reading);
    assert s.changes + [] == s.changes;
    assert Fds(e) == {e.clientFd, e.toRecvFd};
    QueueGivenUp(s, id);
    ShapesWithout(s, s', id);
    FindsAfterClose(s.queue, s.changes, {e.clientFd});
    GivenUpIsApart(s, id);
    GivenUpIsTidy(s, id);
  }

  lemma {:induction false} QuietNow(s: State, id: nat)
    requires Inv(s) && id in s.todo
    ensures id in s.events && Quiet(s, id)
  {
  }

  lemma {:induction false} QueueGivenUp(s: State, id: nat)
    requires Inv(s) && id in s.todo && id in s.events && s.events[id].kind.CgiReadable?
    ensures var s' := GivenUp(s, id);
            && Registered(s') == Without(Registered(s), {s.events[id].clientFd})
            && Pending(s') == Without(Pending(s), Fds(s.events[id]))
  {
    hide Inv, Applied, OnlyNobodys;
    var e := s.events[id];
    assert s.changes + [] == s.changes;
    QuietNow(s, id);
    CloseCommutes(s.queue, s.changes, {e.clientFd});
    OneKeyAtFile(s, id);
    var all, key := Registered(s), Key(e.toRecvFd, Reading);
    assert Fds(e) == {e.clientFd, e.toRecvFd};
    assert Without(all, {e.clientFd}) - (s.lost + {key}) == Without(all - s.lost, {e.clientFd, e.toRecvFd});
  }

  /** The file of a CGI answer is registered for reading only. */
  lemma {:induction false} OneKeyAtFile(s: State, id: nat)
    requires Inv(s) && id in s.events && s.events[id].kind.CgiReadable?
    ensures forall key :: key in Registered(s) - s.lost && key.fd == s.events[id].toRecvFd ==> key.filter == Reading
  {
    var e := s.events[id];
    forall key | key in Pending(s) && key.fd == e.toRecvFd ensures key.filter == Reading {
      assert Matches(Pending(s), key, id, e);
    }
  }

  /** The others are as they were when all of one event is gone. */
  lemma {:induction false} ShapesWithout(s: State, s': State, id: nat)
    requires Inv(s) && id in s.events && s'.events == s.events - {id} && s'.listeners == s.listeners
    requires Pending(s') == Without(Pending(s), Fds(s.events[id]))
    requires s'.open == s.open - {s.events[id].clientFd} && s'.closing == s.closing
    ensures EventsRegistered(Pending(s'), s'.events)
    ensures ListenersRegistered(Pending(s'), s'.listeners)
    ensures OnlyThese(Pending(s'), s'.events, s'.listeners)
    ensures Separate(s')
  {
    hide Coupled, Pending;
    var q := Pending(s');
    forall i, key: Key | i in s'.events && key.fd in Fds(s'.events[i])
      ensures Matches(q, key, i, s'.events[i])
    {
      assert Matches(Pending(s), key, i, s.events[i]);
    }
    forall key | key in q && key.fd !in s'.listeners
      ensures exists i :: i in s'.events && key.fd in Fds(s'.events[i])
    {
      var i :| i in s.events && key.fd in Fds(s.events[i]);
      assert i in s'.events;
    }
    assert s.events[id].clientFd in Fds(s.events[id]);
  }

  /** The file of a CGI answer is registered, and the event's alone. */
  lemma {:induction false} AnswerIsRegistered(s: State, id: nat)
    requires Inv(s) && id in s.events && s.events[id].kind.CgiReadable?
    ensures var e := s.events[id]; var key := Key(e.toRecvFd, Reading);
            && key in Registered(s) && Registered(s)[key] == Registration(true, Conn(id))
            && key.fd != e.clientFd && key.fd in s.open - s.closing - s.listeners
            && forall i :: i in s.events && i != id ==> key.fd !in Fds(s.events[i])
  {
    hide Applied, OnlyNobodys;
    var e := s.events[id];
    var key := Key(e.toRecvFd, Reading);
    assert key.fd in Fds(e) && Matches(Pending(s), key, id, e);
  }

  lemma {:induction false} GivenUpIsApart(s: State, id: nat)
    requires Inv(s) && id in s.todo && id in s.events && s.events[id].kind.CgiReadable?
    ensures Apart(GivenUp(s, id))
  {
    QueueGivenUp(s, id);
    LostIsElsewhere(s, id, {});
    AnswerIsRegistered(s, id);
    StillApart(s, id);
  }

  lemma {:induction false} StillApart(s: State, id: nat)
    requires Apart(s) && id in s.events && s.events[id].kind.CgiReadable?
    requires Registered(GivenUp(s, id)) == Without(Registered(s), {s.events[id].clientFd})
    requires forall key :: key in s.lost ==> key.fd !in Fds(s.events[id]) && s.events[id].clientFd in Fds(s.events[id])
    requires var e := s.events[id]; var key := Key(e.toRecvFd, Reading);
             && key in Registered(s) && Registered(s)[key] == Registration(true, Conn(id))
             && key.fd != e.clientFd && key.fd in s.open - s.closing - s.listeners
             && forall i :: i in s.events && i != id ==> key.fd !in Fds(s.events[i])
    ensures Apart(GivenUp(s, id))
  {
    hide Registered, Fds;
  }

  lemma {:induction false} GivenUpIsTidy(s: State, id: nat)
    requires Inv(s) && id in s.todo && id in s.events && s.events[id].kind.CgiReadable?
    ensures Tidy(GivenUp(s, id))
  {
    var s' := GivenUp(s, id);
    assert s.changes + [] == s.changes;
    assert forall i :: i in s'.events ==> (Quiet(s', i) <==> Quiet(s, i));
  }

  lemma {:induction false} RouteKeepsInv(s: State, id: nat, x: Routing)
    requires Inv(s) && CanRoute(s, id, x)
    ensures Inv(Routed(s, id, x))
  {
    hide ReceiveTimed;
    var e := s.events[id];
    ReceiveKeepsCoding(e.req, x.piece, x.late);
    var req := if e.kind.RequestReadable? && !x.eof then ReceiveTimed(e.req, x.piece, x.late) else e.req;
    if x.eof || (e.kind.RequestReadable? && IsRecvError(req)) {
      SocketRemovalIsProper(e, id);
      NoChangeFinds(Registered(s));
      ActKeepsInv(s, id, Removal(e), {}, {});
    } else if e.kind.RequestReadable? {
      var e' := e.(req := req, serverId := ServerOf(s.hosts, e, req));
      UpdateKeepsInv(s, id, e', if IsParsingEnd(req.state) then s.todo else s.todo - {id});
    } else if !Whole(e, x) {
      GivenUpKeepsInv(s, id);
    } else {
      assert s.events[id := e] == s.events;
      UpdateKeepsInv(s, id, e, if e.kind.CgiReadable? && x.verdict.Early? then s.todo - {id} else s.todo);
    }
  }

  lemma {:induction false} ServeKeepsInv(s: State, id: nat, x: Input)
    requires Inv(s) && CanServe(s, id, x)
    ensures Inv(Act(s, id, Serve(s.events[id], id, x), x.acquired, x.discarded))
  {
    hide OnlyNobodys;
    ServeIsProper(s, id, x);
    HoldsNow(s, id, {});
    ServeFindsExactly(Registered(s), id, s.events[id], x);
    ActKeepsInv(s, id, Serve(s.events[id], id, x), x.acquired, x.discarded);
  }

  /** Every action of the server keeps the invariant. */
  lemma {:induction false} EveryActionKeepsInv(s: State, a: Action)
    requires Inv(s) && Can(s, a)
    ensures Inv(Done(s, a))
  {
    match a {
      case Poll(batch, stamps, since) => PollKeepsInv(s, batch, stamps, since);
      case Sweep(id, base) => SweepKeepsInv(s, id, base);
      case Accept(id, fd, now) => AcceptKeepsInv(s, id, fd, now);
      case Route(id, x) => RouteKeepsInv(s, id, x);
      case ServeOne(id, x) => ServeKeepsInv(s, id, x);
    }
  }

  // -------------------------------------------------------------- whole runs

  /** Listening sockets, each with its registration pending. */
  predicate Starting(s: State) {
    && s.lost == {} && s.events == map[] && s.queue == map[] && s.closing == {} && s.todo == {}
    && s.listeners <= s.open
    && Pending(s) == (map fd | fd in s.listeners :: Key(fd, Reading) := Registration(true, Listener(fd)))
    && (forall c :: c in s.changes ==> c.flag.Add? && c.key.fd in s.listeners)
  }

  /** A run that the environment, too, could take part in. */
  ghost predicate CanRun(s: State, actions: seq<Action>)
    decreases |actions|
  {
    actions == [] || (Can(s, actions[0]) && CanRun(Done(s, actions[0]), actions[1..]))
  }

  function Ran(s: State, actions: seq<Action>): State
    decreases |actions|
  {
    if actions == [] then s else Ran(Done(s, actions[0]), actions[1..])
  }

  lemma {:induction false} RunsKeepInv(s: State, actions: seq<Action>)
    requires Inv(s) && CanRun(s, actions)
    ensures Inv(Ran(s, actions))
    decreases |actions|
  {
    if actions != [] {
      EveryActionKeepsInv(s, actions[0]);
      RunsKeepInv(Done(s, actions[0]), actions[1..]);
    }
  }

  /** Exactly one registration is enabled for the event: that of its type. */
  ghost predicate OneEnabled(queue: Queue, id: nat, e: Event) {
    forall key :: (key in queue && queue[key] == Registration(true, Conn(id))) <==> key == MainKey(e)
  }

  lemma {:induction false} OwnedIsHeld(s: State, id: nat, key: Key)
    requires Inv(s) && id in s.events && key in Pending(s) && Pending(s)[key].owner == Conn(id)
    ensures key.fd in Fds(s.events[id])
  {
    hide Pending;
    if key.fd !in s.listeners {
      var i :| i in s.events && key.fd in Fds(s.events[i]);
      assert Matches(Pending(s), key, i, s.events[i]);
    }
  }

  lemma {:induction false} MatchingGivesOneEnabled(queue: Queue, id: nat, e: Event)
    requires Coupled(e) && forall key: Key :: key.fd in Fds(e) ==> Matches(queue, key, id, e)
    requires forall key :: key in queue && queue[key].owner == Conn(id) ==> key.fd in Fds(e)
    ensures OneEnabled(queue, id, e)
  {
    assert Matches(queue, MainKey(e), id, e);
    forall key | key in queue && queue[key] == Registration(true, Conn(id))
      ensures key == MainKey(e)
    {
      assert Matches(queue, key, id, e);
    }
  }

  lemma {:induction false} InvGivesOneEnabled(s: State, id: nat)
    requires Inv(s) && id in s.events
    ensures OneEnabled(Pending(s), id, s.events[id])
  {
    hide Pending, OneEnabled, Fds, Coupled;
    forall key | key in Pending(s) && Pending(s)[key].owner == Conn(id)
      ensures key.fd in Fds(s.events[id])
    {
      OwnedIsHeld(s, id, key);
    }
    MatchingGivesOneEnabled(Pending(s), id, s.events[id]);
  }

  lemma {:induction false} InvGivesLiveOwners(s: State, key: Key)
    requires Inv(s) && key in Pending(s)
    ensures match Pending(s)[key].owner
            case Conn(id) => id in s.events
            case Listener(fd) => fd in s.listeners
            case Nobody => false
  {
    if key.fd !in s.listeners {
      var i :| i in s.events && key.fd in Fds(s.events[i]);
      assert Matches(Pending(s), key, i, s.events[i]);
    }
  }

  lemma {:induction false} StartsWell(s: State)
    requires Starting(s)
    ensures Inv(s)
  {
    forall key: Key | key.fd in s.listeners
      ensures if key.filter == Reading then key in Pending(s) && Pending(s)[key] == Registration(true, Listener(key.fd))
              else key !in Pending(s)
    {
      assert key.filter == Reading ==> key == Key(key.fd, Reading);
    }
  }

  /** This action gives up a CGI answer, and leaves this behind. */
  function LeftBy(s: State, a: Action): set<Key> {
    if a.Route? && a.id in s.events && !a.routing.eof && !Whole(s.events[a.id], a.routing) then
      {Key(s.events[a.id].toRecvFd, Reading)}
    else {}
  }

  function LeftBehind(s: State, actions: seq<Action>): set<Key>
    decreases |actions|
  {
    if actions == [] then {} else LeftBy(s, actions[0]) + LeftBehind(Done(s, actions[0]), actions[1..])
  }

  lemma {:induction false} EveryActionLoses(s: State, a: Action)
    requires Can(s, a)
    ensures Done(s, a).lost == s.lost + LeftBy(s, a)
  {
    hide Serve, ReceiveTimed, Coupled;
  }

  lemma {:induction false} RunLoses(s: State, actions: seq<Action>)
    requires CanRun(s, actions)
    ensures Ran(s, actions).lost == s.lost + LeftBehind(s, actions)
    decreases |actions|
  {
    hide Can, Done, LeftBy;
    if actions != [] {
      EveryActionLoses(s, actions[0]);
      RunLoses(Done(s, actions[0]), actions[1..]);
    }
  }

  /** The main result, over every run, with the pending changes applied: each live
      connection has exactly one enabled registration, the one its type calls for; every
      registration belongs to a live connection or a listening socket, except that each
      answer that was given up has left its own behind, on a descriptor nobody has. */
  lemma {:induction false} RegistrationsOverRuns(s: State, actions: seq<Action>)
    requires Starting(s) && CanRun(s, actions)
    ensures var t := Ran(s, actions);
            && t.lost == LeftBehind(s, actions)
            && (forall id :: id in t.events ==> OneEnabled(Registered(t) - t.lost, id, t.events[id]))
            && (forall key :: key in Registered(t) && key !in t.lost ==>
                  match Registered(t)[key].owner
                  case Conn(id) => id in t.events
                  case Listener(fd) => fd in t.listeners
                  case Nobody => false)
            && (forall key :: key in t.lost ==>
                  && key in Registered(t) && Registered(t)[key].enabled && key.fd in t.open && key.fd !in t.listeners
                  && forall id :: id in t.events ==> key.fd !in Fds(t.events[id]))
  {
    StartsWell(s);
    RunsKeepInv(s, actions);
    RunLoses(s, actions);
    hide CanRun, Ran, LeftBehind, Coupled;
    var t := Ran(s, actions);
    forall id | id in t.events ensures OneEnabled(Pending(t), id, t.events[id]) {
      InvGivesOneEnabled(t, id);
    }
    forall key | key in Registered(t) && key !in t.lost
      ensures match Registered(t)[key].owner
              case Conn(id) => id in t.events
              case Listener(fd) => fd in t.listeners
              case Nobody => false
    {
      assert key in Pending(t) && Pending(t)[key] == Registered(t)[key];
      InvGivesLiveOwners(t, key);
    }
  }

  // ------------------------------- what a run has done to changes and to the trash

  /** This action reads the source of a download, and fails to. */
  predicate LosesSource(s: State, a: Action) {
    a.ServeOne? && a.id in s.events && ReadFails(s.events[a.id], a.input)
  }

  /** Some action of the run does. */
  predicate LosesOne(s: State, actions: seq<Action>)
    decreases |actions|
  {
    actions != [] && (LosesSource(s, actions[0]) || LosesOne(Done(s, actions[0]), actions[1..]))
  }

  lemma {:induction false} ServeFinds(s: State, id: nat, x: Input)
    requires Inv(s) && CanServe(s, id, x)
    ensures var s' := Act(s, id, Serve(s.events[id], id, x), x.acquired, x.discarded);
            Finds(s'.queue, s'.changes) <==> Finds(s.queue, s.changes) && !ReadFails(s.events[id], x)
  {
    hide Finds, OnlyNobodys;
    ServeIsProper(s, id, x);
    HoldsNow(s, id, {});
    ServeFindsExactly(Registered(s), id, s.events[id], x);
    FindsAfter(s, id, Serve(s.events[id], id, x), x.acquired, x.discarded);
  }

  lemma {:induction false} QuietRemovalFinds(s: State, id: nat)
    requires Inv(s) && id in s.events && Quiet(s, id)
    requires s.events[id].kind.RequestReadable? || s.events[id].kind.ResponseWritable?
    ensures var s' := Act(s, id, Removal(s.events[id]), {}, {});
            Finds(s'.queue, s'.changes) <==> Finds(s.queue, s.changes)
  {
    hide Finds, OnlyNobodys;
    SocketRemovalIsProper(s.events[id], id);
    NoChangeFinds(Registered(s));
    FindsAfter(s, id, Removal(s.events[id]), {}, {});
  }

  lemma {:induction false} RouteFinds(s: State, id: nat, x: Routing)
    requires Inv(s) && CanRoute(s, id, x)
    ensures var s' := Routed(s, id, x); Finds(s'.queue, s'.changes) <==> Finds(s.queue, s.changes)
  {
    hide ReceiveTimed, Finds;
    if x.eof || s.events[id].kind.RequestReadable? {
      QuietRemovalFinds(s, id);
    } else if !Whole(s.events[id], x) {
      assert s.changes + [] == s.changes;
      FindsAfterClose(s.queue, s.changes, {s.events[id].clientFd});
    }
  }

  /** One action, and whether the pending changes are found after it. */
  lemma {:induction false} EveryActionFinds(s: State, a: Action)
    requires Inv(s) && Can(s, a)
    ensures var t := Done(s, a); Finds(t.queue, t.changes) <==> Finds(s.queue, s.changes) && !LosesSource(s, a)
  {
    hide Inv, Finds, CanServe, CanRoute, Routed, CanAccept, Serve, CanSweep;
    match a {
      case Poll(batch, stamps, since) => NoChangeFinds(Done(s, a).queue);
      case Sweep(id, base) => SweepFinds(s, id, base);
      case Accept(id, fd, now) => AcceptFinds(s, id, fd, now);
      case Route(id, x) => CanRouteIt(s, id, x); RouteFinds(s, id, x);
      case ServeOne(id, x) => CanServeIt(s, id, x); ServeFinds(s, id, x);
    }
  }

  lemma {:induction false} SweepFinds(s: State, id: nat, base: Timeval)
    requires Inv(s) && CanSweep(s, id, base)
    ensures var s' := Done(s, Sweep(id, base)); Finds(s'.queue, s'.changes) <==> Finds(s.queue, s.changes)
  {
    hide Finds;
    SweepSparesBatch(s, id, base);
    QuietRemovalFinds(s, id);
  }

  lemma {:induction false} CanRouteIt(s: State, id: nat, x: Routing)
    requires CanRoute(s, id, x)
    ensures Done(s, Route(id, x)) == Routed(s, id, x)
  {
  }

  lemma {:induction false} CanServeIt(s: State, id: nat, x: Input)
    requires CanServe(s, id, x)
    ensures id in s.events && Coupled(s.events[id])
    ensures Done(s, ServeOne(id, x)) == Act(s, id, Serve(s.events[id], id, x), x.acquired, x.discarded)
  {
  }

  /** Over every run, each pending change finds the registration it changes, except
      exactly when the source of a download could not be read; no run goes on to
      another poll after that. */
  lemma {:induction false} ChangesFindOverRuns(s: State, actions: seq<Action>)
    requires Starting(s) && CanRun(s, actions)
    ensures var t := Ran(s, actions); Finds(t.queue, t.changes) <==> !LosesOne(s, actions)
  {
    hide Finds, CanRun, Ran, LosesOne;
    StartsWell(s);
    StartFinds(s);
    RunFinds(s, actions);
  }

  lemma {:induction false} StartFinds(s: State)
    requires Starting(s)
    ensures Finds(s.queue, s.changes)
  {
    forall i: nat | i < |s.changes| ensures !Misses(s.queue, s.changes, i) {
      assert s.changes[i] in s.changes;
    }
  }

  lemma {:induction false} RunFinds(s: State, actions: seq<Action>)
    requires Inv(s) && CanRun(s, actions)
    ensures var t := Ran(s, actions);
            Finds(t.queue, t.changes) <==> Finds(s.queue, s.changes) && !LosesOne(s, actions)
    decreases |actions|
  {
    hide Inv, Finds, Can, Done, LosesSource;
    if actions != [] {
      EveryActionKeepsInv(s, actions[0]);
      EveryActionFinds(s, actions[0]);
      RunFinds(Done(s, actions[0]), actions[1..]);
    }
  }

  /** What was last done to the file that bodies are flushed to, and for which event. */
  datatype Use = NotUsed | OpenedFor(id: nat) | UnlinkedBy(id: nat)

  function UseBy(s: State, a: Action, last: Use): Use {
    if a.ServeOne? && a.id in s.events && Coupled(s.events[a.id]) then
      match Serve(s.events[a.id], a.id, a.input).trash
      case Untouched => last
      case Opened => OpenedFor(a.id)
      case Unlinked => UnlinkedBy(a.id)
    else last
  }

  function LastUse(s: State, actions: seq<Action>, last: Use): Use
    decreases |actions|
  {
    if actions == [] then last else LastUse(Done(s, actions[0]), actions[1..], UseBy(s, actions[0], last))
  }

  ghost predicate Flushes(s: State, id: nat) {
    id in s.events && s.events[id].kind.BufferFlush?
  }

  /** The file is there just when it was opened last; whoever flushes to it has opened
      it, and whoever unlinked it flushes no more. */
  ghost predicate Used(s: State, last: Use) {
    && (last.OpenedFor? ==> s.trash)
    && (last.UnlinkedBy? ==> !s.trash && !Flushes(s, last.id))
    && (last.NotUsed? ==> forall id :: !Flushes(s, id))
  }

  /** A step makes an event flush by opening the file, and unlinks it to end the flush. */
  lemma {:induction false} ServeUses(e: Event, id: nat, x: Input)
    requires Coupled(e) && MadeFor(e, x) && Serve(e, id, x).thrown == NotThrown
    ensures var eff := Serve(e, id, x);
            var after := eff.event.Some? && eff.event.value.kind.BufferFlush?;
            && (eff.trash.Opened? ==> e.kind.RequestReadable? && after)
            && (eff.trash.Unlinked? ==> e.kind.BufferFlush? && x.trash && !after)
            && (eff.trash.Untouched? ==> (after <==> e.kind.BufferFlush?))
  {
    hide Advanced, Send, Download;
  }

  lemma {:induction false} EveryActionUses(s: State, a: Action, last: Use)
    requires Can(s, a) && Used(s, last)
    ensures Used(Done(s, a), UseBy(s, a, last))
  {
    hide Serve, Used, Flushes, Can;
    if a.ServeOne? {
      ServeOneUses(s, a.id, a.input, last);
    } else {
      NoFlushBegins(s, a);
      StillUsed(s, Done(s, a), last);
    }
  }

  lemma {:induction false} StillUsed(s: State, s': State, last: Use)
    requires Used(s, last) && s'.trash == s.trash && forall id :: Flushes(s', id) ==> Flushes(s, id)
    ensures Used(s', last)
  {
  }

  lemma {:induction false} NoFlushBegins(s: State, a: Action)
    requires Can(s, a) && !a.ServeOne?
    ensures Done(s, a).trash == s.trash && forall id :: Flushes(Done(s, a), id) ==> Flushes(s, id)
  {
    hide Routed;
    match a {
      case Poll(batch, stamps, since) => PollUses(s, batch, stamps, since);
      case Sweep(id, base) =>
      case Accept(id, fd, now) =>
      case Route(id, x) => RouteUses(s, id, x);
    }
  }

  lemma {:induction false} ServeOneUses(s: State, id: nat, x: Input, last: Use)
    requires Can(s, ServeOne(id, x)) && Used(s, last)
    ensures Used(Done(s, ServeOne(id, x)), UseBy(s, ServeOne(id, x), last))
  {
    hide Serve, Coupled, Allowed, MadeFor;
    ServeUsesHere(s, id, x);
    var s' := Done(s, ServeOne(id, x));
    assert forall i :: i != id ==> (Flushes(s', i) <==> Flushes(s, i));
  }

  lemma {:induction false} ServeUsesHere(s: State, id: nat, x: Input)
    requires CanServe(s, id, x)
    ensures var eff := Serve(s.events[id], id, x);
            var after := Flushes(Done(s, ServeOne(id, x)), id);
            && (eff.trash.Opened? ==> after) && (eff.trash.Unlinked? ==> !after)
            && (eff.trash.Untouched? ==> (after <==> Flushes(s, id)))
  {
    hide Serve, Coupled, MadeFor;
    ServeUses(s.events[id], id, x);
  }

  lemma {:induction false} PollUses(s: State, batch: set<Key>, stamps: map<nat, Timeval>, since: int)
    ensures var s' := Polled(s, batch, stamps, since);
            s'.trash == s.trash && forall id :: Flushes(s', id) <==> Flushes(s, id)
  {
  }

  lemma {:induction false} RouteUses(s: State, id: nat, x: Routing)
    requires id in s.events && s.events[id].req.Valid()
    ensures var s' := Routed(s, id, x);
            s'.trash == s.trash && forall i :: Flushes(s', i) ==> Flushes(s, i)
  {
    hide ReceiveTimed;
  }

  lemma {:induction false} RunUses(s: State, actions: seq<Action>, last: Use)
    requires CanRun(s, actions) && Used(s, last)
    ensures Used(Ran(s, actions), LastUse(s, actions, last))
    decreases |actions|
  {
    hide Can, Done, Used, UseBy;
    if actions != [] {
      EveryActionUses(s, actions[0], last);
      RunUses(Done(s, actions[0]), actions[1..], UseBy(s, actions[0], last));
    }
  }

  /** Over every run, a step that ends the flush of a body, and does not fail before, is
      thrown at by `unlink` exactly when another event has unlinked the file since it
      was last opened. */
  lemma {:induction false} FlushesOverRuns(s: State, actions: seq<Action>, id: nat, x: Input)
    requires Starting(s) && CanRun(s, actions)
    requires var t := Ran(s, actions); Flushes(t, id) && Coupled(t.events[id]) && Allowed(t, id, x)
    ensures var t, last := Ran(s, actions), LastUse(s, actions, NotUsed);
            var e := t.events[id];
            && (last.OpenedFor? || (last.UnlinkedBy? && last.id != id))
            && (FlushEnds(e, x) && !(ErrorIsMade(e, x) && x.faults.error) ==>
                  (Serve(e, id, x).thrown == CallFailed <==> last.UnlinkedBy?))
            && (!FlushEnds(e, x) ==> Serve(e, id, x).thrown == NotThrown)
  {
    hide Serve, CanRun, Ran, LastUse, FlushEnds, ErrorIsMade, Coupled, MadeFor;
    assert Used(s, NotUsed);
    RunUses(s, actions, NotUsed);
    ThrowsExactly(Ran(s, actions).events[id], id, x);
  }

  /** Over every run, the type of an event and its response go together. */
  lemma {:induction false} CouplingOverRuns(s: State, actions: seq<Action>)
    requires Starting(s) && CanRun(s, actions)
    ensures var t := Ran(s, actions);
            forall id :: id in t.events ==>
              var e := t.events[id];
              && (e.kind.ResponseWritable? ==> e.resp.Some? && e.resp.value.state.SendingStorage?)
              && (e.kind.ResponseDownload? ==> e.resp.Some? && e.resp.value.state.DownloadingInit? && e.resp.value.fd in t.open)
              && (e.kind.BufferFlush? ==> HasBody(e.req.head.verb))
              && ((e.kind.ResponseDownload? || e.kind.ResponseWritable?) && TakesBody(e.resp.value.kind) ==> BodyIsOver(e.req))
  {
    StartsWell(s);
    RunsKeepInv(s, actions);
    var t := Ran(s, actions);
    forall id | id in t.events && t.events[id].kind.ResponseDownload?
      ensures t.events[id].toRecvFd in t.open
    {
      assert t.events[id].toRecvFd in Fds(t.events[id]);
    }
  }

  /** A batch names no connection twice, and names live connections only. */
  lemma {:induction false} BatchNamesOnce(s: State, batch: set<Key>, stamps: map<nat, Timeval>, since: int, a: Key, b: Key)
    requires Inv(s) && CanPoll(s, batch, stamps, since)
    requires a in batch && b in batch && Pending(s)[a].owner == Pending(s)[b].owner && Pending(s)[a].owner.Conn?
    ensures a == b && Pending(s)[a].owner.id in s.events
  {
    var id := Pending(s)[a].owner.id;
    InvGivesLiveOwners(s, a);
    InvGivesOneEnabled(s, id);
  }

  /** Deferred close is safe: a descriptor put aside is open, so that nothing hands it
      out again; it belongs to no connection, and once the pending changes are in it
      has no registration left to lose when it is closed. */
  lemma {:induction false} DeferredCloseIsSafe(s: State, fd: int)
    requires Inv(s) && fd in s.closing
    ensures fd in s.open && fd !in s.listeners
    ensures forall id :: id in s.events ==> fd !in Fds(s.events[id])
    ensures forall key :: key in Registered(s) ==> key.fd != fd
  {
    forall key | key in Registered(s) ensures key.fd != fd {
      if key !in s.lost && key.fd !in s.listeners {
        var i :| i in s.events && key.fd in Fds(s.events[i]);
      }
    }
  }

  /** The next poll closes what was put aside, all of it and nothing else, and that
      costs nobody a registration. */
  lemma {:induction false} PollClosesSafely(s: State, batch: set<Key>, stamps: map<nat, Timeval>, since: int)
    requires Inv(s)
    ensures var t := Polled(s, batch, stamps, since);
            t.queue == Registered(s) && t.open == s.open - s.closing && t.closing == {} && t.changes == []
  {
    FlushKeepsInv(s);
    ClosingIsNotRegistered(Flushed(s));
  }

  /** Hence no pending change, a deletion least of all, is about a descriptor that an
      accept or an open hands out before the change is applied. */
  lemma {:induction false} NewOwnersAreUntouched(s: State, fd: int)
    requires Inv(s) && fd !in s.open
    ensures forall c :: c in s.changes ==> c.key.fd != fd
    ensures forall key :: key in Registered(s) ==> key.fd != fd
  {
    PendingIsOpen(s);
  }

  lemma {:induction false} RemovalFinds(s: State, id: nat)
    requires Inv(s) && id in s.events
    ensures OnlyNobodys(Registered(s), Removal(s.events[id]).changes)
  {
  }

  /** What `removeConnection` forgets: removed by itself, an event leaves no
      registration behind exactly when it is not waiting for a CGI program or for the
      flush of a body, whose registrations it does not delete. */
  lemma {:induction false} RemovalIsCleanExactly(s: State, id: nat)
    requires Inv(s) && id in s.events && Quiet(s, id)
    ensures (forall key :: key in Pending(Act(s, id, Removal(s.events[id]), {}, {})) ==>
               Pending(Act(s, id, Removal(s.events[id]), {}, {}))[key].owner != Conn(id))
       <==> !s.events[id].kind.CgiReadable? && !s.events[id].kind.BufferFlush?
  {
    var e := s.events[id];
    var s' := Act(s, id, Removal(e), {}, {});
    var main := MainKey(e);
    if e.kind.CgiReadable? || e.kind.BufferFlush? {
      assert Matches(Pending(s), main, id, e);
      assert s.changes + [] == s.changes;
      CloseCommutes(s.queue, s.changes, {e.clientFd});
      assert main in Pending(s') && Pending(s')[main].owner == Conn(id);
    } else {
      RemovingIsProper(e, id, Removal(e).changes, {}, {});
      RemovalFinds(s, id);
      ActKeepsInv(s, id, Removal(e), {}, {});
      forall key | key in Pending(s') ensures Pending(s')[key].owner != Conn(id) {
        InvGivesLiveOwners(s', key);
      }
    }
  }

  /** A connection whose request is still coming is removed exactly when its socket is at
      its end, nothing could be received, or the time is over at a piece that leaves the
      buffer unfilled; and else its request is handed on exactly when it is complete. */
  lemma {:induction false} RouteLeadsExactly(s: State, id: nat, x: Routing)
    requires Inv(s) && CanRoute(s, id, x) && s.events[id].kind.RequestReadable? && StillParsing(s.events[id].req.state)
    ensures var after, lost := Routed(s, id, x), x.piece.RecvFailed? || x.piece.bytes == "";
            var filled := x.piece.Piece? && |x.piece.bytes| == READ_BUFFER_SIZE;
            && (id !in after.events <==> x.eof || lost || (x.late && !filled))
            && (id in after.events ==>
                  var req := Receive(s.events[id].req, x.piece);
                  after.events[id].req == req && (id in after.todo <==> IsParsingEnd(req.state)))
  {
    hide Parse, ServerOf;
    ParseKeepsOn(s.events[id].req, x.piece);
  }

  /** Receiving alone does not fail while a request is coming, but for the connection. */
  lemma {:induction false} ParseKeepsOn(r: Request, piece: Recv)
    requires r.Valid() && StillParsing(r.state)
    ensures var r' := Receive(r, piece);
            r'.conn == RecvState(piece) && r'.state != ConnectionClosed && r'.state != TimedOut
  {
    hide Scan;
    var next := Holding(r, if piece.Piece? then piece.bytes else "").(conn := RecvState(piece));
    ScanStates(next.state, next.head, next.Unread(), next.chunkSize);
  }

  lemma {:induction false} ScanStates(state: ParsingState, h: Head, u: string, chunkSize: int)
    requires chunkSize >= -1 && StillParsing(state)
    ensures var o := Scan(state, h, u, chunkSize); o.state != ConnectionClosed && o.state != TimedOut
  {
    hide Fields, Walk, WellFormedStart, StartLine;
  }

  /** Routing leaves a registration behind exactly when it removes an event for an answer
      whose header does not end; it is that of the answer. */
  lemma {:induction false} RouteLosesExactly(s: State, id: nat, x: Routing)
    requires Inv(s) && CanRoute(s, id, x)
    ensures Routed(s, id, x).lost == s.lost <==> Whole(s.events[id], x)
    ensures !Whole(s.events[id], x) ==>
              var after, key := Routed(s, id, x), Key(s.events[id].toRecvFd, Reading);
              && after.lost == s.lost + {key} && id !in after.events
              && key in Registered(after) && Registered(after)[key] == Registration(true, Conn(id))
  {
    hide ReceiveTimed;
    if !Whole(s.events[id], x) {
      var key := Key(s.events[id].toRecvFd, Reading);
      QueueGivenUp(s, id);
      assert key.fd in Fds(s.events[id]) && Matches(Pending(s), key, id, s.events[id]);
    }
  }

  // ------------------------------------------------- handing a batch around

  /** One entry of the list `kevent` fills: its `udata`, and whether EV_EOF is set. */
  datatype Kevent = Kevent(key: Key, owner: Owner, eof: bool)

  function KeysOf(batch: seq<Kevent>): set<Key> {
    set k | 0 <= k < |batch| :: batch[k].key
  }

  /** A batch is a choice of enabled registrations; only a socket can be at its end. */
  ghost predicate BatchOf(s: State, batch: seq<Kevent>) {
    && (forall k :: 0 <= k < |batch| ==>
          batch[k].key in Pending(s) && Pending(s)[batch[k].key] == Registration(true, batch[k].owner))
    && (forall j, k :: 0 <= j < k < |batch| ==> batch[j].key != batch[k].key)
    && (forall k :: 0 <= k < |batch| && batch[k].eof ==>
          batch[k].owner.Conn? && batch[k].owner.id in s.events && s.events[batch[k].owner.id].clientFd == batch[k].key.fd)
  }

  /** Entries for pending changes that fail, which `kevent` returns instead. */
  ghost predicate Reports(s: State, batch: seq<Kevent>) {
    && batch != []
    && forall k :: 0 <= k < |batch| ==>
         exists i :: 0 <= i < |s.changes| && Misses(s.queue, s.changes, i)
                     && batch[k] == Kevent(s.changes[i].key, s.changes[i].owner, false)
  }

  /** What the next poll may return. */
  ghost predicate Returns(s: State, batch: seq<Kevent>, stamps: map<nat, Timeval>, since: int) {
    if Finds(s.queue, s.changes) then BatchOf(s, batch) && CanPoll(s, KeysOf(batch), stamps, since)
    else Reports(s, batch)
  }

  /** Some entry has no event to it. */
  predicate HasNull(batch: seq<Kevent>) {
    exists k :: 0 <= k < |batch| && batch[k].owner == Nobody
  }

  /** That is so exactly when a pending change fails. */
  lemma {:induction false} NullExactly(s: State, batch: seq<Kevent>, stamps: map<nat, Timeval>, since: int)
    requires Inv(s) && Returns(s, batch, stamps, since)
    ensures HasNull(batch) <==> !Finds(s.queue, s.changes)
  {
    if Finds(s.queue, s.changes) {
      forall k | 0 <= k < |batch| ensures batch[k].owner != Nobody {
        InvGivesLiveOwners(s, batch[k].key);
      }
    } else {
      assert batch[0].owner == Nobody;
    }
  }

  /** From entry `i` on, the batch names live connections that have not been dealt
      with, each by the one registration it has enabled. */
  ghost predicate Remaining(s: State, batch: seq<Kevent>, i: nat) {
    forall k :: i <= k < |batch| && batch[k].owner.Conn? ==>
      var id := batch[k].owner.id;
      && id in s.todo && id in s.events && batch[k].key == MainKey(s.events[id])
      && (batch[k].eof ==> s.events[id].clientFd == batch[k].key.fd)
  }

  /** What is handed to a virtual server: live, and complete if it is a request. */
  ghost predicate Servable(s: State, id: nat) {
    && id in s.todo && id in s.events
    && (s.events[id].kind.RequestReadable? ==> IsParsingEnd(s.events[id].req.state))
  }

  /** An environment that does what it may, whatever the state of the server. */
  ghost predicate Obliging(answer: (State, nat) -> Input) {
    forall s: State, id: nat :: Inv(s) && Servable(s, id) ==> Allowed(s, id, answer(s, id))
  }

  ghost predicate StaysServable(s: State, s': State, id: nat)
    requires Servable(s, id)
  {
    Servable(s', id) && s'.events[id].serverId == s.events[id].serverId
  }

  lemma {:induction false} LiveIsCoupled(s: State, id: nat)
    requires Inv(s) && Servable(s, id)
    ensures Coupled(s.events[id])
  {
  }

  /** Every event handed out, but to a server that has had its turn, or to `t` before
      place `from`, is servable; no event is handed out twice. */
  ghost predicate Handed(s: State, routed: map<int, seq<nat>>, served: set<int>, t: int, from: nat) {
    && (forall u, k :: u in routed && u !in served && 0 <= k < |routed[u]| && (u == t ==> from <= k) ==>
          Servable(s, routed[u][k]) && s.events[routed[u][k]].serverId == u)
    && (forall u, v, j, k ::
          (u in routed && v in routed && 0 <= j < |routed[u]| && 0 <= k < |routed[v]| && routed[u][j] == routed[v][k])
          ==> u == v && j == k)
  }

  ghost predicate NotHanded(routed: map<int, seq<nat>>, batch: seq<Kevent>, i: nat) {
    forall u, k, j :: u in routed && 0 <= k < |routed[u]| && i <= j < |batch| ==> batch[j].owner != Conn(routed[u][k])
  }

  ghost predicate IsHanded(routed: map<int, seq<nat>>, id: nat) {
    exists u, k :: u in routed && 0 <= k < |routed[u]| && routed[u][k] == id
  }

  ghost predicate IsAhead(batch: seq<Kevent>, i: nat, id: nat) {
    exists j :: i <= j < |batch| && batch[j].owner == Conn(id)
  }

  /** Whatever has not been dealt with is handed out, or still to come. */
  ghost predicate NoneLost(todo: set<nat>, routed: map<int, seq<nat>>, batch: seq<Kevent>, i: nat) {
    forall id :: id in todo ==> IsHanded(routed, id) || IsAhead(batch, i, id)
  }

  /** From when its request is complete, an event belongs to the server that hosts it. */
  predicate Housed(e: Event, hosts: seq<Config.Server>) {
    e.serverId == if e.kind.RequestReadable? && !IsParsingEnd(e.req.state) then -1
                  else ServerFor(hosts, e.req.head.hostPort, e.req.head.hostName)
  }

  predicate AllHoused(events: map<nat, Event>, hosts: seq<Config.Server>) {
    forall id :: id in events ==> Housed(events[id], hosts)
  }

  lemma {:induction false} ServeKeepsHoused(s: State, id: nat, x: Input)
    requires Servable(s, id) && Coupled(s.events[id]) && AllHoused(s.events, s.hosts)
    ensures AllHoused(Act(s, id, Serve(s.events[id], id, x), x.acquired, x.discarded).events, s.hosts)
  {
    var eff := Serve(s.events[id], id, x);
    if eff.event.Some? {
      ServeKeepsHouse(s.events[id], id, x, s.hosts);
    }
  }

  /** A step leaves the event with its server and its head, or makes it new. */
  predicate SameServer(e: Event, eff: Effect) {
    eff.event.Some? ==>
      var e' := eff.event.value;
      || (&& e'.serverId == e.serverId && e'.req.head == e.req.head
          && (e'.kind.RequestReadable? ==> e.kind.RequestReadable? && e'.req == e.req))
      || (e'.serverId == -1 && e'.kind.RequestReadable? && e'.req.state == ParsingInit)
  }

  lemma {:induction false} WriteKeepsServer(e: Event, u: Request, id: nat, x: Input)
    requires Coupled(e) && u.head == e.req.head
    ensures e.kind.RequestUpload? ==> SameServer(e, Uploading(e, u, id, x))
    ensures e.kind.BufferFlush? ==> SameServer(e, Flushing(e, u, id, x))
  {
  }

  lemma {:induction false} OtherKeepsServer(e: Event, id: nat, x: Input)
    requires Coupled(e) && !e.kind.RequestUpload? && !e.kind.BufferFlush?
    ensures SameServer(e, Serve(e, id, x))
  {
    hide Send, Download;
  }

  lemma {:induction false} ServeKeepsHouse(e: Event, id: nat, x: Input, hosts: seq<Config.Server>)
    requires Coupled(e) && Housed(e, hosts) && (e.kind.RequestReadable? ==> IsParsingEnd(e.req.state))
    requires Serve(e, id, x).event.Some?
    ensures Housed(Serve(e, id, x).event.value, hosts)
  {
    hide Upload, Uploading, Flushing, ServeReadable, ServeDownload, ServeWritable, ServeCgi, ServerFor;
    UploadKeepsHead(e.req, x.io);
    if e.kind.RequestUpload? || e.kind.BufferFlush? {
      WriteKeepsServer(e, Advanced(e, x), id, x);
    } else {
      OtherKeepsServer(e, id, x);
    }
  }

  /** Once it is complete, a request is not parsed again. */
  lemma {:induction false} CompleteStays(r: Request, piece: Recv, late: bool)
    requires r.Valid() && !StillParsing(r.state)
    ensures var r' := ReceiveTimed(r, piece, late); r'.head == r.head && (r'.state == r.state || r'.state == TimedOut)
  {
  }

  lemma {:induction false} RouteKeepsHoused(s: State, id: nat, x: Routing)
    requires CanRoute(s, id, x) && AllHoused(s.events, s.hosts)
    ensures AllHoused(Routed(s, id, x).events, s.hosts)
  {
    hide ReceiveTimed, ServerFor;
    var e := s.events[id];
    if !StillParsing(e.req.state) {
      CompleteStays(e.req, x.piece, x.late);
    }
  }

  /** Every event handed out is handed to the server that hosts its request, by the port
      and the name in its head. */
  ghost predicate AtItsHost(s: State, routed: map<int, seq<nat>>) {
    forall u, k :: u in routed && 0 <= k < |routed[u]| ==>
      && routed[u][k] in s.events
      && var h := s.events[routed[u][k]].req.head; u == ServerFor(s.hosts, h.hostPort, h.hostName)
  }

  lemma {:induction false} HandedToHost(s: State, routed: map<int, seq<nat>>)
    requires Handed(s, routed, {}, -1, 0) && AllHoused(s.events, s.hosts)
    ensures AtItsHost(s, routed)
  {
    forall u, k | u in routed && 0 <= k < |routed[u]|
      ensures routed[u][k] in s.events
      ensures var h := s.events[routed[u][k]].req.head; u == ServerFor(s.hosts, h.hostPort, h.hostName)
    {
      HandedIsHoused(s, routed[u][k]);
    }
  }

  /** What is handed out belongs to a server. */
  lemma {:induction false} HandedIsHoused(s: State, id: nat)
    requires Servable(s, id) && AllHoused(s.events, s.hosts)
    ensures var e := s.events[id]; e.serverId == ServerFor(s.hosts, e.req.head.hostPort, e.req.head.hostName)
  {
    assert Housed(s.events[id], s.hosts);
  }

  /** `_routedEvents[serverId].push_back(id)`. */
  function Pushed(routed: map<int, seq<nat>>, serverId: int, id: nat): map<int, seq<nat>> {
    routed[serverId := (if serverId in routed then routed[serverId] else []) + [id]]
  }

  /** An entry of the batch is one its event can be routed by. */
  lemma {:induction false} BatchCanRoute(s: State, batch: seq<Kevent>, i: nat, x: Routing)
    requires Inv(s) && Remaining(s, batch, i) && i < |batch| && batch[i].owner.Conn? && x.eof == batch[i].eof
    ensures CanRoute(s, batch[i].owner.id, x)
  {
    var e := s.events[batch[i].owner.id];
    assert Coupled(e);
    if batch[i].eof {
      assert MainKey(e).fd == e.clientFd;
      assert MainKey(e).fd != e.clientFd || e.kind.RequestReadable? || e.kind.ResponseWritable?;
    }
  }

  lemma {:induction false} NothingIsHanded(s: State)
    ensures Handed(s, map[], {}, -1, 0)
  {
  }

  /** What happens to one event, kept or removed, happens to that one. */
  ghost predicate OnlyTouches(s: State, s': State, id: nat) {
    && (forall i :: i != id ==> (i in s'.events <==> i in s.events) && (i in s'.todo <==> i in s.todo))
    && (forall i :: i != id && i in s.events ==> s'.events[i] == s.events[i])
  }

  lemma {:induction false} ActTouchesOne(s: State, id: nat, eff: Effect, acquired: set<int>, discarded: set<int>)
    requires id in s.events
    ensures OnlyTouches(s, Act(s, id, eff, acquired, discarded), id)
    ensures id !in Act(s, id, eff, acquired, discarded).todo
  {
  }

  lemma {:induction false} UpdateTouchesOne(s: State, id: nat, e': Event, todo: set<nat>)
    requires todo == s.todo || todo == s.todo - {id}
    ensures OnlyTouches(s, s.(events := s.events[id := e'], todo := todo), id)
  {
  }

  lemma {:induction false} OnlyOneIsRouted(s: State, id: nat, x: Routing)
    requires Inv(s) && CanRoute(s, id, x)
    ensures OnlyTouches(s, Routed(s, id, x), id)
    ensures id in Routed(s, id, x).todo ==> Servable(Routed(s, id, x), id)
  {
    hide Inv, OnlyTouches, Act, ReceiveTimed;
    var e, s' := s.events[id], Routed(s, id, x);
    if || x.eof || !Whole(e, x)
       || (e.kind.RequestReadable? && IsRecvError(ReceiveTimed(e.req, x.piece, x.late))) {
      ActTouchesOne(s, id, Removal(e), {}, {});
      LossTouchesNone(s, Act(s, id, Removal(e), {}, {}), s', id);
    } else if e.kind.RequestReadable? {
      UpdateTouchesOne(s, id, s'.events[id], s'.todo);
    } else {
      UpdateTouchesOne(s, id, e, s'.todo);
      assert s.events[id := e] == s.events;
    }
  }

  lemma {:induction false} LossTouchesNone(s: State, t: State, s': State, id: nat)
    requires OnlyTouches(s, t, id) && s' == t.(lost := s'.lost)
    ensures OnlyTouches(s, s', id)
  {
  }

  /** One entry of a batch is routed: the rest of the batch is still to come, and what
      has been handed out, this event included if it was, can be served. */
  lemma {:induction false} BatchStep(s: State, batch: seq<Kevent>, i: nat, id: nat, x: Routing, routed: map<int, seq<nat>>)
    requires Inv(s) && i < |batch| && batch[i].owner == Conn(id) && x.eof == batch[i].eof
    requires forall j, k :: 0 <= j < k < |batch| ==> batch[j].key != batch[k].key
    requires Remaining(s, batch, i) && Handed(s, routed, {}, -1, 0) && NotHanded(routed, batch, i)
    requires NoneLost(s.todo, routed, batch, i)
    ensures CanRoute(s, id, x) && Inv(Routed(s, id, x))
    ensures Remaining(Routed(s, id, x), batch, i + 1)
    ensures var s' := Routed(s, id, x);
            var routed' := if id in s'.todo then Pushed(routed, s'.events[id].serverId, id) else routed;
            && (id in s'.todo ==> Servable(s', id)) && Handed(s', routed', {}, -1, 0) && NotHanded(routed', batch, i + 1)
            && NoneLost(s'.todo, routed', batch, i + 1)
  {
    hide Inv, Routed, CanRoute, Remaining, OnlyTouches, Handed, NotHanded, NoneLost;
    BatchCanRoute(s, batch, i, x);
    RouteKeepsInv(s, id, x);
    OnlyOneIsRouted(s, id, x);
    var s' := Routed(s, id, x);
    OthersStayRemaining(s, s', batch, i, id);
    OthersStayServable(s, s', id);
    NotYetHanded(routed, batch, i, id);
    NoneIsLost(s, s', routed, batch, i, id);
    if id in s'.todo {
      PushedIsHanded(s, s', routed, s'.events[id].serverId, id);
      PushedIsNotAhead(routed, batch, i, s'.events[id].serverId, id);
    } else {
      StillHanded(s, s', routed, id);
    }
  }

  lemma {:induction false} NotYetHanded(routed: map<int, seq<nat>>, batch: seq<Kevent>, i: nat, id: nat)
    requires NotHanded(routed, batch, i) && i < |batch| && batch[i].owner == Conn(id)
    ensures forall u, k :: u in routed && 0 <= k < |routed[u]| ==> routed[u][k] != id
    ensures NotHanded(routed, batch, i + 1)
  {
  }

  lemma {:induction false} PushedIsNotAhead(routed: map<int, seq<nat>>, batch: seq<Kevent>, i: nat, serverId: int, id: nat)
    requires NotHanded(routed, batch, i) && i < |batch|
    requires forall k :: i < k < |batch| ==> batch[k].owner != Conn(id)
    ensures NotHanded(Pushed(routed, serverId, id), batch, i + 1)
  {
  }

  lemma {:induction false} NoneIsLost(s: State, s': State, routed: map<int, seq<nat>>, batch: seq<Kevent>, i: nat, id: nat)
    requires OnlyTouches(s, s', id) && i < |batch| && batch[i].owner == Conn(id)
    requires NoneLost(s.todo, routed, batch, i)
    ensures id !in s'.todo ==> NoneLost(s'.todo, routed, batch, i + 1)
    ensures id in s'.todo && id in s'.events ==>
              NoneLost(s'.todo, Pushed(routed, s'.events[id].serverId, id), batch, i + 1)
  {
    forall j | j in s'.todo && j != id ensures IsHanded(routed, j) || IsAhead(batch, i + 1, j) {
      if !IsHanded(routed, j) {
        var k :| i <= k < |batch| && batch[k].owner == Conn(j);
        assert k != i;
      }
    }
    if id in s'.todo && id in s'.events {
      forall j | j in s'.todo
        ensures IsHanded(Pushed(routed, s'.events[id].serverId, id), j) || IsAhead(batch, i + 1, j)
      {
        PushedStays(routed, s'.events[id].serverId, id, j);
      }
    }
  }

  lemma {:induction false} PushedStays(routed: map<int, seq<nat>>, serverId: int, id: nat, j: nat)
    ensures IsHanded(Pushed(routed, serverId, id), j) <==> j == id || IsHanded(routed, j)
  {
    var routed' := Pushed(routed, serverId, id);
    var n := |routed'[serverId]|;
    assert serverId in routed' && routed'[serverId][n - 1] == id;
    if IsHanded(routed, j) {
      var u, k :| u in routed && 0 <= k < |routed[u]| && routed[u][k] == j;
      assert u in routed' && routed'[u][k] == j;
    }
    if IsHanded(routed', j) && j != id {
      var u, k :| u in routed' && 0 <= k < |routed'[u]| && routed'[u][k] == j;
      assert u in routed && k < |routed[u]| && routed[u][k] == j;
    }
  }

  /** A listening socket's entry, or nobody's, hides no connection. */
  lemma {:induction false} NoneIsHidden(todo: set<nat>, routed: map<int, seq<nat>>, batch: seq<Kevent>, i: nat)
    requires NoneLost(todo, routed, batch, i) && i < |batch| && !batch[i].owner.Conn?
    ensures NoneLost(todo, routed, batch, i + 1)
  {
    forall id | id in todo && !IsHanded(routed, id) ensures IsAhead(batch, i + 1, id) {
      var j :| i <= j < |batch| && batch[j].owner == Conn(id);
      assert j != i;
    }
  }

  lemma {:induction false} AllAreAhead(s: State, batch: seq<Kevent>, stamps: map<nat, Timeval>, start: int)
    requires BatchOf(s, batch) && s.changes == []
    ensures NoneLost(Batched(s, KeysOf(batch), stamps, start).todo, map[], batch, 0)
  {
    forall id | id in OwnersIn(s.queue, KeysOf(batch)) ensures IsAhead(batch, 0, id) {
      var key :| key in KeysOf(batch) && key in s.queue && s.queue[key].owner == Conn(id);
      var j :| 0 <= j < |batch| && batch[j].key == key;
      assert batch[j].owner == Conn(id);
    }
  }

  lemma {:induction false} OthersStayServable(s: State, s': State, id: nat)
    requires OnlyTouches(s, s', id)
    ensures forall j :: j != id && Servable(s, j) ==> StaysServable(s, s', j)
  {
  }

  /** A listening socket's turn leaves the batch's connections alone. */
  lemma {:induction false} ListenerStep(s: State, s': State, batch: seq<Kevent>, i: nat, routed: map<int, seq<nat>>)
    requires Remaining(s, batch, i) && Handed(s, routed, {}, -1, 0)
    requires s'.todo == s.todo
    requires forall id :: id in s.todo && id in s.events ==> id in s'.events && s'.events[id] == s.events[id]
    ensures Remaining(s', batch, i) && Handed(s', routed, {}, -1, 0)
  {
    forall j | Servable(s, j) ensures StaysServable(s, s', j) {
    }
  }

  lemma {:induction false} OthersStayRemaining(s: State, s': State, batch: seq<Kevent>, i: nat, id: nat)
    requires Remaining(s, batch, i) && i < |batch| && batch[i].owner == Conn(id)
    requires forall j, k :: 0 <= j < k < |batch| ==> batch[j].key != batch[k].key
    requires OnlyTouches(s, s', id)
    ensures Remaining(s', batch, i + 1)
    ensures forall k :: i < k < |batch| ==> batch[k].owner != Conn(id)
  {
    forall k | i < k < |batch| ensures batch[k].owner != Conn(id) {
      assert batch[i].key != batch[k].key;
    }
  }

  lemma {:induction false} PushedIsHanded(s: State, s': State, routed: map<int, seq<nat>>, serverId: int, id: nat)
    requires Handed(s, routed, {}, -1, 0) && Servable(s', id) && s'.events[id].serverId == serverId
    requires forall u, k :: u in routed && 0 <= k < |routed[u]| ==> routed[u][k] != id
    requires forall j :: j != id && Servable(s, j) ==> StaysServable(s, s', j)
    ensures Handed(s', Pushed(routed, serverId, id), {}, -1, 0)
  {
  }

  lemma {:induction false} StillHanded(s: State, s': State, routed: map<int, seq<nat>>, id: nat)
    requires Handed(s, routed, {}, -1, 0)
    requires forall u, k :: u in routed && 0 <= k < |routed[u]| ==> routed[u][k] != id
    requires forall j :: j != id && Servable(s, j) ==> StaysServable(s, s', j)
    ensures Handed(s', routed, {}, -1, 0)
  {
  }

  /** Serving an event leaves what was handed to others as it was. */
  lemma {:induction false} ServedKeepsHanded(s: State, routed: map<int, seq<nat>>, served: set<int>, t: int, from: nat,
                                                  eff: Effect, x: Input)
    requires t in routed && from < |routed[t]| && Handed(s, routed, served, t, from) && routed[t][from] in s.events
    ensures Handed(Act(s, routed[t][from], eff, x.acquired, x.discarded), routed, served, t, from + 1)
  {
    var id := routed[t][from];
    var s' := Act(s, id, eff, x.acquired, x.discarded);
    forall u, k | u in routed && u !in served && 0 <= k < |routed[u]| && (u == t ==> from + 1 <= k)
      ensures Servable(s', routed[u][k]) && s'.events[routed[u][k]].serverId == u
    {
      assert routed[u][k] != id;
    }
  }

  lemma {:induction false} EntryRemains(s: State, batch: seq<Kevent>, k: nat)
    requires Inv(s) && BatchOf(s, batch) && s.changes == [] && k < |batch| && batch[k].owner.Conn?
    ensures var id := batch[k].owner.id;
            id in OwnersIn(s.queue, KeysOf(batch)) && id in s.events && batch[k].key == MainKey(s.events[id])
  {
    var key, id := batch[k].key, batch[k].owner.id;
    assert key in KeysOf(batch) && key in s.queue && s.queue[key].owner == Conn(id);
    InvGivesLiveOwners(s, key);
    InvGivesOneEnabled(s, id);
  }

  lemma {:induction false} BatchRemains(s: State, batch: seq<Kevent>, stamps: map<nat, Timeval>, start: int)
    requires Inv(s) && BatchOf(s, batch) && s.changes == []
    ensures Remaining(Batched(s, KeysOf(batch), stamps, start), batch, 0)
  {
    hide Inv, OwnersIn, KeysOf;
    forall k | 0 <= k < |batch| && batch[k].owner.Conn?
      ensures var id := batch[k].owner.id;
              id in OwnersIn(s.queue, KeysOf(batch)) && id in s.events && batch[k].key == MainKey(s.events[id])
    {
      EntryRemains(s, batch, k);
    }
  }

  /** After the changes are in and the descriptors closed, the batch is still one. */
  lemma {:induction false} BatchSurvives(s: State, batch: seq<Kevent>, stamps: map<nat, Timeval>, start: int)
    requires Inv(s) && BatchOf(s, batch) && CanPoll(s, KeysOf(batch), stamps, start)
    ensures var t := FdsClosed(Flushed(s));
            Inv(t) && t.changes == [] && t.todo == {} && BatchOf(t, batch) && CanPoll(t, KeysOf(batch), stamps, start)
  {
    FlushKeepsInv(s);
    ClearKeepsInv(Flushed(s));
  }
}
