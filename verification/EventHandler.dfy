/** The event handler: pending changes, live connections, and the routing of a batch. */
module EventHandler {
  import opened RequestModel
  import opened Kernel
  import opened Servers
  import Config
  import opened Timeout
  import opened EventModel
  import opened EventSafety
  import opened EventRuns

  predicate IsIdle(e: Event, base: Timeval) {
    e.kind.RequestReadable? && Stale(base, e.stamp)
  }

  /** Events have gone only if they were idle, and none has changed. */
  predicate KeptOthers(before: map<nat, Event>, events: map<nat, Event>, base: Timeval) {
    && (forall id :: id in events ==> id in before && events[id] == before[id])
    && (forall id :: id in before && !IsIdle(before[id], base) ==> id in events)
  }

  function IdleOnes(events: map<nat, Event>, base: Timeval): set<nat> {
    set id | id in events && IsIdle(events[id], base)
  }

  lemma {:induction false} OneLessIdle(before: map<nat, Event>, events: map<nat, Event>, id: nat, base: Timeval)
    requires KeptOthers(before, events, base) && id in IdleOnes(events, base)
    ensures KeptOthers(before, events - {id}, base)
    ensures IdleOnes(events - {id}, base) == IdleOnes(events, base) - {id}
  {
  }

  /** The next element of a set of events; their order does not matter. */
  method First(v: set<nat>) returns (id: nat)
    requires v != {}
    ensures id in v
  {
    id :| id in v;
  }

  /** The changes register just these sockets, each to be read from. */
  ghost predicate Listening(sockets: seq<int>, changes: seq<Change>) {
    && (forall c :: c in changes ==> c.flag.Add? && c.key.fd in sockets)
    && (forall key :: key in Applied(map[], changes) <==> key.filter == Reading && key.fd in sockets)
    && (forall key :: key in Applied(map[], changes) ==>
          Applied(map[], changes)[key] == Registration(true, Listener(key.fd)))
  }

  lemma {:induction false} NoneListening()
    ensures Listening([], [])
  {
  }

  lemma {:induction false} ListeningStarts(sockets: seq<int>, s: State)
    requires Listening(sockets, s.changes) && s.listeners == set i | 0 <= i < |sockets| :: sockets[i]
    requires s.lost == {} && s.events == map[] && s.queue == map[] && s.closing == {} && s.todo == {}
    requires forall i :: 0 <= i < |sockets| ==> sockets[i] in s.open
    ensures Starting(s)
  {
  }

  lemma {:induction false} ListeningMore(sockets: seq<int>, changes: seq<Change>, fd: int)
    requires Listening(sockets, changes)
    ensures Listening(sockets + [fd], changes + [Ch(fd, Reading, Add, Listener(fd))])
  {
    AppliedMore(map[], changes, Ch(fd, Reading, Add, Listener(fd)));
  }

  class EventHandler {
    var events: map<nat, Event>
    const listeners: set<int>
    var queue: Queue
    var changeList: seq<Change>
    const d: Descriptors
    const servers: ServerList
    var routedEvents: map<int, seq<nat>>
    // What is left of the current batch, and when its stamping began.
    var todo: set<nat>
    var since: int
    // What is left registered of events that are gone.
    var lost: set<Key>

    function View(): State
      reads this, d
    {
      State(events, listeners, queue, changeList, d.open, d.closing, d.trash, todo, since, lost, servers.infos)
    }

    /** One listening socket for each port, to be watched for connections. */
    constructor (d: Descriptors, servers: ServerList, sockets: seq<int>)
      requires d.closing == {} && forall i :: 0 <= i < |sockets| ==> sockets[i] in d.open
      ensures this.d == d && this.servers == servers && Starting(View()) && routedEvents == map[]
      ensures listeners == set i | 0 <= i < |sockets| :: sockets[i]
    {
      events, queue, routedEvents, todo, since := map[], map[], map[], {}, 0;
      this.d, this.servers := d, servers;
      listeners := set i | 0 <= i < |sockets| :: sockets[i];
      changeList := [];
      lost := {};
      new;
      hide Listening, Starting, Pending;
      NoneListening();
      var n := 0;
      assert sockets[..n] == [];
      while n < |sockets|
        invariant n <= |sockets|
        invariant events == map[] && queue == map[] && todo == {} && routedEvents == map[] && lost == {}
        invariant Listening(sockets[..n], changeList)
      {
        ListeningMore(sockets[..n], changeList, sockets[n]);
        AppendNewEventToChangeList(sockets[n], Reading, Add, Listener(sockets[n]));
        n := n + 1;
        assert sockets[..n] == sockets[..n - 1] + [sockets[n - 1]];
      }
      assert sockets[..n] == sockets;
      ListeningStarts(sockets, View());
    }

    method AppendNewEventToChangeList(ident: int, filter: Filter, flag: Flag, owner: Owner)
      modifies this`changeList
      ensures changeList == old(changeList) + [Ch(ident, filter, flag, owner)]
    {
      changeList := changeList + [Ch(ident, filter, flag, owner)];
    }

    /** `close`, which also drops what was registered for the descriptor. */
    method Close(fd: int)
      modifies this`queue, d`open
      ensures d.open == old(d.open) - {fd} && queue == Without(old(queue), {fd})
    {
      d.open := d.open - {fd};
      queue := Without(queue, {fd});
    }

    method RemoveConnection(id: nat)
      requires id in events
      modifies this`events, this`queue, this`changeList, this`todo, d
      ensures View() == Act(old(View()), id, Removal(old(events[id])), {}, {})
    {
      var e := events[id];
      Close(e.clientFd);
      match e.kind {
        case RequestUpload =>
          d.closing := d.closing + {e.toSendFd};
          AppendNewEventToChangeList(e.toSendFd, Writing, Delete, Nobody);
        case ResponseDownload =>
          d.closing := d.closing + {e.toRecvFd};
          AppendNewEventToChangeList(e.toRecvFd, Reading, Delete, Nobody);
        case _ =>
      }
      events := events - {id};
      todo := todo - {id};
      assert changeList == old(changeList) + Removal(e).changes;
      assert d.closing == old(d.closing) + Removal(e).closing + {};
    }

    /** `accept` hands out any descriptor that is not open, or fails. */
    method AddConnection(id: nat, refused: bool, now: Timeval) returns (thrown: Thrown)
      requires id !in events
      modifies this`events, this`changeList, d`open
      ensures thrown == FailsIf(refused)
      ensures refused ==> View() == old(View())
      ensures !refused ==>
                events.Keys == old(events.Keys) + {id} && var fd := events[id].clientFd;
                fd >= 0 && fd !in old(d.open) && View() == Accepted(old(View()), id, fd, now)
    {
      if refused {
        return CallFailed;
      }
      thrown := NotThrown;
      var fd := d.Open();
      AppendNewEventToChangeList(fd, Reading, Add, Conn(id));
      AppendNewEventToChangeList(fd, Writing, Add, Conn(id));
      AppendNewEventToChangeList(fd, Writing, Disable, Conn(id));
      events := events[id := NewEvent(fd, now)];
    }

    method RemoveIdle(id: nat, ghost base: Timeval)
      requires Inv(View()) && CanSweep(View(), id, base)
      modifies this`events, this`queue, this`changeList, this`todo, d
      ensures Inv(View()) && events == old(events) - {id} && todo == old(todo) && changeList == old(changeList)
    {
      SweepKeepsInv(View(), id, base);
      RemoveConnection(id);
    }

    /** Removes the idle connections that wait for a request, and no others. */
    method CheckConnectionTimeout(base: Timeval)
      requires Inv(View())
      requires (todo == {} && changeList == []) || Micros(base) - since <= (CONNECTION_TIMEOUT_MILISEC - 1) * 1000
      modifies this`events, this`queue, this`changeList, this`todo, d
      ensures Inv(View()) && todo == old(todo) && changeList == old(changeList)
      ensures KeptOthers(old(events), events, base)
      ensures IdleOnes(events, base) == {}
    {
      var v := IdleOnes(events, base);
      while v != {}
        invariant v == IdleOnes(events, base)
        invariant KeptOthers(old(events), events, base)
        invariant Inv(View()) && todo == old(todo) && changeList == old(changeList)
        decreases |v|
      {
        var id := First(v);
        OneLessIdle(old(events), events, id, base);
        RemoveIdle(id, base);
        v := v - {id};
      }
    }

    method RouteRecvEvent(id: nat, x: Routing)
      requires Inv(View()) && CanRoute(View(), id, x) && !x.eof
      requires events[id].kind.RequestReadable? || events[id].kind.CgiReadable?
      modifies this`events, this`queue, this`changeList, this`todo, this`routedEvents, this`lost, d
      ensures View() == Routed(old(View()), id, x)
      ensures routedEvents == if id in todo && id in events then Pushed(old(routedEvents), events[id].serverId, id)
                              else old(routedEvents)
    {
      hide Inv, ReceiveTimed, ServerFor, Coupled;
      var e := events[id];
      var broken, ended := x.verdict.Lacking?, x.verdict.Given?;
      if e.kind.RequestReadable? {
        e := e.(req := ReceiveTimed(e.req, x.piece, x.late));
        broken, ended := IsRecvError(e.req), IsParsingEnd(e.req.state);
      }
      if broken {
        RemoveConnection(id);
        if e.kind.CgiReadable? {
          lost := lost + {Key(e.toRecvFd, Reading)};
        }
        return;
      }
      if ended {
        if e.kind.RequestReadable? && e.serverId == -1 {
          var serverId := servers.FindServerId(e.req.head.hostPort, e.req.head.hostName);
          e := e.(serverId := serverId);
        }
        events := events[id := e];
        routedEvents := Pushed(routedEvents, e.serverId, id);
      } else {
        events := events[id := e];
        todo := todo - {id};
      }
      if e.kind.CgiReadable? {
        assert events == old(events);
      }
    }

    /** A connection whose socket is ready, or whose file is. */
    method RouteEvent(id: nat, x: Routing)
      requires Inv(View()) && CanRoute(View(), id, x)
      modifies this`events, this`queue, this`changeList, this`todo, this`routedEvents, this`lost, d
      ensures View() == Routed(old(View()), id, x)
      ensures routedEvents == if id in todo && id in events then Pushed(old(routedEvents), events[id].serverId, id)
                              else old(routedEvents)
    {
      if x.eof {
        RemoveConnection(id);
        return;
      }
      match events[id].kind {
        case RequestReadable => RouteRecvEvent(id, x);
        case CgiReadable => RouteRecvEvent(id, x);
        case _ => routedEvents := Pushed(routedEvents, events[id].serverId, id);
      }
    }

    /** An event is identified by an address that no live event has. */
    method NewId() returns (id: nat)
      ensures id !in events
    {
      id := 0;
      ghost var seen: set<nat> := {};
      while id in events
        invariant seen <= events.Keys && (forall i :: i in seen <==> 0 <= i < id)
        decreases |events.Keys - seen|
      {
        seen := seen + {id};
        id := id + 1;
      }
    }

    /** One wait for events: what is pending is applied, what was put aside is closed,
        and every event of the batch is routed once, while it is live. For entry `i` of
        the batch, if it is a listening socket's, `base(i)` is the stamp of that socket,
        `refused(i)` says whether the accept fails and `now(i)` is its time; `idle` is the
        time when nothing was ready. */
    method RouteEvents(batch: seq<Kevent>, stamps: map<nat, Timeval>, start: int, base: nat -> Timeval,
                       refused: nat -> bool, now: nat -> Timeval, idle: Timeval, routing: nat -> Routing)
      returns (thrown: Thrown)
      requires Inv(View()) && Returns(View(), batch, stamps, start) && AllHoused(events, servers.infos)
      requires forall i :: 0 <= i < |batch| ==> Timely(base(i), now(i), start)
      requires servers.infos != []
      modifies this, d
      ensures thrown == if !Finds(old(queue), old(changeList)) then NullEvent else FailsIf(AcceptFails(batch, refused))
      ensures Inv(View()) && AllHoused(events, servers.infos)
      ensures thrown == NotThrown ==>
                && Handed(View(), routedEvents, {}, -1, 0) && AtItsHost(View(), routedEvents)
                && (forall id :: id in todo ==> IsHanded(routedEvents, id))
                && (forall u :: u in routedEvents ==> 0 <= u < |servers.infos|)
    {
      hide Inv, BatchOf, CanPoll, Handed, Remaining, NoneLost, IsHanded, Housed, Timely, HasNull, Finds, AcceptFails, ServerFor;
      ghost var s := View();
      FlushKeepsInv(s);
      NullExactly(s, batch, stamps, start);
      thrown := NotThrown;
      if !HasNull(batch) {
        BatchSurvives(s, batch, stamps, start);
      }
      ApplyChanges();
      if batch == [] {
        CheckConnectionTimeout(idle);
        ClearKeepsInv(View());
        NothingIsHanded(FdsClosed(View()));
        NoAcceptFails(refused);
      } else {
        ClearKeepsInv(View());
      }
      ClearFileFds();
      if HasNull(batch) {
        return NullEvent;
      }
      if batch != [] {
        BatchKeepsInv(View(), KeysOf(batch), stamps, start);
        BatchRemains(View(), batch, stamps, start);
        AllAreAhead(View(), batch, stamps, start);
        StampingKeepsHoused(events, stamps, servers.infos);
        UpdateEventsTimestamp(KeysOf(batch), stamps, start);
        thrown := RouteBatch(batch, base, refused, now, routing);
        if thrown == NotThrown {
          HandedToHost(View(), routedEvents);
        }
      }
    }

    method ApplyChanges()
      modifies this`queue, this`changeList, this`todo, this`routedEvents
      ensures View() == Flushed(old(View())) && routedEvents == map[]
    {
      queue := Applied(queue, changeList);
      changeList := [];
      routedEvents := map[];
      todo := {};
    }

    method ClearFileFds()
      modifies this`queue, d
      ensures View() == FdsClosed(old(View()))
    {
      queue := Without(queue, d.closing);
      d.open := d.open - d.closing;
      d.closing := {};
    }

    method UpdateEventsTimestamp(keys: set<Key>, stamps: map<nat, Timeval>, start: int)
      modifies this`events, this`todo, this`since
      ensures View() == Batched(old(View()), keys, stamps, start)
    {
      events := Stamped(events, stamps);
      todo := OwnersIn(queue, keys);
      since := start;
    }

    /** A client is accepted, after the idle connections have been swept. */
    method RouteListener(base: Timeval, refused: bool, now: Timeval) returns (thrown: Thrown)
      requires Inv(View()) && Timely(base, now, since)
      modifies this`events, this`queue, this`changeList, this`todo, d
      ensures thrown == FailsIf(refused)
      ensures Inv(View()) && todo == old(todo)
      ensures forall id :: id in todo ==> id in events && events[id] == old(events)[id]
      ensures forall id :: id in events ==>
                (id in old(events) && events[id] == old(events)[id]) || exists fd :: events[id] == NewEvent(fd, now)
    {
      hide Inv;
      ghost var before := View();
      BatchIsRecent(before, base);
      CheckConnectionTimeout(base);
      var id := NewId();
      ghost var s := View();
      thrown := AddConnection(id, refused, now);
      if thrown == NotThrown {
        var fd := events[id].clientFd;
        assert events[id] == NewEvent(fd, now);
        AcceptKeepsInv(s, id, fd, now);
      }
    }

    method RouteBatch(batch: seq<Kevent>, base: nat -> Timeval, refused: nat -> bool, now: nat -> Timeval,
                      routing: nat -> Routing) returns (thrown: Thrown)
      requires Inv(View()) && Remaining(View(), batch, 0) && routedEvents == map[] && NoneLost(todo, map[], batch, 0)
      requires forall j, k :: 0 <= j < k < |batch| ==> batch[j].key != batch[k].key
      requires forall i :: 0 <= i < |batch| ==> Timely(base(i), now(i), since)
      requires AllHoused(events, servers.infos)
      requires servers.infos != []
      modifies this`events, this`queue, this`changeList, this`todo, this`routedEvents, this`lost, d
      ensures thrown == FailsIf(AcceptFails(batch, refused))
      ensures Inv(View()) && AllHoused(events, servers.infos)
      ensures thrown == NotThrown ==>
                && Handed(View(), routedEvents, {}, -1, 0)
                && (forall id :: id in todo ==> IsHanded(routedEvents, id))
                && (forall u :: u in routedEvents ==> 0 <= u < |servers.infos|)
    {
      thrown := NotThrown;
      hide Inv, Routed, CanRoute, Timely, Housed;
      NothingIsHanded(View());
      for i := 0 to |batch|
        invariant Inv(View()) && Remaining(View(), batch, i)
        invariant Handed(View(), routedEvents, {}, -1, 0) && NotHanded(routedEvents, batch, i)
        invariant NoneLost(todo, routedEvents, batch, i)
        invariant AllHoused(events, servers.infos) && forall u :: u in routedEvents ==> 0 <= u < |servers.infos|
        invariant thrown == NotThrown && forall j :: 0 <= j < i && batch[j].owner.Listener? ==> !refused(j)
      {
        ghost var s := View();
        match batch[i].owner {
          case Listener(_) =>
            thrown := RouteListener(base(i), refused(i), now(i));
            NewIsHoused(s.events, events, now(i), servers.infos);
            if thrown != NotThrown {
              return;
            }
            ListenerStep(s, View(), batch, i, routedEvents);
            NoneIsHidden(todo, routedEvents, batch, i);
          case Nobody =>
            NoneIsHidden(todo, routedEvents, batch, i);
          case Conn(id) =>
            var x := routing(id).(eof := batch[i].eof);
            BatchStep(s, batch, i, id, x, routedEvents);
            RouteKeepsHoused(s, id, x);
            RouteEvent(id, x);
            if id in todo {
              HandedIsHoused(View(), id);
            }
        }
      }
    }
  }

  /** The accept fails for some listening socket of the batch. */
  predicate AcceptFails(batch: seq<Kevent>, refused: nat -> bool) {
    exists i :: 0 <= i < |batch| && batch[i].owner.Listener? && refused(i)
  }

  lemma {:induction false} NoAcceptFails(refused: nat -> bool)
    ensures !AcceptFails([], refused)
  {
  }

  lemma {:induction false} BatchIsRecent(s: State, base: Timeval)
    requires Inv(s) && Micros(base) - s.since <= (CONNECTION_TIMEOUT_MILISEC - 1) * 1000
    ensures forall id :: id in s.todo ==> id in s.events && !IsIdle(s.events[id], base)
  {
    forall id | id in s.todo ensures id in s.events && !IsIdle(s.events[id], base) {
      RecentIsNotStale(base, s.events[id].stamp, s.since);
    }
  }

  /** A sweep from `base` and an accept at `now` in a batch stamped from `start` on. */
  predicate Timely(base: Timeval, now: Timeval, start: int) {
    Micros(now) >= start && Micros(base) - start <= (CONNECTION_TIMEOUT_MILISEC - 1) * 1000
  }

  lemma {:induction false} NewIsHoused(before: map<nat, Event>, events: map<nat, Event>, now: Timeval, hosts: seq<Config.Server>)
    requires AllHoused(before, hosts)
    requires forall id :: id in events ==>
               (id in before && events[id] == before[id]) || exists fd :: events[id] == NewEvent(fd, now)
    ensures AllHoused(events, hosts)
  {
    forall id | id in events ensures Housed(events[id], hosts) {
      if id !in before || events[id] != before[id] {
        var fd :| events[id] == NewEvent(fd, now);
      }
    }
  }

  lemma {:induction false} StampingKeepsHoused(events: map<nat, Event>, stamps: map<nat, Timeval>, hosts: seq<Config.Server>)
    requires AllHoused(events, hosts)
    ensures AllHoused(Stamped(events, stamps), hosts)
  {
  }
}
