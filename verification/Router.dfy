/** The router: its virtual servers, and the turns of its main loop. */
module Router {
  import opened Kernel
  import opened Timeout
  import opened EventModel
  import opened EventSafety
  import opened EventRuns
  import opened EventHandler
  import opened VirtualServer

  /** What a turn is given by the environment. */
  ghost predicate MayTurn(s: State, batch: seq<Kevent>, stamps: map<nat, Timeval>, start: int, base: nat -> Timeval,
                          now: nat -> Timeval, answer: (State, nat) -> Input) {
    && Returns(s, batch, stamps, start)
    && (forall i :: 0 <= i < |batch| ==> Timely(base(i), now(i), start))
    && Obliging(answer)
  }

  class Router {
    const handler: EventHandler
    const virtualServers: seq<VirtualServer>

    /** The servers are those that requests are given to, each at its place. */
    ghost predicate Valid() {
      && |virtualServers| == |handler.servers.infos| && virtualServers != []
      && forall i :: 0 <= i < |virtualServers| ==>
           && virtualServers[i].handler == handler && virtualServers[i].serverId == i
           && virtualServers[i].info == handler.servers.infos[i]
    }

    constructor (handler: EventHandler)
      requires handler.servers.infos != []
      ensures Valid() && this.handler == handler
    {
      var infos := handler.servers.infos;
      var servers: seq<VirtualServer> := [];
      for id := 0 to |infos|
        invariant |servers| == id
        invariant forall i :: 0 <= i < id ==>
                    servers[i].handler == handler && servers[i].serverId == i && servers[i].info == infos[i]
      {
        var server := new VirtualServer(id, infos[id], handler);
        servers := servers + [server];
      }
      this.handler := handler;
      virtualServers := servers;
    }

    /** One turn of the loop: a batch is routed, and every server has its turn. Whatever
        was handed out has then been served, so the next turn can begin. An entry without
        an event is met exactly when a change made in the turn before fails. */
    method Turn(batch: seq<Kevent>, stamps: map<nat, Timeval>, start: int, base: nat -> Timeval,
                refused: nat -> bool, now: nat -> Timeval, idle: Timeval, routing: nat -> Routing, answer: (State, nat) -> Input)
      returns (thrown: Thrown)
      requires Valid() && Inv(handler.View()) && AllHoused(handler.events, handler.servers.infos)
      requires MayTurn(handler.View(), batch, stamps, start, base, now, answer)
      modifies handler, handler.d
      ensures thrown == NullEvent <==> !Finds(old(handler.queue), old(handler.changeList))
      ensures thrown == NotThrown ==>
                Inv(handler.View()) && AllHoused(handler.events, handler.servers.infos) && handler.todo == {}
    {
      hide Inv, Handed, Allowed, AllHoused, Returns, Timely, Finds;
      thrown := handler.RouteEvents(batch, stamps, start, base, refused, now, idle, routing);
      if thrown != NotThrown {
        return;
      }
      ghost var served: set<int> := {};
      for i := 0 to |virtualServers|
        invariant thrown == NotThrown && Inv(handler.View()) && AllHoused(handler.events, handler.servers.infos)
        invariant Handed(handler.View(), handler.routedEvents, served, -1, 0)
        invariant forall u :: u in served <==> 0 <= u < i
        invariant forall u :: u in handler.routedEvents ==> 0 <= u < |virtualServers|
        invariant AwaitFrom(handler.todo, handler.routedEvents, i)
      {
        ghost var todo := handler.todo;
        FromTheFirst(handler.View(), handler.routedEvents, served, i);
        thrown := virtualServers[i].Start(answer, served);
        if thrown != NotThrown {
          return;
        }
        served := served + {i};
        AwaitNext(todo, handler.todo, handler.routedEvents, i);
      }
    }
  }

  /** What is left to do was handed to server `i` or a later one. */
  ghost predicate AwaitFrom(todo: set<nat>, routed: map<int, seq<nat>>, i: int) {
    forall id :: id in todo ==> exists u, k :: u in routed && u >= i && 0 <= k < |routed[u]| && routed[u][k] == id
  }

  lemma {:induction false} AwaitNext(before: set<nat>, todo: set<nat>, routed: map<int, seq<nat>>, i: int)
    requires AwaitFrom(before, routed, i) && todo <= before
    requires i in routed ==> forall k :: 0 <= k < |routed[i]| ==> routed[i][k] !in todo
    ensures AwaitFrom(todo, routed, i + 1)
  {
    forall id | id in todo
      ensures exists u, k :: u in routed && u >= i + 1 && 0 <= k < |routed[u]| && routed[u][k] == id
    {
      var u, k :| u in routed && u >= i && 0 <= k < |routed[u]| && routed[u][k] == id;
      assert u != i;
    }
  }

  lemma {:induction false} FromTheFirst(s: State, routed: map<int, seq<nat>>, served: set<int>, t: int)
    requires Handed(s, routed, served, -1, 0)
    ensures Handed(s, routed, served, t, 0)
  {
  }
}
