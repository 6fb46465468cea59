/** The virtual servers as the event handler sees them: which of them a request is for. */
module Servers {
  import opened Config

  predicate Hosts(info: Server, port: int, name: string) {
    info.port == port && info.name == name
  }

  /** The first server from `i` on with the port and the name, if there is one. */
  function FirstHost(infos: seq<Server>, port: int, name: string, i: nat): (n: nat)
    requires i <= |infos|
    ensures i <= n <= |infos|
    decreases |infos| - i
  {
    if i == |infos| || Hosts(infos[i], port, name) then i else FirstHost(infos, port, name, i + 1)
  }

  function FirstAtPort(infos: seq<Server>, port: int, i: nat): (n: nat)
    requires i <= |infos|
    ensures i <= n <= |infos|
    decreases |infos| - i
  {
    if i == |infos| || infos[i].port == port then i else FirstAtPort(infos, port, i + 1)
  }

  function ServerFor(infos: seq<Server>, port: int, name: string): (id: nat)
    ensures infos != [] ==> id < |infos|
  {
    if FirstHost(infos, port, name, 0) < |infos| then FirstHost(infos, port, name, 0)
    else if FirstAtPort(infos, port, 0) < |infos| then FirstAtPort(infos, port, 0)
    else 0
  }

  lemma {:induction false} FirstHostIsFirst(infos: seq<Server>, port: int, name: string, i: nat)
    requires i <= |infos|
    ensures var n := FirstHost(infos, port, name, i);
            (forall k :: i <= k < n ==> !Hosts(infos[k], port, name)) && (n < |infos| ==> Hosts(infos[n], port, name))
    decreases |infos| - i
  {
    if i < |infos| && !Hosts(infos[i], port, name) {
      FirstHostIsFirst(infos, port, name, i + 1);
    }
  }

  lemma {:induction false} FirstAtPortIsFirst(infos: seq<Server>, port: int, i: nat)
    requires i <= |infos|
    ensures var n := FirstAtPort(infos, port, i);
            (forall k :: i <= k < n ==> infos[k].port != port) && (n < |infos| ==> infos[n].port == port)
    decreases |infos| - i
  {
    if i < |infos| && infos[i].port != port {
      FirstAtPortIsFirst(infos, port, i + 1);
    }
  }

  /** The first server with the port and the name, else the first with the port, else the
      first of all. */
  lemma {:induction false} ServerForExactly(infos: seq<Server>, port: int, name: string)
    ensures var id := ServerFor(infos, port, name);
            && ((exists i :: 0 <= i < |infos| && Hosts(infos[i], port, name)) ==>
                  id < |infos| && Hosts(infos[id], port, name) && forall i :: 0 <= i < id ==> !Hosts(infos[i], port, name))
            && ((forall i :: 0 <= i < |infos| ==> !Hosts(infos[i], port, name)) ==>
                  if forall i :: 0 <= i < |infos| ==> infos[i].port != port then id == 0
                  else id < |infos| && infos[id].port == port && forall i :: 0 <= i < id ==> infos[i].port != port)
  {
    FirstHostIsFirst(infos, port, name, 0);
    FirstAtPortIsFirst(infos, port, 0);
  }

  class ServerList {
    const infos: seq<Server>

    constructor (infos: seq<Server>)
      ensures this.infos == infos
    {
      this.infos := infos;
    }

    method FindServerId(port: int, name: string) returns (id: nat)
      ensures id == ServerFor(infos, port, name)
    {
      for i := 0 to |infos|
        invariant FirstHost(infos, port, name, 0) == FirstHost(infos, port, name, i)
      {
        if infos[i].port == port && infos[i].name == name {
          return i;
        }
      }
      for i := 0 to |infos|
        invariant FirstAtPort(infos, port, 0) == FirstAtPort(infos, port, i)
      {
        if infos[i].port == port {
          return i;
        }
      }
      return 0;
    }
  }
}
