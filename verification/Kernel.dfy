/** What the server asks of the operating system: descriptors and the event queue. */
module Kernel {

  datatype Filter = Reading | Writing

  /** Whose registration it is: a listening socket's, a connection's, or nobody's. */
  datatype Owner = Listener(fd: int) | Conn(id: nat) | Nobody

  datatype Key = Key(fd: int, filter: Filter)

  datatype Registration = Registration(enabled: bool, owner: Owner)

  type Queue = map<Key, Registration>

  datatype Flag = Add | Delete | Enable | Disable

  datatype Change = Change(key: Key, flag: Flag, owner: Owner)

  /** The effect of one change. Changing what is not registered fails and leaves the
      queue as it is. */
  function Changed(queue: Queue, c: Change): Queue {
    match c.flag
    case Add => queue[c.key := Registration(true, c.owner)]
    case Delete => queue - {c.key}
    case Enable => if c.key in queue then queue[c.key := Registration(true, c.owner)] else queue
    case Disable => if c.key in queue then queue[c.key := Registration(false, c.owner)] else queue
  }

  function Applied(queue: Queue, changes: seq<Change>): Queue
    decreases |changes|
  {
    if changes == [] then queue
    else Changed(Applied(queue, changes[..|changes| - 1]), changes[|changes| - 1])
  }

  /** Change `i` fails, for its registration is not there when its turn comes. */
  predicate Misses(queue: Queue, changes: seq<Change>, i: nat) {
    i < |changes| && !changes[i].flag.Add? && changes[i].key !in Applied(queue, changes[..i])
  }

  /** No change fails. */
  ghost predicate Finds(queue: Queue, changes: seq<Change>) {
    forall i :: 0 <= i < |changes| ==> !Misses(queue, changes, i)
  }

  /** A change that fails is reported as an entry of the next batch, with the `udata` it
      came with; these have none. */
  ghost predicate OnlyNobodys(queue: Queue, changes: seq<Change>) {
    forall i :: 0 <= i < |changes| && Misses(queue, changes, i) ==> changes[i].owner == Nobody
  }

  /** Closing a descriptor drops its registrations. */
  function Without(queue: Queue, fds: set<int>): Queue {
    map key | key in queue && key.fd !in fds :: queue[key]
  }

  lemma {:induction false} AppliedMore(queue: Queue, changes: seq<Change>, c: Change)
    ensures Applied(queue, changes + [c]) == Changed(Applied(queue, changes), c)
  {
    assert (changes + [c])[..|changes|] == changes;
  }

  /** Closing commutes with pending changes that do not mention the descriptor. */
  lemma {:induction false} CloseCommutes(queue: Queue, changes: seq<Change>, fds: set<int>)
    requires forall c :: c in changes ==> c.key.fd !in fds
    ensures Applied(Without(queue, fds), changes) == Without(Applied(queue, changes), fds)
    decreases |changes|
  {
    if changes != [] {
      CloseCommutes(queue, changes[..|changes| - 1], fds);
      assert changes[|changes| - 1] in changes;
    }
  }

  lemma {:induction false} AppliedThen(queue: Queue, first: seq<Change>, second: seq<Change>)
    ensures Applied(queue, first + second) == Applied(Applied(queue, first), second)
    decreases |second|
  {
    if second == [] {
      assert first + second == first;
    } else {
      var front, last := second[..|second| - 1], second[|second| - 1];
      assert first + second == (first + front) + [last] && second == front + [last];
      AppliedMore(queue, first + front, last);
      AppliedThen(queue, first, front);
      AppliedMore(Applied(queue, first), front, last);
    }
  }

  /** Whether a change fails depends on what comes before it alone. */
  lemma {:induction false} MissesMore(queue: Queue, first: seq<Change>, second: seq<Change>, i: nat)
    requires i < |first + second|
    ensures Misses(queue, first + second, i)
       <==> if i < |first| then Misses(queue, first, i) else Misses(Applied(queue, first), second, i - |first|)
  {
    if i < |first| {
      assert (first + second)[..i] == first[..i];
    } else {
      assert (first + second)[..i] == first + second[..i - |first|];
      AppliedThen(queue, first, second[..i - |first|]);
    }
  }

  lemma {:induction false} FindsMore(queue: Queue, first: seq<Change>, second: seq<Change>)
    ensures Finds(queue, first + second) <==> Finds(queue, first) && Finds(Applied(queue, first), second)
    ensures OnlyNobodys(queue, first + second) <==> OnlyNobodys(queue, first) && OnlyNobodys(Applied(queue, first), second)
  {
    hide Misses, Applied;
    var all := first + second;
    forall i: nat | i < |all|
      ensures Misses(queue, all, i)
         <==> if i < |first| then Misses(queue, first, i) else Misses(Applied(queue, first), second, i - |first|)
    {
      MissesMore(queue, first, second, i);
    }
    forall j: nat | j < |second|
      ensures Misses(queue, all, |first| + j) <==> Misses(Applied(queue, first), second, j)
      ensures all[|first| + j] == second[j]
    {
    }
  }

  /** Closing a descriptor makes no change fail that does not mention it. */
  lemma {:induction false} FindsAfterClose(queue: Queue, changes: seq<Change>, fds: set<int>)
    requires forall c :: c in changes ==> c.key.fd !in fds
    ensures Finds(Without(queue, fds), changes) <==> Finds(queue, changes)
    ensures OnlyNobodys(Without(queue, fds), changes) <==> OnlyNobodys(queue, changes)
  {
    forall i: nat | i < |changes|
      ensures Misses(Without(queue, fds), changes, i) <==> Misses(queue, changes, i)
    {
      CloseCommutes(queue, changes[..i], fds);
      assert changes[i] in changes;
    }
  }

  predicate IsAbove(fd: int, fds: set<int>) {
    fd >= 0 && forall i :: i in fds ==> i < fd
  }

  lemma {:induction false} AnyOf<T>(all: set<T>) returns (one: T)
    requires all != {}
    ensures one in all
  {
    one :| one in all;
  }

  lemma {:induction false} SomeIsAbove(fds: set<int>)
    ensures exists fd :: IsAbove(fd, fds)
  {
    if fds == {} {
      assert IsAbove(0, fds);
    } else {
      var one := AnyOf(fds);
      SomeIsAbove(fds - {one});
      var fd :| IsAbove(fd, fds - {one});
      var up := if one < fd then fd else one + 1;
      assert forall i :: i in fds ==> i == one || i in fds - {one};
      assert IsAbove(up, fds);
    }
  }

  /** A descriptor above all that are open. */
  ghost function Above(fds: set<int>): (fd: int)
    ensures IsAbove(fd, fds)
  {
    SomeIsAbove(fds);
    var fd :| IsAbove(fd, fds);
    fd
  }

  /** The descriptors that are open, and those waiting to be closed; and whether the
      file that all bodies are flushed to is there. */
  class Descriptors {
    var open: set<int>
    var closing: set<int>
    var trash: bool

    constructor ()
      ensures open == {} && closing == {}
    {
      open, closing := {}, {};
    }

    /** Opening the file that is flushed to makes it if it is not there. */
    method OpenTrash()
      modifies this`trash
      ensures trash
    {
      trash := true;
    }

    /** `unlink` fails when the file is gone. */
    method UnlinkTrash() returns (ok: bool)
      modifies this`trash
      ensures ok == old(trash) && !trash
    {
      ok := trash;
      trash := false;
    }

    /** `open` and `accept` hand out any descriptor that is not open. */
    method Open() returns (fd: int)
      modifies this`open
      ensures fd >= 0 && fd !in old(open) && open == old(open) + {fd}
    {
      fd := 0;
      ghost var seen: set<int> := {};
      while fd in open
        invariant fd >= 0 && seen <= open && (forall i :: i in seen <==> 0 <= i < fd)
        decreases |open - seen|
      {
        seen := seen + {fd};
        fd := fd + 1;
      }
      open := open + {fd};
    }

    /** `registerFileFdToClose`: once registered is as good as twice. */
    method RegisterToClose(fd: int)
      modifies this`closing
      ensures closing == if fd == -1 then old(closing) else old(closing) + {fd}
    {
      if fd != -1 {
        closing := closing + {fd};
      }
    }
  }
}
