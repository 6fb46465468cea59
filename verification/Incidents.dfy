/** Runs that a client or a CGI program can bring about, and where they end: a dangling
    registration, a throw that nothing catches, an entry without an event, a file that
    is gone. */
module Incidents {
  import opened Text
  import opened Storage
  import opened RequestModel
  import opened ResponseModel
  import opened ResponseFactory
  import opened CgiResponse
  import opened Segmentation
  import opened Agreement
  import opened Framing
  import opened HeadLines
  import opened Kernel
  import Config
  import opened Servers
  import opened Timeout
  import opened EventModel
  import opened EventSafety
  import opened EventRuns

  // ----------------------------------------------------------- going on

  lemma {:induction false} RunOn(s: State, actions: seq<Action>, a: Action)
    requires CanRun(s, actions) && Can(Ran(s, actions), a)
    ensures CanRun(s, actions + [a]) && Ran(s, actions + [a]) == Done(Ran(s, actions), a)
    decreases |actions|
  {
    hide Can, Done;
    if actions == [] {
      assert actions + [a] == [a] && [a][1..] == [];
      assert CanRun(Done(s, a), []);
    } else {
      assert (actions + [a])[1..] == actions[1..] + [a];
      RunOn(Done(s, actions[0]), actions[1..], a);
    }
  }

  /** A state that some run comes to. */
  ghost predicate Comes(s: State, t: State) {
    exists actions :: CanRun(s, actions) && Ran(s, actions) == t
  }

  lemma {:induction false} ComesNowhere(s: State)
    ensures Comes(s, s)
  {
    assert CanRun(s, []) && Ran(s, []) == s;
  }

  lemma {:induction false} ComesOn(s: State, t: State, a: Action)
    requires Starting(s) && Comes(s, t) && Can(t, a)
    ensures Comes(s, Done(t, a)) && Inv(t) && Inv(Done(t, a))
  {
    hide Inv, Can, Done, Starting;
    var actions :| CanRun(s, actions) && Ran(s, actions) == t;
    RunOn(s, actions, a);
    StartsWell(s);
    RunsKeepInv(s, actions);
    EveryActionKeepsInv(t, a);
  }

  /** A state that a run comes to, in which every pending change can be made. */
  ghost predicate Reached(s: State, t: State) {
    Starting(s) && Comes(s, t) && Inv(t) && Finds(t.queue, t.changes)
  }

  lemma {:induction false} StartIsReached(s: State)
    requires Starting(s)
    ensures Reached(s, s)
  {
    hide Finds;
    ComesNowhere(s);
    StartsWell(s);
    StartFinds(s);
  }

  lemma {:induction false} GoOn(s: State, t: State, a: Action)
    requires Reached(s, t) && Can(t, a) && !LosesSource(t, a)
    ensures Reached(s, Done(t, a))
  {
    hide Inv, Can, Done, Starting, Finds, LosesSource;
    ComesOn(s, t, a);
    EveryActionFinds(t, a);
  }

  /** What else `t` and `p` have in common. */
  predicate SameRest(t: State, p: State) {
    p.listeners == t.listeners && p.closing == t.closing && p.trash == t.trash && p.since == t.since
    && p.hosts == t.hosts
  }

  lemma {:induction false} AcceptOne(s: State, t: State, id: nat, fd: int, now: Timeval) returns (p: State)
    requires Reached(s, t) && CanAccept(t, id, fd, now)
    ensures Reached(s, p) && p.events == t.events[id := NewEvent(fd, now)] && SameRest(t, p)
    ensures p.open == t.open + {fd} && p.todo == t.todo
  {
    hide Reached;
    p := Done(t, Accept(id, fd, now));
    GoOn(s, t, Accept(id, fd, now));
  }

  // ------------------------------------------------ a poll that names all events

  function MainKeys(events: map<nat, Event>): set<Key> {
    set id | id in events :: MainKey(events[id])
  }

  function AllAt(events: map<nat, Event>, now: Timeval): map<nat, Timeval> {
    map id | id in events :: now
  }

  lemma {:induction false} AllFire(t: State)
    requires Inv(t)
    ensures forall key :: key in MainKeys(t.events) ==> key in Pending(t) && Pending(t)[key].enabled
    ensures OwnersIn(Pending(t), MainKeys(t.events)) == t.events.Keys
  {
    hide Inv, Pending, MainKey;
    forall id | id in t.events
      ensures MainKey(t.events[id]) in MainKeys(t.events)
      ensures MainKey(t.events[id]) in Pending(t) && Pending(t)[MainKey(t.events[id])] == Registration(true, Conn(id))
    {
      InvGivesOneEnabled(t, id);
    }
  }

  /** The registrations of all connections fire. */
  lemma {:induction false} PollAll(s: State, t: State, now: Timeval) returns (p: State)
    requires Reached(s, t)
    ensures Reached(s, p) && p.events.Keys == t.events.Keys && p.todo == t.events.Keys
    ensures forall id :: id in t.events ==> p.events[id] == t.events[id].(stamp := now)
    ensures p.open == t.open - t.closing && p.closing == {} && p.trash == t.trash && p.since == Micros(now) && p.hosts == t.hosts
  {
    hide Inv, Finds, Starting, Comes, Pending, Polled;
    var a := Poll(MainKeys(t.events), AllAt(t.events, now), Micros(now));
    AllFire(t);
    GoOn(s, t, a);
    p := Done(t, a);
    PolledAll(t, now);
  }

  lemma {:induction false} PolledAll(t: State, now: Timeval)
    requires Inv(t)
    ensures var p := Polled(t, MainKeys(t.events), AllAt(t.events, now), Micros(now));
            && p.events.Keys == t.events.Keys && p.todo == t.events.Keys
            && (forall id :: id in t.events ==> p.events[id] == t.events[id].(stamp := now))
            && p.open == t.open - t.closing && p.closing == {} && p.trash == t.trash && p.since == Micros(now) && p.hosts == t.hosts
  {
    hide Inv, Pending, MainKeys;
    AllFire(t);
    PolledOwners(t, MainKeys(t.events));
  }

  lemma {:induction false} PolledOwners(t: State, keys: set<Key>)
    requires Inv(t) && forall key :: key in keys ==> key in Pending(t)
    ensures OwnersIn(FdsClosed(Flushed(t)).queue, keys) == OwnersIn(Pending(t), keys)
  {
    FlushKeepsInv(t);
    ClosingIsNotRegistered(Flushed(t));
  }

  /** The server that a message is for. */
  function ServerOfMessage(hosts: seq<Config.Server>, message: string): int {
    var h := Receive(FRESH_REQUEST, Piece(message)).head;
    ServerFor(hosts, h.hostPort, h.hostName)
  }

  /** A request arrives whole. */
  lemma {:induction false} RouteOne(s: State, t: State, id: nat, message: string) returns (p: State)
    requires Reached(s, t) && id in t.todo && id in t.events && t.events[id].kind.RequestReadable?
    requires t.events[id].serverId == -1 && t.events[id].req == FRESH_REQUEST
    requires var q := Receive(FRESH_REQUEST, Piece(message)); !IsRecvError(q) && IsParsingEnd(q.state)
    ensures Reached(s, p) && p.todo == t.todo && p.open == t.open && SameRest(t, p)
    ensures p.events == t.events[id := t.events[id].(req := Receive(FRESH_REQUEST, Piece(message)),
                                                     serverId := ServerOfMessage(t.hosts, message))]
  {
    hide Reached, Receive;
    var x := Routing(false, Piece(message), Early, false);
    p := Done(t, Route(id, x));
    GoOn(s, t, Route(id, x));
  }

  /** Nothing fails, and each write takes one byte. */
  function Unfailing(t: State, acquired: set<int>, fd: int, reply: Reply, error: Reply, cgi: bool, now: Timeval): Input {
    Input(Moved(1), acquired, {}, fd, reply, error, 0, 0, cgi, false, now, NO_FAULTS, t.trash)
  }

  /** Some response. */
  function SomeReply(kind: ResponseType, state: SendingState, fd: int): Reply {
    Reply(NewResponse(kind, state, "x", "", 400, 0, fd), "", "")
  }

  lemma {:induction false} ServeIt(s: State, t: State, id: nat, x: Input, next: Event) returns (p: State)
    requires Reached(s, t) && Servable(t, id) && Coupled(t.events[id]) && Allowed(t, id, x)
    requires !ReadFails(t.events[id], x) && x.discarded == {}
    requires Serve(t.events[id], id, x).event == Some(next) && Serve(t.events[id], id, x).thrown == NotThrown
    ensures Reached(s, p) && p.events == t.events[id := next] && p.todo == t.todo - {id}
    ensures p.open == t.open + x.acquired && p.since == t.since
    ensures p.closing == t.closing + Serve(t.events[id], id, x).closing
    ensures p.trash == TrashAfter(t.trash, Serve(t.events[id], id, x).trash)
  {
    hide Reached, Serve, Allowed, Coupled;
    p := Done(t, ServeOne(id, x));
    GoOn(s, t, ServeOne(id, x));
  }

  lemma {:induction false} HeldOpen(s: State, t: State, id: nat)
    requires Reached(s, t) && id in t.events
    ensures Coupled(t.events[id]) && Fds(t.events[id]) <= t.open && t.events[id].clientFd in t.open
  {
    assert t.events[id].clientFd in Fds(t.events[id]);
  }

  // ------------------------------------------------------ what clients send

  /** A whole request, without a body. */
  function Bodiless(verb: string): string {
    Message(StartOf(verb, "/a", "HTTP/1.1"), [], "")
  }

  const GET_START := StartOf("GET", "/a", "HTTP/1.1")

  /** One whose first field has lost its CR. */
  const BROKEN_GET := GET_START + CRLF + ("x" + [LF])

  /** The request, once it is there, with its empty body still to be written. */
  predicate IsBodiless(q: Request, verb: Method) {
    && !IsRecvError(q) && q.state == UploadInit && q.head.verb == verb && !q.head.chunked
    && q.chunkSize == q.uploaded && q.Valid()
  }

  lemma StartIsRead(verb: string, named: Method)
    requires Word(verb) && Names(verb, named)
    ensures var start := StartOf(verb, "/a", "HTTP/1.1");
            && LF !in start && WellFormedStart(start + [CR]) && |start| == |verb| + 12
            && StartLine(EMPTY_HEAD, start + [CR]).verb == named
            && StartLine(EMPTY_HEAD, start + [CR]).contentLength == 0 && !StartLine(EMPTY_HEAD, start + [CR]).chunked
  {
    hide WellFormedStart, StartLine;
    StartIsReadBack(EMPTY_HEAD, verb, "/a", "HTTP/1.1");
  }

  lemma {:induction false} BodilessArrives(verb: string, named: Method)
    requires Word(verb) && |verb| < 10 && Names(verb, named)
    ensures IsBodiless(Receive(FRESH_REQUEST, Piece(Bodiless(verb))), named)
  {
    hide Receive, WellFormedStart, StartLine, Names;
    StartIsRead(verb, named);
    var r, start := FRESH_REQUEST, StartOf(verb, "/a", "HTTP/1.1");
    assert Bodiless(verb) == start + CRLF + CRLF;
    assert Cut([Bodiless(verb)]);
    FeedOne(r, Bodiless(verb));
    assert "" + "" == "" && r.held + Bodiless(verb) == Bodiless(verb);
    MeasuredArrives(r, [Bodiless(verb)], start, [], "", "");
    OnePiece(r, Bodiless(verb));
  }

  lemma {:induction false} BrokenFieldIsRefused(h: Head)
    ensures Fields(h, "x" + [LF]) == Scanned(h, "", Malformed)
  {
    assert "x" + [LF] == "x" + [LF] + "";
    LineAt("x", "");
  }

  lemma {:induction false} BrokenGetIsRefused()
    ensures var o := ScanStart(EMPTY_HEAD, BROKEN_GET, -1); o.state == BadRequest && o.head.verb == GET
  {
    hide WellFormedStart, StartLine, Fields;
    StartIsRead("GET", GET);
    CrLfLine(GET_START, "x" + [LF]);
    BrokenFieldIsRefused(StartLine(EMPTY_HEAD, GET_START + [CR]));
  }

  lemma {:induction false} BrokenGetArrives()
    ensures var q := Receive(FRESH_REQUEST, Piece(BROKEN_GET));
            !IsRecvError(q) && q.state == BadRequest && q.head.verb == GET && q.Valid()
  {
    hide ScanStart, Receive;
    StartIsRead("GET", GET);
    BrokenGetIsRefused();
    RefusedArrives(BROKEN_GET);
  }

  lemma {:induction false} RefusedArrives(message: string)
    requires 0 < |message| < READ_BUFFER_SIZE && ScanStart(EMPTY_HEAD, message, -1).state == BadRequest
    ensures var q := Receive(FRESH_REQUEST, Piece(message));
            !IsRecvError(q) && q.state == BadRequest && q.head == ScanStart(EMPTY_HEAD, message, -1).head && q.Valid()
  {
    hide ScanStart, Receive;
    OnePiece(FRESH_REQUEST, message);
    assert Holding(FRESH_REQUEST, message).Unread() == message;
  }

  /** The event of a client that has sent `message`. */
  function Sent(hosts: seq<Config.Server>, fd: int, now: Timeval, message: string): Event {
    NewEvent(fd, now).(req := Receive(FRESH_REQUEST, Piece(message)), serverId := ServerOfMessage(hosts, message))
  }

  /** Descriptors that may be handed out, one after the other. */
  predicate Unused(s: State, fds: seq<int>) {
    && (forall i :: 0 <= i < |fds| ==> fds[i] >= 0 && fds[i] !in s.open)
    && (forall i, j :: 0 <= i < j < |fds| ==> fds[i] != fds[j])
  }

  /** A client connects, and sends `message`. */
  lemma {:induction false} Connects(s: State, fd: int, now: Timeval, message: string) returns (t: State)
    requires Starting(s) && Unused(s, [fd]) && Micros(now) >= s.since
    requires var q := Receive(FRESH_REQUEST, Piece(message)); !IsRecvError(q) && IsParsingEnd(q.state)
    ensures Reached(s, t) && t.todo == {0} && t.open == s.open + {fd} && t.closing == {}
    ensures t.events == map[0 := Sent(s.hosts, fd, now, message)]
  {
    hide Reached, Receive;
    assert [fd][0] == fd;
    StartIsReached(s);
    var t1 := AcceptOne(s, s, 0, fd, now);
    var t2 := PollAll(s, t1, now);
    t := RouteOne(s, t2, 0, message);
  }

  /** A GET for a program is served: its body is to be written to the file `fd`. */
  lemma {:induction false} ServedToProgram(s: State, t: State, e: Event, fd: int, now: Timeval) returns (p: State)
    requires Reached(s, t) && t.events == map[0 := e] && t.todo == {0} && t.closing == {} && e.stamp == now
    requires e.kind.RequestReadable? && e.req.head.verb == GET && IsParsingEnd(e.req.state)
    requires Unused(t, [fd]) && e.clientFd >= 0
    ensures Reached(s, p) && p.todo == {0} && p.open == t.open + {fd} && p.closing == {}
    ensures p.events == map[0 := e.(kind := RequestUpload, toSendFd := fd)]
  {
    hide Reached, Allowed, Coupled, Serve;
    assert [fd][0] == fd && t.events[0] == e;
    var reply := SomeReply(TypeDel, SendingStorage, -1);
    var x, next := Unfailing(t, {fd}, fd, reply, reply, true, now), e.(kind := RequestUpload, toSendFd := fd);
    HeldOpen(s, t, 0);
    NotInOpen(e, t.open, fd);
    AllowedToProgram(t, 0, x, fd);
    p := ServeAndPoll(s, t, x, e, next, now);
    assert next.(stamp := now) == next;
  }

  /** The only event is served, and its next step is due. */
  lemma {:induction false} ServeAndPoll(s: State, t: State, x: Input, e: Event, next: Event, now: Timeval) returns (p: State)
    requires Reached(s, t) && t.events == map[0 := e] && Servable(t, 0) && Coupled(e) && Allowed(t, 0, x)
    requires !ReadFails(e, x) && x.discarded == {}
    requires Serve(e, 0, x).event == Some(next) && Serve(e, 0, x).thrown == NotThrown
    ensures Reached(s, p) && p.todo == {0} && p.closing == {} && p.events == map[0 := next.(stamp := now)]
    ensures p.open == t.open + x.acquired - t.closing - Serve(e, 0, x).closing
  {
    hide Reached, Serve, Allowed, Coupled;
    var t1 := ServeIt(s, t, 0, x, next);
    p := PollAll(s, t1, now);
    assert p.events[0] == next.(stamp := now);
  }

  lemma {:induction false} AllowedToProgram(t: State, id: nat, x: Input, fd: int)
    requires id in t.events && Coupled(t.events[id]) && fd !in Fds(t.events[id]) && fd !in t.open
    requires var e, reply := t.events[id], SomeReply(TypeDel, SendingStorage, -1);
             && e.kind.RequestReadable? && e.req.head.verb == GET && e.clientFd >= 0 && fd >= 0 && fd != e.clientFd
             && x == Unfailing(t, {fd}, fd, reply, reply, true, e.stamp)
    ensures Allowed(t, id, x)
    ensures Serve(t.events[id], id, x).event == Some(t.events[id].(kind := RequestUpload, toSendFd := fd))
    ensures Serve(t.events[id], id, x).thrown == NotThrown && Serve(t.events[id], id, x).closing == {}
  {
  }

  lemma {:induction false} NotInOpen(e: Event, open: set<int>, fd: int)
    requires Fds(e) <= open && fd !in open
    ensures fd !in Fds(e) && fd != e.clientFd
  {
    assert e.clientFd in Fds(e);
  }

  // ------------------------------------------------------------ incidents

  /** A program exits, and its answer is looked at until it is decided. If it is given up,
      its connection is removed, and the registration of its file stays, for an event that
      is gone. It is given up, if not left alone at the end of its file, whenever no blank
      line ends a complete header. */
  method UnendedAnswerDangles(answer: string, taking: (nat, nat) -> Io, atEnd: bool,
                              ghost s: State, ghost fds: seq<int>, ghost now: Timeval)
    returns (cgi: CgiResponse, ghost t: State, ghost x: Routing)
    requires |answer| <= INT_MAX && !Ends(CGI_START, answer)
    requires Starting(s) && Micros(now) >= s.since && |fds| == 3 && Unused(s, fds)
    ensures cgi.Judged() == Lacking || (cgi.Judged() == Early && !atEnd)
    ensures answer != "" && CgiFields(CGI_START, answer).out ==> cgi.Judged() == Lacking
    ensures cgi.Judged() == Lacking ==>
              && x.verdict == Lacking && Comes(s, t) && CanRoute(t, 0, x) && t.events[0].kind.CgiReadable?
              && var after, key := Routed(t, 0, x), Key(fds[2], Reading);
                 && Comes(s, after) && 0 !in after.events
                 && key in Registered(after) && Registered(after)[key] == Registration(true, Conn(0))
  {
    var early: nat;
    cgi, early := Watch(answer, taking, atEnd);
    t, x := s, Routing(false, RecvFailed, Lacking, false);
    if cgi.Judged() == Lacking {
      t, x := ProgramRuns(s, fds, now, early);
    }
  }

  /** Such an answer is not rare: a status line and no more. */
  lemma {:induction false} StatusAloneIsUnended()
    ensures CgiFields(CGI_START, STATUS_LINE + [LF]).out && !Ends(CGI_START, STATUS_LINE + [LF])
  {
    LookSplits(CGI_START, STATUS_LINE + [LF]);
    hide CgiField;
    assert STATUS_LINE + [LF] == STATUS_LINE + [LF] + "";
    LineAt(STATUS_LINE, "");
    FieldsStep(CGI_START, STATUS_LINE + [LF]);
    FieldsStep(CgiField(CGI_START, STATUS_LINE), "");
  }

  /** Another is decided at the second look: a blank line after the status, and whatever
      comes then has no line end. */
  lemma {:induction false} IncompleteIsUnended(rest: string)
    requires LF !in rest
    ensures var answer := STATUS_LINE + CRLF + ("" + CRLF + rest);
            !CgiFields(CGI_START, answer).out && !Ends(CGI_START, answer)
  {
    hide CgiField;
    var answer := STATUS_LINE + CRLF + ("" + CRLF + rest);
    var h := CgiField(CGI_START, STATUS_LINE + [CR]);
    StatusIsRead(CGI_START);
    CrLfLine(STATUS_LINE, "" + CRLF + rest);
    CrLfLine("", rest);
    LineSplits(rest);
    FieldsStep(CGI_START, answer);
    FieldsStep(h, "" + CRLF + rest);
    LookSplits(CGI_START, answer);
  }

  /** An answer that is looked at `early` times for nothing, and then given up. */
  lemma {:induction false} ProgramRuns(s: State, fds: seq<int>, now: Timeval, early: nat) returns (t: State, x: Routing)
    requires Starting(s) && Micros(now) >= s.since && |fds| == 3 && Unused(s, fds)
    ensures Comes(s, t) && CanRoute(t, 0, x) && t.events[0].kind.CgiReadable? && x.verdict == Lacking
    ensures var after, key := Routed(t, 0, x), Key(fds[2], Reading);
            && Comes(s, after) && 0 !in after.events
            && key in Registered(after) && Registered(after)[key] == Registration(true, Conn(0))
  {
    hide Receive, Inv, Finds, Starting, Routed, CanRoute;
    BodilessArrives("GET", GET);
    var t1 := Connects(s, fds[0], now, Bodiless("GET"));
    var e := Sent(s.hosts, fds[0], now, Bodiless("GET"));
    var t2 := ServedToProgram(s, t1, e, fds[1], now);
    var t3, f := ProgramStarts(s, t2, e.(kind := RequestUpload, toSendFd := fds[1]), fds[2], now);
    t := LooksAgain(s, t3, f, now, early);
    x := Routing(false, RecvFailed, Lacking, false);
    CanBeRouted(t, 0, x);
    RouteLosesExactly(t, 0, x);
    CanRouteIt(t, 0, x);
    ComesOn(s, t, Route(0, x));
  }

  lemma {:induction false} CanBeRouted(t: State, id: nat, x: Routing)
    requires Inv(t) && id in t.todo && id in t.events && !x.eof
    ensures CanRoute(t, id, x)
  {
  }

  /** The answer of the only event is looked at for nothing, again and again. */
  lemma {:induction false} LooksAgain(s: State, t: State, e: Event, now: Timeval, early: nat) returns (p: State)
    requires Reached(s, t) && t.events == map[0 := e] && t.todo == {0} && e.kind.CgiReadable? && e.stamp == now
    ensures Reached(s, p) && p.events == map[0 := e] && p.todo == {0}
    decreases early
  {
    hide Reached;
    p := t;
    if early > 0 {
      var x := Routing(false, RecvFailed, Early, false);
      HeldOpen(s, t, 0);
      GoOn(s, t, Route(0, x));
      var t1 := PollAll(s, Done(t, Route(0, x)), now);
      assert t1.events[0] == e.(stamp := now) == e;
      p := LooksAgain(s, t1, e, now, early - 1);
    }
  }

  /** The empty body is written, and the program started. */
  lemma {:induction false} ProgramStarts(s: State, t: State, e: Event, fd: int, now: Timeval) returns (p: State, e': Event)
    requires Reached(s, t) && t.events == map[0 := e] && t.todo == {0} && t.closing == {} && e.stamp == now
    requires e.kind.RequestUpload? && e.resp.None? && IsBodiless(e.req, GET) && Unused(t, [fd])
    ensures Reached(s, p) && p.todo == {0} && p.events == map[0 := e']
    ensures e'.kind.CgiReadable? && e'.toRecvFd == fd && e'.req.Valid() && e'.stamp == now
  {
    hide Reached, Upload, Allowed, Coupled, Serve;
    assert [fd][0] == fd && t.events[0] == e;
    var error := SomeReply(TypeGet, DownloadingInit, fd);
    var x := Unfailing(t, {fd}, fd, error, error, true, now);
    HeldOpen(s, t, 0);
    NotInOpen(e, t.open, fd);
    AllowedToStart(t, 0, x, fd);
    var next := e.(req := Upload(e.req, x.io).req, kind := CgiReadable, toRecvFd := fd);
    p := ServeAndPoll(s, t, x, e, next, now);
    e' := next.(stamp := now);
  }

  lemma {:induction false} AllowedToStart(t: State, id: nat, x: Input, fd: int)
    requires id in t.events && Coupled(t.events[id]) && fd !in Fds(t.events[id]) && fd !in t.open
    requires var e, error := t.events[id], SomeReply(TypeGet, DownloadingInit, fd);
             && e.kind.RequestUpload? && e.resp.None? && IsBodiless(e.req, GET) && fd >= 0
             && x == Unfailing(t, {fd}, fd, error, error, true, e.stamp)
    ensures Allowed(t, id, x) && Upload(t.events[id].req, x.io).req.Valid()
    ensures var e := t.events[id];
            Serve(e, id, x).event == Some(e.(req := Upload(e.req, x.io).req, kind := CgiReadable, toRecvFd := fd))
    ensures Serve(t.events[id], id, x).thrown == NotThrown
  {
    hide Upload;
    UploadKeepsHead(t.events[id].req, Moved(1));
    EmptyBodyEnds(t.events[id].req);
  }

  lemma {:induction false} EmptyBodyEnds(r: Request)
    requires r.pos <= |r.held| && r.state == UploadInit && !r.head.chunked && r.chunkSize == r.uploaded
    ensures Upload(r, Moved(1)).req.state == UploadDone
  {
  }

  /** A GET for a program whose head is malformed brings the server down: nothing fails,
      and the string is thrown all the same. */
  lemma {:induction false} MalformedGetAborts(s: State, fds: seq<int>, now: Timeval) returns (t: State, x: Input)
    requires Starting(s) && Micros(now) >= s.since && |fds| == 3 && Unused(s, fds)
    ensures Comes(s, t) && Servable(t, 0) && Coupled(t.events[0]) && MadeFor(t.events[0], x) && x.faults == NO_FAULTS
    ensures Serve(t.events[0], 0, x).thrown == WrongRoutine
  {
    hide Receive, Inv, Finds, Starting, Serve;
    BrokenGetArrives();
    var t1 := Connects(s, fds[0], now, BROKEN_GET);
    var e := Sent(s.hosts, fds[0], now, BROKEN_GET);
    t := ServedToProgram(s, t1, e, fds[1], now);
    HeldOpen(s, t, 0);
    NotInOpen(t.events[0], t.open, fds[2]);
    var error := SomeReply(TypeGet, DownloadingInit, fds[2]);
    x := Unfailing(t, {}, fds[2], error, error, true, now);
    AbortsExactly(t.events[0], 0, x);
  }

  /** A read that fails while a response is downloaded: whatever the next poll returns
      has an entry without an event. */
  lemma {:induction false} FailedReadMeetsNull(s: State, fds: seq<int>, now: Timeval) returns (t: State)
    requires Starting(s) && Micros(now) >= s.since && |fds| == 2 && Unused(s, fds)
    ensures Comes(s, t) && Inv(t)
    ensures forall batch, stamps, since :: Returns(t, batch, stamps, since) ==> HasNull(batch)
  {
    hide Receive, Inv, Finds, Starting, HasNull, Returns;
    BodilessArrives("GET", GET);
    var t1 := Connects(s, fds[0], now, Bodiless("GET"));
    var t2 := DownloadBegins(s, t1, fds[1], now);
    t := ReadIsLost(s, t2, now);
    forall batch, stamps, since | Returns(t, batch, stamps, since) ensures HasNull(batch) {
      NullExactly(t, batch, stamps, since);
    }
  }

  /** A file is to be sent, and the first read of it is due. */
  lemma {:induction false} DownloadBegins(s: State, t: State, fd: int, now: Timeval) returns (p: State)
    requires Reached(s, t) && 0 in t.events && t.todo == {0} && t.closing == {} && Unused(t, [fd])
    requires var e := t.events[0];
             && e.kind.RequestReadable? && e.clientFd >= 0 && e.stamp == now
             && e.req.head.verb == GET && IsParsingEnd(e.req.state)
    ensures Reached(s, p) && 0 in p.todo && 0 in p.events && p.events[0].kind.ResponseDownload? && p.events[0].stamp == now
  {
    hide Reached;
    assert [fd][0] == fd;
    var e, reply := t.events[0], SomeReply(TypeGet, DownloadingInit, fd);
    var x := Unfailing(t, {fd}, -1, reply, reply, false, now);
    HeldOpen(s, t, 0);
    NotInOpen(e, t.open, fd);
    var next := e.(kind := ResponseDownload, toRecvFd := fd, resp := Some(reply.resp), source := "");
    var t1 := ServeIt(s, t, 0, x, next);
    p := PollAll(s, t1, now);
  }

  lemma {:induction false} ReadIsLost(s: State, t: State, now: Timeval) returns (p: State)
    requires Reached(s, t) && 0 in t.todo && 0 in t.events && t.events[0].kind.ResponseDownload? && t.events[0].stamp == now
    ensures Comes(s, p) && Inv(p) && !Finds(p.queue, p.changes)
  {
    hide Inv, Finds, Starting;
    var reply := SomeReply(TypeGet, DownloadingInit, 0);
    var x := Unfailing(t, {}, -1, reply, reply, false, now).(io := Failed);
    HeldOpen(s, t, 0);
    p := Done(t, ServeOne(0, x));
    ComesOn(s, t, ServeOne(0, x));
    EveryActionFinds(t, ServeOne(0, x));
  }

  // ----------------------------------------------------- two bodies flushed at once

  /** The file that both flush to is gone when the first of them has ended. */
  lemma {:induction false} OverlappingFlushesFail(s: State, fds: seq<int>, now: Timeval) returns (t: State, x: Input)
    requires Starting(s) && Micros(now) >= s.since && |fds| == 5 && Unused(s, fds)
    ensures Comes(s, t) && Servable(t, 1) && Coupled(t.events[1]) && Allowed(t, 1, x) && x.faults == NO_FAULTS
    ensures Serve(t.events[1], 1, x).thrown == CallFailed
  {
    hide Receive, Reached, Serve, Allowed, Coupled, IsFlushed;
    var t1 := TwoFlush(s, fds, now);
    FlushesWait(t1.events[1]);
    t := FlushIsOver(s, t1, 0, fds[4], now);
    x := FlushFails(s, t, 1, fds[4], now);
    OnlyComes(s, t);
  }

  lemma {:induction false} FlushesWait(e: Event)
    requires IsFlushed(e)
    ensures e.kind.BufferFlush?
  {
  }

  /** Both flushes have begun, and their next steps are due. */
  lemma {:induction false} TwoFlush(s: State, fds: seq<int>, now: Timeval) returns (t: State)
    requires Starting(s) && Micros(now) >= s.since && |fds| == 5 && Unused(s, fds)
    ensures Reached(s, t) && t.events.Keys == {0, 1} && t.todo == {0, 1} && t.trash && Unused(t, [fds[4]])
    ensures IsFlushed(t.events[0]) && t.events[0].stamp == now && IsFlushed(t.events[1]) && t.events[1].stamp == now
  {
    hide Receive, Reached, Coupled, Bodiless, IsBodiless;
    BodilessArrives("POST", POST);
    IsWhole(Receive(FRESH_REQUEST, Piece(Bodiless("POST"))), POST);
    var t1 := TwoConnect(s, fds[0], fds[1], now, Bodiless("POST"));
    var t2 := FlushBegins(s, t1, 0, fds[2], now);
    var t3 := FlushBegins(s, t2, 1, fds[3], now);
    t := PollAll(s, t3, now);
  }

  lemma {:induction false} IsWhole(q: Request, verb: Method)
    requires IsBodiless(q, verb)
    ensures !IsRecvError(q) && IsParsingEnd(q.state)
  {
  }

  lemma {:induction false} OnlyComes(s: State, t: State)
    requires Reached(s, t)
    ensures Comes(s, t)
  {
  }

  /** Two clients connect, and send the same. */
  lemma {:induction false} TwoConnect(s: State, fd: int, gd: int, now: Timeval, message: string) returns (t: State)
    requires Starting(s) && Unused(s, [fd, gd]) && Micros(now) >= s.since
    requires var q := Receive(FRESH_REQUEST, Piece(message)); !IsRecvError(q) && IsParsingEnd(q.state)
    ensures Reached(s, t) && t.todo == {0, 1} && t.open == s.open + {fd, gd} && t.closing == {}
    ensures t.events == map[0 := Sent(s.hosts, fd, now, message), 1 := Sent(s.hosts, gd, now, message)]
  {
    hide Reached, Receive;
    assert [fd, gd][0] == fd && [fd, gd][1] == gd;
    StartIsReached(s);
    var t1 := AcceptOne(s, s, 0, fd, now);
    var t2 := AcceptOne(s, t1, 1, gd, now);
    var t3 := PollAll(s, t2, now);
    var t4 := RouteOne(s, t3, 0, message);
    t := RouteOne(s, t4, 1, message);
  }

  /** A POST whose body is of no use is served. */
  lemma {:induction false} FlushBegins(s: State, t: State, id: nat, fd: int, now: Timeval) returns (p: State)
    requires Reached(s, t) && id in t.todo && id in t.events && Unused(t, [fd]) && fd !in t.closing
    requires var e := t.events[id];
             e.kind.RequestReadable? && e.clientFd >= 0 && e.stamp == now && IsBodiless(e.req, POST)
    ensures Reached(s, p) && p.todo == t.todo - {id} && p.open == t.open + {fd} && p.closing == t.closing && p.trash
    ensures id in p.events && p.events == t.events[id := p.events[id]]
    ensures IsFlushed(p.events[id]) && p.events[id].stamp == now
  {
    hide Reached;
    assert [fd][0] == fd;
    var e, reply := t.events[id], SomeReply(TypeFlush, SendingStorage, -1);
    var x := Unfailing(t, {fd}, fd, reply, reply, false, now);
    HeldOpen(s, t, id);
    NotInOpen(e, t.open, fd);
    var next := e.(kind := BufferFlush, toSendFd := fd, resp := Some(reply.resp), source := "");
    p := ServeIt(s, t, id, x, next);
  }

  /** An event that has but an empty body to flush. */
  predicate IsFlushed(e: Event) {
    e.kind.BufferFlush? && e.resp.Some? && e.resp.value.kind.TypeFlush? && IsBodiless(e.req, POST)
  }

  lemma {:induction false} FlushIsOver(s: State, t: State, id: nat, efd: int, now: Timeval) returns (p: State)
    requires Reached(s, t) && id in t.todo && id in t.events && t.trash && Unused(t, [efd])
    requires IsFlushed(t.events[id]) && t.events[id].stamp == now
    ensures Reached(s, p) && p.todo == t.todo - {id} && !p.trash && p.open == t.open
    ensures id in p.events && p.events == t.events[id := p.events[id]]
  {
    hide Reached, Upload;
    var e := t.events[id];
    var x := FlushInput(s, t, id, efd, now);
    var u := Upload(e.req, Moved(1)).req;
    var next := e.(req := u, kind := ResponseWritable, toSendFd := e.clientFd);
    p := ServeIt(s, t, id, x, next);
  }

  /** The same step, when the file is gone. */
  lemma {:induction false} FlushFails(s: State, t: State, id: nat, efd: int, now: Timeval) returns (x: Input)
    requires Reached(s, t) && id in t.events && !t.trash && Unused(t, [efd])
    requires IsFlushed(t.events[id]) && t.events[id].stamp == now
    ensures Coupled(t.events[id]) && Allowed(t, id, x) && x.faults == NO_FAULTS
    ensures Serve(t.events[id], id, x).thrown == CallFailed
  {
    hide Reached, Upload;
    x := FlushInput(s, t, id, efd, now);
  }

  lemma {:induction false} FlushInput(s: State, t: State, id: nat, efd: int, now: Timeval) returns (x: Input)
    requires Reached(s, t) && id in t.events && Unused(t, [efd])
    requires IsFlushed(t.events[id]) && t.events[id].stamp == now
    ensures var e, error := t.events[id], SomeReply(TypeFlushErr, DownloadingInit, efd);
            && x == Unfailing(t, {}, efd, error, error, false, now) && Coupled(e) && Allowed(t, id, x)
            && Upload(e.req, Moved(1)).req.state == UploadDone
  {
    hide Reached, Upload;
    assert [efd][0] == efd;
    var e, error := t.events[id], SomeReply(TypeFlushErr, DownloadingInit, efd);
    x := Unfailing(t, {}, efd, error, error, false, now);
    HeldOpen(s, t, id);
    NotInOpen(e, t.open, efd);
    UploadKeepsHead(e.req, Moved(1));
    EmptyBodyEnds(e.req);
  }
}
