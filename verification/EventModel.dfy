/** The life of connections as a state machine: what each step of the server does to
    the events, to the pending changes of the event queue, and to descriptors. */
module EventModel {
  import opened Storage
  import opened RequestModel
  import opened ResponseModel
  import opened ResponseFactory
  import opened Kernel
  import opened Timeout
  import Config

  datatype EventType =
    | RequestReadable | RequestUpload | ResponseDownload | ResponseWritable | CgiReadable | BufferFlush

  datatype Option<T> = None | Some(value: T)

  /** `source` is what the file behind `toRecvFd` has still to give. */
  datatype Event = Event(
    kind: EventType, serverId: int, toSendFd: int, toRecvFd: int, clientFd: int,
    req: Request, resp: Option<Response>, source: string, stamp: Timeval)

  function NewEvent(fd: int, stamp: Timeval): Event {
    Event(RequestReadable, -1, fd, fd, fd, FRESH_REQUEST, None, "", stamp)
  }

  /** `Event::initialize`. */
  function Renewed(e: Event, now: Timeval): Event {
    e.(kind := RequestReadable, toSendFd := e.clientFd, toRecvFd := e.clientFd, serverId := -1,
       req := Initialized(e.req), resp := None, source := "", stamp := now)
  }

  // ---------------------------------------------- registrations of an event

  /** Whether `e` is to be registered under `key`, and if so whether enabled. */
  function Wanted(e: Event, key: Key): Option<bool> {
    if key.fd == e.clientFd then
      Some(if key.filter == Reading then e.kind.RequestReadable? else e.kind.ResponseWritable?)
    else if key == Key(e.toSendFd, Writing) && (e.kind.RequestUpload? || e.kind.BufferFlush?) then Some(true)
    else if key == Key(e.toRecvFd, Reading) && (e.kind.ResponseDownload? || e.kind.CgiReadable?) then Some(true)
    else None
  }

  /** The one registration that may fire for `e`. */
  function MainKey(e: Event): Key {
    match e.kind
    case RequestReadable => Key(e.clientFd, Reading)
    case ResponseWritable => Key(e.clientFd, Writing)
    case RequestUpload => Key(e.toSendFd, Writing)
    case BufferFlush => Key(e.toSendFd, Writing)
    case ResponseDownload => Key(e.toRecvFd, Reading)
    case CgiReadable => Key(e.toRecvFd, Reading)
  }

  /** The descriptors of files that `e` holds: the one it moves bytes to or from, and
      the error page that waits for the flush of the request to be over. */
  function FileFds(e: Event): set<int> {
    match e.kind
    case RequestReadable => {}
    case ResponseWritable => {}
    case RequestUpload => {e.toSendFd}
    case ResponseDownload => {e.toRecvFd}
    case CgiReadable => {e.toRecvFd}
    case BufferFlush =>
      if e.resp.Some? && e.resp.value.kind.TypeFlushErr? then {e.toSendFd, e.resp.value.fd} else {e.toSendFd}
  }

  function Fds(e: Event): set<int> {
    {e.clientFd} + FileFds(e)
  }

  /** Only a chunked body is walked by its size lines. */
  predicate CodingFits(r: Request) {
    r.state.UploadChunkInit? || r.state.UploadReadLine? ==> r.head.chunked
  }

  /** All of the body has been taken, or it has been refused. */
  predicate BodyIsOver(r: Request) {
    r.state.UploadDone? || r.state.BadRequest?
  }

  /** Before such a response the body is written to a file, or flushed. */
  predicate TakesBody(kind: ResponseType) {
    kind.TypePost? || kind.TypeFlush? || kind.TypeFlushErr?
  }

  predicate HasBody(verb: Method) {
    verb.POST? || verb.PUT?
  }

  /** How the type of an event and its response go together. */
  predicate Coupled(e: Event) {
    && e.req.Valid() && CodingFits(e.req)
    && (e.resp.Some? ==> e.resp.value.Valid())
    && e.clientFd !in FileFds(e)
    && match e.kind
       case RequestReadable => e.resp.None? && e.toSendFd == e.clientFd && e.toRecvFd == e.clientFd
       case RequestUpload =>
         if e.resp.None? then HasBody(e.req.head.verb) || e.req.head.verb.GET?
         else HasBody(e.req.head.verb) && e.resp.value.kind.TypePost?
              && e.resp.value.state.SendingStorage? && e.resp.value.fd == e.toSendFd
       case BufferFlush =>
         && HasBody(e.req.head.verb) && e.resp.Some?
         && (if e.resp.value.kind.TypeFlush? then e.resp.value.state.SendingStorage?
             else e.resp.value.kind.TypeFlushErr? && e.resp.value.state.DownloadingInit?
                  && e.resp.value.fd != e.toSendFd)
       case CgiReadable => e.resp.None? && BodyIsOver(e.req)
       case ResponseDownload =>
         && e.resp.Some? && e.resp.value.state.DownloadingInit? && e.resp.value.fd == e.toRecvFd
         && (TakesBody(e.resp.value.kind) ==> BodyIsOver(e.req))
       case ResponseWritable =>
         && e.resp.Some? && e.resp.value.state.SendingStorage? && e.toSendFd == e.clientFd
         && (TakesBody(e.resp.value.kind) ==> BodyIsOver(e.req))
  }

  // ---------------------------------------------------------- what a step does

  /** Which of the calls a step may make are to fail: opening a temporary file, making
      the response, making an error response, unlinking the files of a CGI program. */
  datatype Faults = Faults(open: bool, reply: bool, error: bool, unlink: bool)

  const NO_FAULTS := Faults(false, false, false, false)

  /** What the environment decides in one step: what I/O moved, which descriptors
      were opened and which of them thrown back, what the factory made, the size of the
      file that is flushed to and the limit for it, whether the request is one for a CGI
      program, whether its time is over, and which calls fail;
      `trash` says whether the file that is flushed to is there. */
  datatype Input = Input(
    io: Io, acquired: set<int>, discarded: set<int>, fd: int,
    reply: Reply, error: Reply, fileSize: int, limit: int, cgi: bool, late: bool, now: Timeval, faults: Faults, trash: bool)

  predicate TooLarge(x: Input) {
    x.fileSize > x.limit
  }

  /** How the server can be cut short: by the exception of a call that failed, which
      `main` catches to start over; by a string thrown where a response of another kind
      was due, which nothing catches; or by a batch entry with no event to it. */
  datatype Thrown = NotThrown | CallFailed | WrongRoutine | NullEvent

  /** What becomes of the one file that all bodies are flushed to. */
  datatype Trash = Untouched | Opened | Unlinked

  /** No event is left when the connection is removed. */
  datatype Effect = Effect(
    event: Option<Event>, changes: seq<Change>, closing: set<int>, thrown: Thrown, trash: Trash := Untouched)

  function Quietly(e: Event): Effect {
    Effect(Some(e), [], {}, NotThrown)
  }

  /** Nothing but what has been done to the event so far. */
  function Failing(e: Event): Effect {
    Effect(Some(e), [], {}, CallFailed)
  }

  function Ch(fd: int, filter: Filter, flag: Flag, owner: Owner): Change {
    Change(Key(fd, filter), flag, owner)
  }

  /** `removeConnection`, which closes the client's descriptor. */
  function Removal(e: Event): Effect {
    if e.kind.RequestUpload? then
      Effect(None, [Ch(e.toSendFd, Writing, Delete, Nobody)], {e.toSendFd}, NotThrown)
    else if e.kind.ResponseDownload? then
      Effect(None, [Ch(e.toRecvFd, Reading, Delete, Nobody)], {e.toRecvFd}, NotThrown)
    else
      Effect(None, [], {}, NotThrown)
  }

  /** Something queued or registered before what `eff` does. */
  function After(changes: seq<Change>, closing: set<int>, eff: Effect): Effect {
    eff.(changes := changes + eff.changes, closing := closing + eff.closing)
  }

  function ToWritable(e: Event, id: nat): Effect {
    Effect(Some(e.(kind := ResponseWritable, toSendFd := e.clientFd)),
           [Ch(e.clientFd, Writing, Enable, Conn(id))], {}, NotThrown)
  }

  function ToDownload(e: Event, id: nat, fd: int): Effect {
    Effect(Some(e.(kind := ResponseDownload, toRecvFd := fd)), [Ch(fd, Reading, Add, Conn(id))], {}, NotThrown)
  }

  /** The body is to be flushed to the file that is there for that. */
  function ToFlush(e: Event, id: nat, x: Input): Effect {
    if x.faults.open then Failing(e.(kind := BufferFlush))
    else Effect(Some(e.(kind := BufferFlush, toSendFd := x.fd)), [Ch(x.fd, Writing, Add, Conn(id))], {}, NotThrown, Opened)
  }

  /** A GET, POST or PUT for a CGI program has its body written to a file first. */
  predicate ToProgram(e: Event, x: Input) {
    x.cgi && (e.req.head.verb.GET? || HasBody(e.req.head.verb))
  }

  function ServeReadable(e: Event, id: nat, x: Input): Effect {
    var off := [Ch(e.toRecvFd, Reading, Disable, Conn(id))];
    if ToProgram(e, x) then
      if x.faults.open then Failing(e)
      else After(off, {}, Effect(Some(e.(kind := RequestUpload, toSendFd := x.fd)), [Ch(x.fd, Writing, Add, Conn(id))], {}, NotThrown))
    else if x.faults.reply then Failing(e)
    else
      var made := e.(resp := Some(x.reply.resp), source := x.reply.source);
      match x.reply.resp.kind
      case TypePost =>
        After(off, {}, Effect(Some(made.(kind := RequestUpload, toSendFd := x.reply.resp.fd)),
                              [Ch(x.reply.resp.fd, Writing, Add, Conn(id))], {}, NotThrown))
      case TypeGet => After(off, {}, ToDownload(made, id, x.reply.resp.fd))
      case TypeDel => After(off, {}, ToWritable(made, id))
      case TypeFlush => After(off, {}, ToFlush(made, id, x))
      case TypeFlushErr => After(off, {}, ToFlush(made, id, x))
      case TypeCgi => After(off, {}, Quietly(made))
  }

  /** `_redirectUploadError`; any other type of response is thrown at. */
  function Redirect(e: Event, id: nat): Effect
    requires e.resp.Some?
  {
    var off := [Ch(e.toSendFd, Writing, Delete, Nobody)];
    match e.resp.value.kind
    case TypeFlush => After(off, {}, ToWritable(e, id))
    case TypeFlushErr => After(off, {}, ToDownload(e, id, e.resp.value.fd))
    case _ => Effect(Some(e), off, {}, WrongRoutine)
  }

  function WithError(e: Event, x: Input): Event {
    e.(resp := Some(x.error.resp), source := x.error.source)
  }

  /** `_uploadFile`, once `uploadRequest` has advanced the request to `u`. */
  function Uploading(e: Event, u: Request, id: nat, x: Input): Effect {
    var next := e.(req := u);
    match next.req.state
    case TimedOut => Removal(next)
    case ConnectionClosed => Removal(next)
    case BadRequest =>
      if x.faults.error then Failing(next.(resp := None)) else Redirect(WithError(next, x), id)
    case UploadDone =>
      var off := [Ch(e.toSendFd, Writing, Delete, Nobody)];
      if x.cgi then
        if x.faults.open then After(off, {e.toSendFd}, Failing(next))
        else After(off, {e.toSendFd}, Effect(Some(next.(kind := CgiReadable, toRecvFd := x.fd)),
                                        [Ch(x.fd, Reading, Add, Conn(id))], {}, NotThrown))
      else if e.resp.Some? && e.resp.value.kind.TypePost? then After(off, {e.toSendFd}, ToWritable(next, id))
      else if e.resp.Some? && e.resp.value.kind.TypeFlushErr? then
        After(off, {e.toSendFd}, ToDownload(next, id, e.resp.value.fd))
      else Effect(Some(next), off, {e.toSendFd}, WrongRoutine)
    case _ => Quietly(next)
  }

  /** `_flushBuffer`, likewise. The file flushed to has one name for all connections,
      so it may be gone when it is to be unlinked. */
  function Flushing(e: Event, u: Request, id: nat, x: Input): Effect
    requires e.resp.Some?
  {
    var next := e.(req := u);
    match next.req.state
    case TimedOut => FlushBroken(next, x)
    case ConnectionClosed => FlushBroken(next, x)
    case BadRequest =>
      if x.faults.error then Failing(next.(resp := None))
      else if !x.trash then Failing(WithError(next, x))
      else Redirect(WithError(next, x), id).(trash := Unlinked)
    case UploadDone =>
      if TooLarge(x) && x.faults.error then Failing(next.(resp := None))
      else
        var last := if TooLarge(x) then WithError(next, x) else next;
        if !x.trash then Failing(last) else After([], {e.toSendFd}, Redirect(last, id)).(trash := Unlinked)
    case _ => Quietly(next)
  }

  function FlushBroken(e: Event, x: Input): Effect {
    if !x.trash then Failing(e)
    else After([Ch(e.toSendFd, Writing, Delete, Nobody)], {e.toSendFd}, Removal(e)).(trash := Unlinked)
  }

  function ServeDownload(e: Event, id: nat, x: Input): Effect
    requires e.resp.Some? && e.resp.value.Valid()
  {
    var read := ReadOf(e.source, x.io);
    var next := e.(resp := Some(Download(e.resp.value, read)),
                   source := if read.Bytes? then e.source[|read.piece|..] else e.source);
    var off := [Ch(e.toRecvFd, Reading, Delete, Nobody)];
    match next.resp.value.state
    case SendingTimedOut => After(off, {e.toRecvFd}, Removal(next))
    case SendingClosed => After(off, {e.toRecvFd}, Removal(next))
    case SendingStorage => After(off, {e.toRecvFd}, ToWritable(next, id))
    case _ => Quietly(next)
  }

  function ServeWritable(e: Event, id: nat, x: Input): Effect
    requires e.resp.Some? && e.resp.value.Valid()
  {
    var next := e.(resp := Some(Send(e.resp.value, x.io).resp));
    match next.resp.value.state
    case SendingClosed => Removal(next)
    case SendingDone =>
      if e.req.head.keepAlive && e.resp.value.status != 400 then
        if x.cgi && x.faults.unlink then Failing(next)
        else Effect(Some(Renewed(next, x.now)),
               [Ch(e.clientFd, Writing, Disable, Conn(id)), Ch(e.clientFd, Reading, Enable, Conn(id))], {}, NotThrown)
      else Removal(next)
    case _ => Quietly(next)
  }

  /** A CGI answer whose header is complete; `x.reply` is made from it. */
  function ServeCgi(e: Event, id: nat, x: Input): Effect {
    var made := e.(resp := Some(x.reply.resp.(fd := e.toRecvFd)), source := x.reply.source);
    if x.faults.reply then Failing(e)
    else if x.reply.source != "" then Quietly(made.(kind := ResponseDownload))
    else After([Ch(e.toRecvFd, Reading, Delete, Nobody)], {e.toRecvFd},
               ToWritable(e.(resp := Some(x.reply.resp), source := ""), id))
  }

  /** The request after one call of `uploadRequest`. */
  function Advanced(e: Event, x: Input): Request
    requires e.req.Valid()
  {
    Timed(Upload(e.req, x.io).req, x.late)
  }

  /** `_processEvent`. */
  function Serve(e: Event, id: nat, x: Input): Effect
    requires Coupled(e)
  {
    match e.kind
    case RequestReadable => ServeReadable(e, id, x)
    case RequestUpload => Uploading(e, Advanced(e, x), id, x)
    case ResponseDownload => ServeDownload(e, id, x)
    case ResponseWritable => ServeWritable(e, id, x)
    case CgiReadable => ServeCgi(e, id, x)
    case BufferFlush => Flushing(e, Advanced(e, x), id, x)
  }

  // ------------------------------------------------------------- the server

  /** `todo` are the events of the current batch not yet dealt with, and `since` is
      when the stamping of that batch began; `lost` are the registrations left behind by
      events that were removed, and `hosts` the virtual servers. */
  datatype State = State(
    events: map<nat, Event>, listeners: set<int>, queue: Queue, changes: seq<Change>,
    open: set<int>, closing: set<int>, trash: bool, todo: set<nat>, since: int, lost: set<Key>,
    hosts: seq<Config.Server>)

  /** The queue as it will be when the pending changes are in. */
  function Registered(s: State): Queue {
    Applied(s.queue, s.changes)
  }

  /** What of it has not been left behind. */
  function Pending(s: State): Queue {
    Registered(s) - s.lost
  }

  ghost predicate Matches(queue: Queue, key: Key, id: nat, e: Event) {
    match Wanted(e, key)
    case Some(enabled) => key in queue && queue[key] == Registration(enabled, Conn(id))
    case None => key !in queue
  }

  ghost predicate EventsRegistered(queue: Queue, events: map<nat, Event>) {
    forall id, key: Key :: id in events && key.fd in Fds(events[id]) ==> Matches(queue, key, id, events[id])
  }

  ghost predicate ListenersRegistered(queue: Queue, listeners: set<int>) {
    forall key: Key :: key.fd in listeners ==>
      if key.filter == Reading then key in queue && queue[key] == Registration(true, Listener(key.fd)) else key !in queue
  }

  ghost predicate OnlyThese(queue: Queue, events: map<nat, Event>, listeners: set<int>) {
    forall key :: key in queue ==> key.fd in listeners || exists id :: id in events && key.fd in Fds(events[id])
  }

  /** No two events share a descriptor, and every one is open and stays so. */
  ghost predicate Separate(s: State) {
    && (forall id :: id in s.events ==>
          && Coupled(s.events[id]) && s.events[id].clientFd >= 0
          && Fds(s.events[id]) <= s.open - s.closing - s.listeners)
    && (forall i, j :: i in s.events && j in s.events && i != j ==> Fds(s.events[i]) !! Fds(s.events[j]))
    && s.listeners <= s.open - s.closing
    && s.closing <= s.open
  }

  /** No pending change is about the client's descriptor. */
  ghost predicate Quiet(s: State, id: nat)
    requires id in s.events
  {
    forall c :: c in s.changes ==> c.key.fd != s.events[id].clientFd
  }

  /** What is open covers all that is registered or pending, and what has been touched
      since the batch came was stamped since. */
  ghost predicate Tidy(s: State) {
    && (forall c :: c in s.changes ==> c.key.fd in s.open)
    && (forall key :: key in s.queue ==> key.fd in s.open)
    && (forall id :: id in s.todo ==> id in s.events && Quiet(s, id))
    && (forall id :: id in s.events && (id in s.todo || !Quiet(s, id)) ==> Micros(s.events[id].stamp) >= s.since)
  }

  /** What was left behind stays registered, for a descriptor that is open for ever and
      belongs to nobody. */
  ghost predicate Apart(s: State) {
    forall key :: key in s.lost ==>
      && key in Registered(s) && Registered(s)[key].enabled && Registered(s)[key].owner.Conn?
      && key.fd in s.open - s.closing - s.listeners
      && forall id :: id in s.events ==> key.fd !in Fds(s.events[id])
  }

  ghost predicate Inv(s: State) {
    && EventsRegistered(Pending(s), s.events)
    && ListenersRegistered(Pending(s), s.listeners)
    && OnlyThese(Pending(s), s.events, s.listeners)
    && Separate(s)
    && Tidy(s)
    && OnlyNobodys(s.queue, s.changes)
    && Apart(s)
  }

  function TrashAfter(was: bool, use: Trash): bool {
    match use
    case Untouched => was
    case Opened => true
    case Unlinked => false
  }

  /** The state after `id` had the effect `eff` in a step that acquired descriptors. */
  function Act(s: State, id: nat, eff: Effect, acquired: set<int>, discarded: set<int>): State
    requires id in s.events
  {
    var client := {s.events[id].clientFd};
    if eff.event.Some? then
      s.(events := s.events[id := eff.event.value], changes := s.changes + eff.changes,
         open := s.open + acquired, closing := s.closing + eff.closing + discarded,
         trash := TrashAfter(s.trash, eff.trash), todo := s.todo - {id})
    else
      s.(events := s.events - {id}, queue := Without(s.queue, client), changes := s.changes + eff.changes,
         open := s.open + acquired - client, closing := s.closing + eff.closing + discarded,
         trash := TrashAfter(s.trash, eff.trash), todo := s.todo - {id})
  }
}
