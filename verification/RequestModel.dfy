/** The request as a value: what one call of `parseRequest` or `uploadRequest`
    does to it. The class in `HttpRequest` is proved to follow these functions;
    the theorems about framing are stated on them. */
module RequestModel {
  import opened Text
  import opened Storage

  const HTTP_DEFAULT_PORT := 4242
  const HTTP_MAX_HEADER_SIZE := 8192

  datatype Method = GET | HEAD | POST | PUT | DELETE | NotImplemented

  datatype ParsingState =
    | ParsingInit | ParsingHeader | ParsingBody | ParsingDone
    | BadRequest | TimedOut
    | UploadChunkInit | UploadChunkSize | UploadReadLine | UploadDone | UploadInit
    | ConnectionClosed

  /** What the start line and the header fields say. */
  datatype Head = Head(
    headerSize: int, verb: Method, uri: string, httpVersion: string,
    contentLength: int, contentType: string, hostPort: int, hostName: string,
    cookies: string, bodyExisted: bool, chunked: bool, keepAlive: bool, secret: int)

  /** `held` is all the store holds, `pos` how much of it is consumed. */
  datatype Request = Request(
    state: ParsingState, conn: StorageState, held: string, pos: nat, head: Head,
    chunkSize: int, uploaded: int, total: int, bodyFirst: nat)
  {
    predicate Valid() {
      && pos <= |held|
      && (state == ParsingBody ==> bodyFirst <= pos)
      && (StillParsing(state) ==> chunkSize >= -1)
    }

    function Unread(): string
      requires pos <= |held|
    {
      held[pos..]
    }

    /** The same request once only `left`, a tail of what is held, is unread. */
    function Leaving(left: string): (r: Request)
      requires |left| <= |held|
      ensures r.pos <= |r.held|
    {
      this.(pos := |held| - |left|)
    }
  }

  const EMPTY_HEAD := Head(0, NotImplemented, "", "", 0, "", HTTP_DEFAULT_PORT, "", "", false, false, true, 0)

  const FRESH_REQUEST := Request(ParsingInit, Receiving, "", 0, EMPTY_HEAD, -1, 0, 0, 0)

  predicate IsParsingEnd(s: ParsingState) {
    s.UploadChunkInit? || s.UploadInit? || s.BadRequest? || s.TimedOut?
  }

  /** `HttpRequest::initialize`: what it leaves alone is what this leaves alone. */
  function Initialized(r: Request): Request {
    r.(state := ParsingInit, held := "", pos := 0, chunkSize := -1, uploaded := 0, total := 0,
       head := EMPTY_HEAD.(httpVersion := r.head.httpVersion, cookies := r.head.cookies))
  }

  // ------------------------------------------------------------------ head

  function MethodOf(word: string): Method {
    if word == "GET" then GET
    else if word == "HEAD" then HEAD
    else if word == "POST" then POST
    else if word == "PUT" then PUT
    else if word == "DELETE" then DELETE
    else NotImplemented
  }

  predicate WellFormedStart(line: string) {
    line != "" && line[|line| - 1] == CR && Count(line, ' ') == 2
  }

  function StartLine(h: Head, line: string): Head {
    var afterMethod := Beyond(line, ' ');
    h.(headerSize := h.headerSize + |line| + 1,
       verb := MethodOf(Before(line, ' ')),
       uri := Before(afterMethod, ' '),
       httpVersion := Before(Beyond(afterMethod, ' '), CR))
  }

  predicate WellFormedField(h: Head, line: string) {
    line != "" && line[|line| - 1] == CR && |line| + 1 + h.headerSize <= HTTP_MAX_HEADER_SIZE
  }

  /** What one header field sets. */
  datatype Setting =
    | ContentType(value: string)
    | ContentLength(length: int)
    | Host(port: int, name: string)
    | Connection(alive: bool)
    | ChunkedCoding
    | Secret(number: int)
    | Cookie(value: string)
    | Nothing

  function HostSetting(value: string): Setting {
    if IndexOf(value, ':') == |value| then Host(HTTP_DEFAULT_PORT, value)
    else Host(Atoi(Beyond(value, ':')), Before(value, ':'))
  }

  /** `length` and `secret` are the numbers so far, which an empty value keeps. */
  function MessageSetting(key: string, rest: string, length: int, secret: int): Setting {
    if key == "Content-Type:" then ContentType(Before(rest, CR))
    else if key == "Content-Length:" then ContentLength(StreamInt(rest, length))
    else if key == "Host:" then HostSetting(Before(rest, CR))
    else ConnectionSetting(key, rest, secret)
  }

  function ConnectionSetting(key: string, rest: string, secret: int): Setting {
    if key == "Connection:" then Connection(Before(rest, CR) == "keep-alive")
    else if key == "Transfer-Encoding:" then if Before(rest, CR) == "chunked" then ChunkedCoding else Nothing
    else if key == "X-Secret-Header-For-Test:" then Secret(StreamInt(rest, secret))
    else if key == "Cookie:" then Cookie(Before(rest, CR))
    else Nothing
  }

  function With(h: Head, s: Setting): Head {
    match s
    case ContentType(value) => h.(contentType := value)
    case ContentLength(length) => h.(contentLength := length, bodyExisted := true)
    case Host(port, name) => h.(hostPort := port, hostName := name)
    case Connection(alive) => h.(keepAlive := alive)
    case ChunkedCoding => h.(chunked := true, bodyExisted := true)
    case Secret(number) => h.(secret := number)
    case Cookie(value) => h.(cookies := value)
    case Nothing => h
  }

  function Field(h: Head, line: string): Head {
    With(h.(headerSize := h.headerSize + |line| + 1),
         MessageSetting(Before(line, ' '), Beyond(line, ' '), h.contentLength, h.secret))
  }

  datatype HeadEnd = NoLine | BareLine | Blank | Malformed

  /** Where the header fields stop: out of lines, at a line that is empty even
      without its CR, at the blank line, or at a line that is refused. */
  datatype Scanned = Scanned(head: Head, left: string, end: HeadEnd)

  function Fields(h: Head, u: string): (s: Scanned)
    ensures |s.left| <= |u|
    decreases |u|
  {
    var line, rest := LineOf(u), AfterLine(u);
    if line == "" then Scanned(h, rest, if HasLine(u) then BareLine else NoLine)
    else if line == [CR] then Scanned(h, rest, Blank)
    else if !WellFormedField(h, line) then Scanned(h, rest, Malformed)
    else Fields(Field(h, line), rest)
  }

  // ------------------------------------------------------------- chunk sizes

  /** `_parseChunkSize` of a nonempty line: the size, or -1 for a refused line. */
  function ChunkSize(line: string): (n: int)
    ensures n >= -1
  {
    var d := DigitRun(line, 16, 0);
    if d == |line| || line[d] != CR then -1
    else var n := HexValue(line, d); if n > LONG_MAX then LONG_MAX else n
  }

  /** The outcome of `_parseChunk`. `bad` records that a size line was refused on
      the way, `bare` that the walk stopped on a line empty even without CR. */
  datatype Walked = Walked(found: bool, chunkSize: int, left: string, bad: bool, bare: bool)

  function Walk(u: string, chunkSize: int, bad: bool): (w: Walked)
    requires chunkSize >= -1
    ensures |w.left| <= |u| && w.chunkSize >= -1
    decreases |u|, 1
  {
    if chunkSize != -1 then WalkData(u, chunkSize, bad)
    else if LineOf(u) == "" then Walked(false, -1, AfterLine(u), bad, HasLine(u))
    else WalkData(AfterLine(u), ChunkSize(LineOf(u)), bad || ChunkSize(LineOf(u)) == -1)
  }

  function WalkData(u: string, chunkSize: int, bad: bool): (w: Walked)
    requires chunkSize >= -1
    ensures |w.left| <= |u| && w.chunkSize >= -1
    decreases |u|, 0
  {
    if chunkSize == 0 then
      if LineOf(u) == "" then Walked(false, 0, AfterLine(u), bad, HasLine(u))
      else Walked(true, -1, AfterLine(u), bad, false)
    else if Int32(|u|) > chunkSize + 2 then Walk(u[Int32(chunkSize + 2)..], -1, bad)
    else Walked(false, chunkSize, u, bad, false)
  }

  // ------------------------------------------------------------ parseRequest

  /** What one pass of the parser makes of the unread bytes. `began` says the pass
      went through the blank line, and `body` is what was unread just after it.
      `odd` says it met a line empty without its CR, or a refused chunk size. */
  datatype Outcome = Outcome(
    state: ParsingState, head: Head, left: string, chunkSize: int,
    began: bool, body: string, odd: bool)

  predicate ReachedBody(s: ParsingState) {
    s.ParsingBody? || s.UploadChunkInit?
  }

  /** The pass stays within what was unread, and leaves a walk it can resume. */
  predicate Fits(o: Outcome, u: string) {
    && |o.left| <= |u| && |o.body| <= |u|
    && (o.state == ParsingBody && o.began ==> |o.left| <= |o.body|)
    && (StillParsing(o.state) ==> o.chunkSize >= -1)
    && (o.began && StillParsing(o.state) ==> o.state == ParsingBody)
  }

  function BodyOutcome(h: Head, u: string, chunkSize: int, w: Walked): (o: Outcome)
    requires chunkSize >= -1 && w.chunkSize >= -1 && |w.left| <= |u|
    ensures Fits(o, u) && !o.began && !o.state.ParsingInit? && !o.state.ParsingHeader?
  {
    if h.chunked then
      Outcome(if w.found then UploadChunkInit else if w.bad then BadRequest else ParsingBody,
              h, w.left, w.chunkSize, false, "", w.bad || w.bare)
    else if Int32(|u|) >= h.contentLength then
      Outcome(UploadInit, h, u, h.contentLength, false, "", false)
    else
      Outcome(ParsingBody, h, u, chunkSize, false, "", false)
  }

  function ScanBody(h: Head, u: string, chunkSize: int): (o: Outcome)
    requires chunkSize >= -1
    ensures Fits(o, u) && !o.began && !o.state.ParsingInit? && !o.state.ParsingHeader?
  {
    BodyOutcome(h, u, chunkSize, Walk(u, chunkSize, false))
  }

  function HeadOutcome(s: Scanned, chunkSize: int): (o: Outcome)
    requires chunkSize >= -1
    ensures Fits(o, s.left) && !o.state.ParsingInit? && (ReachedBody(o.state) ==> o.began)
  {
    match s.end
    case NoLine => Outcome(ParsingHeader, s.head, s.left, chunkSize, false, "", false)
    case BareLine => Outcome(ParsingHeader, s.head, s.left, chunkSize, false, "", true)
    case Malformed => Outcome(BadRequest, s.head, s.left, chunkSize, false, "", false)
    case Blank => ScanBody(s.head, s.left, chunkSize).(began := true, body := s.left)
  }

  function ScanHead(h: Head, u: string, chunkSize: int): (o: Outcome)
    requires chunkSize >= -1
    ensures Fits(o, u) && (ReachedBody(o.state) ==> o.began)
  {
    HeadOutcome(Fields(h, u), chunkSize)
  }

  function ScanStart(h: Head, u: string, chunkSize: int): (o: Outcome)
    requires chunkSize >= -1
    ensures Fits(o, u) && (ReachedBody(o.state) ==> o.began)
  {
    var line, rest := LineOf(u), AfterLine(u);
    if line == "" then Outcome(ParsingInit, h, rest, chunkSize, false, "", HasLine(u))
    else if !WellFormedStart(line) then Outcome(BadRequest, h, rest, chunkSize, false, "", false)
    else ScanHead(StartLine(h, line), rest, chunkSize)
  }

  predicate StillParsing(s: ParsingState) {
    s.ParsingInit? || s.ParsingHeader? || s.ParsingBody?
  }

  /** The fall-through switch of `parseRequest`. */
  function Scan(state: ParsingState, h: Head, u: string, chunkSize: int): (o: Outcome)
    requires chunkSize >= -1 && StillParsing(state)
    ensures Fits(o, u) && (ReachedBody(o.state) ==> o.began || state == ParsingBody)
    ensures state == ParsingBody ==> !o.began && !o.state.ParsingInit? && !o.state.ParsingHeader?
  {
    if state.ParsingInit? then ScanStart(h, u, chunkSize)
    else if state.ParsingHeader? then ScanHead(h, u, chunkSize)
    else ScanBody(h, u, chunkSize)
  }

  /** A pass over the request; success of the chunk walk rewinds to the body. */
  function Apply(r: Request, o: Outcome): (r': Request)
    requires r.Valid() && Fits(o, r.Unread())
    requires ReachedBody(o.state) ==> o.began || r.state == ParsingBody
    ensures r'.Valid() && r'.held == r.held && r'.conn == r.conn && r'.state == o.state
  {
    var first := if o.began then |r.held| - |o.body| else r.bodyFirst;
    r.(state := o.state, head := o.head, chunkSize := o.chunkSize, bodyFirst := first,
       pos := if o.state == UploadChunkInit then first else |r.held| - |o.left|)
  }

  function Parse(r: Request): (r': Request)
    requires r.Valid()
    ensures r'.Valid() && r'.held == r.held && r'.conn == r.conn
  {
    if StillParsing(r.state) then Apply(r, Scan(r.state, r.head, r.Unread(), r.chunkSize)) else r
  }

  function Holding(r: Request, more: string): (r': Request)
    ensures r.Valid() ==> r'.Valid()
  {
    r.(held := r.held + more)
  }

  /** One call of `parseRequest`: the switch runs only after a short piece. */
  function Receive(r: Request, piece: Recv): (r': Request)
    requires r.Valid()
    ensures r'.Valid()
  {
    var next := Holding(r, if piece.Piece? then piece.bytes else "").(conn := RecvState(piece));
    if RecvState(piece) == ReceiveDone then Parse(next) else next
  }

  /** `_checkTimeOut`, which ends a call of either kind: too late, nothing else counts. */
  function Timed(r: Request, late: bool): (r': Request)
    ensures r.Valid() ==> r'.Valid()
    ensures r'.held == r.held && r'.pos == r.pos && r'.conn == r.conn && r'.head == r.head
  {
    if late then r.(state := TimedOut) else r
  }

  /** A call of `parseRequest` that may come too late; the clock is looked at only after
      a short piece. */
  function ReceiveTimed(r: Request, piece: Recv, late: bool): (r': Request)
    requires r.Valid()
    ensures r'.Valid()
  {
    Timed(Receive(r, piece), late && RecvState(piece) == ReceiveDone)
  }

  // ----------------------------------------------------------- uploadRequest

  datatype Uploaded = Uploaded(req: Request, out: string)

  function MoveBody(r: Request, io: Io): (w: Uploaded)
    requires r.pos <= |r.held|
    ensures w.req.pos <= |w.req.held| && (!StillParsing(r.state) ==> !StillParsing(w.req.state))
  {
    if io.Failed? then Uploaded(r.(state := ConnectionClosed, conn := Closed), "")
    else
      var n := Taken(r.Unread(), SizeT(r.chunkSize - r.uploaded), io);
      var next := r.(pos := r.pos + n, uploaded := r.uploaded + n, total := r.total + n);
      Uploaded(next.(state := if next.chunkSize != next.uploaded then UploadInit
                              else if r.head.chunked then UploadReadLine else UploadDone),
               r.Unread()[..n])
  }

  function TakeSize(r: Request, line: string, io: Io): (w: Uploaded)
    requires r.pos <= |r.held|
    ensures w.req.pos <= |w.req.held| && (!StillParsing(r.state) ==> !StillParsing(w.req.state))
  {
    var n := if line == "" then -1 else ChunkSize(line);
    var next := r.(chunkSize := n, state := if line != "" && n == -1 then BadRequest else r.state);
    if line == "" || IsParsingEnd(next.state) then Uploaded(next, "")
    else if n == 0 then Uploaded(next.(state := UploadReadLine), "")
    else MoveBody(next.(uploaded := 0, state := UploadInit), io)
  }

  /** The decoder once it has taken `line` from the store. */
  function TakeLine(r: Request, line: string, io: Io): (w: Uploaded)
    requires r.pos <= |r.held|
    ensures w.req.pos <= |w.req.held| && (!StillParsing(r.state) ==> !StillParsing(w.req.state))
  {
    if r.conn == Closed then Uploaded(r.(state := ConnectionClosed), "")
    else if line == [CR] then Uploaded(if r.chunkSize == 0 then r.(state := UploadDone) else r, "")
    else TakeSize(r.(state := UploadReadLine), line, io)
  }

  /** One call of `uploadRequest`, and the bytes its `write` accepted. */
  function Upload(r: Request, io: Io): (w: Uploaded)
    requires r.pos <= |r.held|
    ensures w.req.pos <= |w.req.held| && (!StillParsing(r.state) ==> !StillParsing(w.req.state))
    ensures StillParsing(r.state) ==> w == Uploaded(r, "")
  {
    if r.state.UploadChunkInit? || r.state.UploadReadLine? then
      TakeLine(r.Leaving(AfterLine(r.Unread())), LineOf(r.Unread()), io)
    else if r.state.UploadChunkSize? then TakeSize(r, "", io)
    else if r.state.UploadInit? then MoveBody(r, io)
    else Uploaded(r, "")
  }
}
