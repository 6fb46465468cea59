/** One request and its response, from the moment the request is complete: every
    served step brings the end nearer, and the number of steps is bounded. */
module Exchange {
  import opened Storage
  import opened RequestModel
  import opened ResponseModel
  import opened ResponseFactory
  import opened Chunked
  import opened EventModel
  import opened EventSafety

  /** What is known of the body that is being written or flushed. */
  datatype Body = ByChunks(p: Point, last: string, rest: string) | ByLength(left: string, rest: string)

  ghost predicate BodyIs(r: Request, b: Body) {
    match b
    case ByChunks(p, last, rest) => Stands(r, p, last, rest) && !p.Broken?
    case ByLength(left, rest) => Measured(r, left, rest) && (r.state == UploadInit || r.state == UploadDone)
  }

  /** The bytes of the body that are still to be written. */
  function Due(b: Body): string {
    match b
    case ByChunks(p, _, _) => Owed(p)
    case ByLength(left, _) => left
  }

  lemma {:induction false} BodyStep(r: Request, io: Io, b: Body) returns (b': Body)
    requires r.Valid() && BodyIs(r, b) && io.Moved? && io.n > 0
    ensures var r' := Upload(r, io).req;
            && r'.Valid() && BodyIs(r', b') && r'.head == r.head
            && (r'.state == UploadDone || |r'.Unread()| < |r.Unread()|)
            && r'.state != BadRequest && r'.state != TimedOut && r'.state != ConnectionClosed
    ensures Upload(r, io).out + Due(b') == Due(b)
    ensures Upload(r, io).req.state == UploadDone ==> Due(b') == ""
  {
    UploadKeepsHead(r, io);
    match b {
      case ByChunks(p, last, rest) =>
        var p' := UploadStep(r, io, p, last, rest);
        b' := ByChunks(p', last, rest);
      case ByLength(left, rest) =>
        var left' := MeasuredStep(r, io, left, rest);
        b' := ByLength(left', rest);
        if r.state == UploadInit {
          MoveTakes(r, io, left, rest);
        }
    }
  }

  /** A response that can be completed from `source`, and one that can be sent. */
  predicate Ready(r: Response, source: string, bound: nat) {
    && r.Valid() && 0 < r.goal <= bound && |source| <= bound
    && (r.state.DownloadingInit? ==>
          r.downloaded + |source| == r.contentLength && |r.Unread()| + |source| >= r.goal && r.sent == 0)
    && (r.state.SendingStorage? ==> |r.Unread()| >= r.goal - r.sent && r.sent < r.goal)
  }

  /** Responses of the factory are ready. */
  lemma {:induction false} MadeIsReady(reply: Reply, f: Statics, bound: nat)
    requires WellMade(reply, f) && |reply.resp.held| + |reply.source| <= bound
    ensures Ready(reply.resp, reply.source, bound)
  {
  }

  /** The phases of an exchange, in order. */
  function Rank(kind: EventType): nat {
    match kind
    case RequestReadable => 0
    case RequestUpload => 1
    case BufferFlush => 1
    case CgiReadable => 1
    case ResponseDownload => 2
    case ResponseWritable => 3
  }

  /** How many served steps may still be needed. */
  function StepsLeft(e: Event, bound: nat): nat
    requires Coupled(e)
  {
    match e.kind
    case RequestReadable => |e.req.Unread()| + 2 * bound + 3
    case RequestUpload => |e.req.Unread()| + 2 * bound + 2
    case BufferFlush => |e.req.Unread()| + 2 * bound + 2
    case ResponseDownload => |e.source| + 1 + e.resp.value.goal
    case ResponseWritable => e.resp.value.goal - e.resp.value.sent
    case CgiReadable => 0
  }

  /** An exchange under way, not through a CGI program, whose body is well formed. */
  ghost predicate UnderWay(e: Event, b: Body, bound: nat) {
    && Coupled(e) && !e.kind.CgiReadable?
    && (e.resp.Some? ==> Ready(e.resp.value, e.source, bound))
    && (e.kind.RequestReadable? || e.kind.RequestUpload? || e.kind.BufferFlush? ==> BodyIs(e.req, b))
    && (e.kind.RequestUpload? ==> e.resp.Some?)
  }

  /** Nothing fails, no other flush has taken the file away, everything asked moves at
      least one byte, and what the factory makes is ready. */
  ghost predicate Lively(e: Event, x: Input, bound: nat)
    requires Coupled(e)
  {
    && MadeFor(e, x) && !x.cgi && !x.late && x.faults == NO_FAULTS && x.trash && x.io.Moved? && x.io.n > 0
    && e.clientFd != x.fd && e.clientFd != x.reply.resp.fd && e.clientFd != x.error.resp.fd
    && Ready(x.reply.resp, x.reply.source, bound) && Ready(x.error.resp, x.error.source, bound)
  }

  datatype Progress = Going(event: Event) | Finished | Dropped

  function Next(e: Event, id: nat, x: Input): Progress
    requires Coupled(e)
  {
    if e.kind.ResponseWritable? && Send(e.resp.value, x.io).resp.state.SendingDone? then Finished
    else
      var eff := Serve(e, id, x);
      if eff.thrown != NotThrown || eff.event.None? then Dropped else Going(eff.event.value)
  }

  ghost predicate Nearer(o: Progress, e: Event, b': Body, bound: nat)
    requires Coupled(e)
  {
    match o
    case Finished => true
    case Dropped => false
    case Going(e') => UnderWay(e', b', bound) && StepsLeft(e', bound) < StepsLeft(e, bound) && Rank(e.kind) <= Rank(e'.kind)
  }

  lemma {:induction false} ReadableStep(e: Event, id: nat, x: Input, b: Body, bound: nat)
    requires UnderWay(e, b, bound) && Lively(e, x, bound) && e.kind.RequestReadable?
    ensures Nearer(Next(e, id, x), e, b, bound)
  {
    hide Uploading, Flushing, ServeDownload, ServeWritable, ServeCgi, Send, Upload, BodyIs;
  }

  lemma {:induction false} UploadingStep(e: Event, u: Request, id: nat, x: Input, b': Body, bound: nat)
    requires Coupled(e) && Lively(e, x, bound) && e.kind.RequestUpload?
    requires e.resp.Some? && Ready(e.resp.value, e.source, bound)
    requires u.Valid() && u.head == e.req.head && BodyIs(u, b')
    requires u.state == UploadDone || |u.Unread()| < |e.req.Unread()|
    requires u.state != BadRequest && u.state != TimedOut && u.state != ConnectionClosed
    ensures var eff := Uploading(e, u, id, x);
            && eff.thrown == NotThrown && eff.event.Some? && Nearer(Going(eff.event.value), e, b', bound)
            && (u.state != UploadDone ==> IsWriting(eff.event.value.kind))
  {
  }

  lemma {:induction false} FlushingStep(e: Event, u: Request, id: nat, x: Input, b': Body, bound: nat)
    requires Coupled(e) && Lively(e, x, bound) && e.kind.BufferFlush?
    requires e.resp.Some? && Ready(e.resp.value, e.source, bound)
    requires u.Valid() && u.head == e.req.head && BodyIs(u, b')
    requires u.state == UploadDone || |u.Unread()| < |e.req.Unread()|
    requires u.state != BadRequest && u.state != TimedOut && u.state != ConnectionClosed
    ensures var eff := Flushing(e, u, id, x);
            && eff.thrown == NotThrown && eff.event.Some? && Nearer(Going(eff.event.value), e, b', bound)
            && (u.state != UploadDone ==> IsWriting(eff.event.value.kind))
  {
  }

  lemma {:induction false} DownloadStep(e: Event, id: nat, x: Input, b: Body, bound: nat)
    requires UnderWay(e, b, bound) && Lively(e, x, bound) && e.kind.ResponseDownload?
    ensures Nearer(Next(e, id, x), e, b, bound)
  {
  }

  lemma {:induction false} WritableStep(e: Event, id: nat, x: Input, b: Body, bound: nat)
    requires UnderWay(e, b, bound) && Lively(e, x, bound) && e.kind.ResponseWritable?
    ensures Nearer(Next(e, id, x), e, b, bound)
  {
    var r := e.resp.value;
    var n := Taken(r.Unread(), r.goal - r.sent, x.io);
    assert n > 0;
  }

  predicate IsWriting(kind: EventType) {
    kind.RequestUpload? || kind.BufferFlush?
  }

  /** What one served step writes to the file of the body. */
  function ToFile(e: Event, x: Input): string
    requires Coupled(e)
  {
    if IsWriting(e.kind) then Upload(e.req, x.io).out else ""
  }

  predicate Writes(e: Event, x: Input, b: Body, b': Body)
    requires Coupled(e)
  {
    ToFile(e, x) + Due(b') == Due(b)
  }

  lemma {:induction false} WaysApart(e: Event, x: Input, b: Body, bound: nat)
    requires UnderWay(e, b, bound) && Lively(e, x, bound)
    ensures Coupled(e) && !e.kind.CgiReadable? && x.io.Moved? && x.io.n > 0 && !x.late
    ensures IsWriting(e.kind) ==> BodyIs(e.req, b) && e.resp.Some? && Ready(e.resp.value, e.source, bound)
  {
  }

  /** Every served step finishes the exchange or brings it strictly nearer, in the
      same phase or a later one; the connection is never dropped on the way. */
  lemma {:induction false} EveryStepIsNearer(e: Event, id: nat, x: Input, b: Body, bound: nat) returns (b': Body)
    requires UnderWay(e, b, bound) && Lively(e, x, bound)
    ensures Nearer(Next(e, id, x), e, b', bound)
    ensures Writes(e, x, b, b')
    ensures IsWriting(e.kind) && Next(e, id, x).Going? && !IsWriting(Next(e, id, x).event.kind) ==> Due(b') == ""
  {
    hide Uploading, Flushing, Upload, UnderWay, Lively, Nearer, BodyIs, Ready, ServeReadable, ServeDownload, ServeWritable;
    WaysApart(e, x, b, bound);
    b' := b;
    match e.kind {
      case RequestReadable => ReadableStep(e, id, x, b, bound);
      case RequestUpload =>
        b' := BodyStep(e.req, x.io, b);
        UploadingStep(e, Upload(e.req, x.io).req, id, x, b', bound);
      case BufferFlush =>
        b' := BodyStep(e.req, x.io, b);
        FlushingStep(e, Upload(e.req, x.io).req, id, x, b', bound);
      case ResponseDownload => DownloadStep(e, id, x, b, bound);
      case ResponseWritable => WritableStep(e, id, x, b, bound);
    }
  }

  function Exchanged(e: Event, id: nat, xs: seq<Input>): Progress
    decreases |xs|
  {
    if xs == [] || !Coupled(e) then Going(e)
    else
      var o := Next(e, id, xs[0]);
      if o.Going? then Exchanged(o.event, id, xs[1..]) else o
  }

  ghost predicate AllLively(e: Event, id: nat, xs: seq<Input>, bound: nat)
    decreases |xs|
  {
    xs != [] && Coupled(e) ==>
      && Lively(e, xs[0], bound)
      && var o := Next(e, id, xs[0]);
         o.Going? ==> AllLively(o.event, id, xs[1..], bound)
  }

  /** The main result: a complete request, whose body is well formed and whose I/O is
      lively, has its response sent within as many served steps as it has unread bytes
      plus twice the longest response, plus three. */
  lemma {:induction false} ExchangeFinishes(e: Event, id: nat, xs: seq<Input>, b: Body, bound: nat)
    requires UnderWay(e, b, bound) && AllLively(e, id, xs, bound)
    requires |xs| >= StepsLeft(e, bound)
    ensures Exchanged(e, id, xs) == Finished
    ensures e.kind.RequestReadable? ==> StepsLeft(e, bound) == |e.req.Unread()| + 2 * bound + 3
    decreases |xs|
  {
    assert StepsLeft(e, bound) > 0;
    var b' := EveryStepIsNearer(e, id, xs[0], b, bound);
    var o := Next(e, id, xs[0]);
    if o.Going? {
      ExchangeFinishes(o.event, id, xs[1..], b', bound);
    }
  }
}
