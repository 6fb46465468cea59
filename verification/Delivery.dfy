/** The exchange end to end: a request that has arrived in any pieces is answered, and
    the client can trust the length it is told. */
module Delivery {
  import opened Text
  import opened Storage
  import opened RequestModel
  import opened ResponseModel
  import opened ResponseFactory
  import opened Segmentation
  import opened Agreement
  import opened Chunked
  import opened Framing
  import opened EventModel
  import opened EventSafety
  import opened Exchange

  /** The connection, once `parseRequest` has been called for each piece. */
  function Fed(e: Event, pieces: seq<string>): Event
    requires e.req.Valid()
  {
    e.(req := Feed(e.req, pieces))
  }

  /** A connection that waits for a request. */
  predicate Waiting(e: Event) {
    Coupled(e) && e.kind.RequestReadable? && Idle(e.req)
  }

  /** A new connection waits for a request, and so does one whose response has been
      sent, unless it is to be closed: the results below hold of request after request. */
  lemma {:induction false} WaitsAgain(e: Event, id: nat, x: Input, fd: int)
    requires Coupled(e) && e.kind.ResponseWritable? && Send(e.resp.value, x.io).resp.state.SendingDone?
    requires Serve(e, id, x).thrown == NotThrown
    ensures var eff := Serve(e, id, x);
            if e.req.head.keepAlive && e.resp.value.status != 400 then
              eff.event.Some? && Waiting(eff.event.value) && eff.event.value.clientFd == e.clientFd
            else eff.event.None?
    ensures Waiting(NewEvent(fd, x.now))
  {
  }

  lemma {:induction false} ChunkedIsUnderWay(e: Event, pieces: seq<string>, start: string, fields: seq<string>,
                                             chunks: seq<Chunk>, last: string, rest: string, bound: nat)
    requires Waiting(e) && Cut(pieces) && AcceptableHead(e.req.head, start, fields)
    requires HeadOf(e.req.head, start, fields).chunked && WellFormed(chunks, last)
    requires Concat(pieces) == Message(start, fields, Encode(chunks, last) + rest)
    requires |e.req.held + Concat(pieces)| <= INT_MAX
    ensures UnderWay(Fed(e, pieces), ByChunks(AtSize(chunks), last, rest), bound) && Fed(e, pieces).req.total == 0
    ensures |Fed(e, pieces).req.Unread()| == |Encode(chunks, last)| + |rest|
  {
    ChunkedArrives(e.req, pieces, start, fields, chunks, last, rest);
  }

  lemma {:induction false} MeasuredIsUnderWay(e: Event, pieces: seq<string>, start: string, fields: seq<string>,
                                              body: string, rest: string, bound: nat)
    requires Waiting(e) && Cut(pieces) && AcceptableHead(e.req.head, start, fields)
    requires !HeadOf(e.req.head, start, fields).chunked && HeadOf(e.req.head, start, fields).contentLength == |body|
    requires Concat(pieces) == Message(start, fields, body + rest)
    requires |e.req.held + Concat(pieces)| <= INT_MAX
    ensures UnderWay(Fed(e, pieces), ByLength(body, rest), bound) && Fed(e, pieces).req.total == 0
    ensures |Fed(e, pieces).req.Unread()| == |body| + |rest|
  {
    MeasuredArrives(e.req, pieces, start, fields, body, rest);
  }

  // ------------------------------------------------- what the client is sent

  function Out(e: Event, x: Input): string
    requires Coupled(e)
  {
    if e.kind.ResponseWritable? then Send(e.resp.value, x.io).out else ""
  }

  /** All that the socket takes while the steps `xs` are served. */
  function Wire(e: Event, id: nat, xs: seq<Input>): string
    decreases |xs|
  {
    if xs == [] || !Coupled(e) then ""
    else
      var o := Next(e, id, xs[0]);
      Out(e, xs[0]) + (if o.Going? then Wire(o.event, id, xs[1..]) else "")
  }

  /** All that is written of the body while the steps `xs` are served. */
  function Written(e: Event, id: nat, xs: seq<Input>): string
    decreases |xs|
  {
    if xs == [] || !Coupled(e) then ""
    else
      var o := Next(e, id, xs[0]);
      ToFile(e, xs[0]) + (if o.Going? then Written(o.event, id, xs[1..]) else "")
  }

  /** As the factory makes it. */
  ghost predicate Truthful(r: Response, source: string) {
    exists f: Statics, extra: string :: OneLine(f) && WellMade(Reply(r, extra, source), f)
  }

  ghost predicate AllTruthful(xs: seq<Input>) {
    forall i :: 0 <= i < |xs| ==>
      Truthful(xs[i].reply.resp, xs[i].reply.source) && Truthful(xs[i].error.resp, xs[i].error.source)
  }

  /** The length a client reads in the header is what it finds after the blank line. */
  predicate Tells(message: string) {
    ReadMessage(message).length == |ReadMessage(message).body|
  }

  /** All that a response has to be sent. */
  function MessageOf(r: Response, source: string): string {
    r.held + source
  }

  /** What is on the wire is the front of a message that tells its length. */
  ghost predicate Sends(r: Response, source: string, wire: string, message: string) {
    Pumping(Pump(r, source, wire), message) && |message| == r.goal && Tells(message)
  }

  /** The message that `e` is about to send, or is sending. */
  ghost predicate Telling(e: Event, wire: string, message: string) {
    match e.kind
    case RequestReadable => wire == ""
    case RequestUpload => AboutToSend(e, wire, message)
    case BufferFlush => AboutToSend(e, wire, message)
    case CgiReadable => false
    case _ => e.resp.Some? && Sends(e.resp.value, e.source, wire, message)
  }

  ghost predicate AboutToSend(e: Event, wire: string, message: string) {
    && wire == "" && e.resp.Some? && Truthful(e.resp.value, e.source)
    && message == MessageOf(e.resp.value, e.source)
  }

  lemma {:induction false} TruthfulSends(r: Response, source: string)
    requires Truthful(r, source)
    ensures Sends(r, source, "", MessageOf(r, source)) && ReadMessage(MessageOf(r, source)).code == r.status
  {
    hide Header, ReadMessage, OneLine;
    var f: Statics, extra: string :| OneLine(f) && WellMade(Reply(r, extra, source), f);
    ToldOnWire(f, extra, source);
    MadePumps(r, f, extra, source);
  }

  lemma {:induction false} MadePumps(r: Response, f: Statics, extra: string, source: string)
    requires WellMade(Reply(r, extra, source), f)
    ensures MessageOf(r, source) == Header(f) + extra + source && r.status == f.statusCode
    ensures Pumping(Pump(r, source, ""), MessageOf(r, source)) && r.goal == |MessageOf(r, source)|
  {
    hide Header;
    assert Header(f) + extra + "" == Header(f) + extra;
    assert "" + (r.Unread() + source) == Header(f) + extra + source;
  }

  /** The pump goes on; when it is done the whole message is out. */
  lemma {:induction false} SendingGoesOn(r: Response, source: string, wire: string, io: Io, message: string)
    requires Sends(r, source, wire, message)
    ensures var p := Step(Pump(r, source, wire), io);
            && Sends(p.resp, p.source, p.wire, message)
            && (p.resp.state.SendingDone? ==> p.wire == message)
  {
    hide Tells;
    StepKeepsPumping(Pump(r, source, wire), io, message);
    var p := Step(Pump(r, source, wire), io);
    if p.resp.state.SendingDone? {
      assert message == p.wire + (p.resp.Unread() + p.source);
      assert p.wire == message;
    }
  }

  /** After a step: still at this message, or done with it. */
  ghost predicate Told(o: Progress, wire: string, message: string) {
    match o
    case Going(e) => Telling(e, wire, message)
    case Finished => wire == message && Tells(message)
    case Dropped => false
  }

  /** The message after a step: that of the response that was made in it, if one was. */
  function NextMessage(e: Event, x: Input, message: string): string
    requires Coupled(e)
  {
    if e.kind.RequestReadable? then MessageOf(x.reply.resp, x.reply.source)
    else if e.kind.BufferFlush? && ErrorIsMade(e, x) then MessageOf(x.error.resp, x.error.source)
    else message
  }

  lemma {:induction false} ReadableTells(e: Event, id: nat, x: Input, bound: nat)
    requires Coupled(e) && e.kind.RequestReadable? && Lively(e, x, bound)
    requires Truthful(x.reply.resp, x.reply.source)
    ensures Told(Next(e, id, x), "", MessageOf(x.reply.resp, x.reply.source))
  {
    hide Truthful, Sends, CodeFits, MessageOf, ReadMessage;
    TruthfulSends(x.reply.resp, x.reply.source);
  }

  lemma {:induction false} DownloadTells(e: Event, id: nat, x: Input, b: Body, bound: nat, wire: string, message: string)
    requires UnderWay(e, b, bound) && e.kind.ResponseDownload? && Lively(e, x, bound) && Telling(e, wire, message)
    ensures Told(Next(e, id, x), wire, message)
  {
    hide Sends;
    SendingGoesOn(e.resp.value, e.source, wire, x.io, message);
  }

  lemma {:induction false} WritableTells(e: Event, id: nat, x: Input, b: Body, bound: nat, wire: string, message: string)
    requires UnderWay(e, b, bound) && e.kind.ResponseWritable? && Lively(e, x, bound) && Telling(e, wire, message)
    ensures Told(Next(e, id, x), wire + Out(e, x), message)
  {
    hide Sends, Tells;
    SendingGoesOn(e.resp.value, e.source, wire, x.io, message);
    assert Sends(e.resp.value, e.source, wire, message) ==> Tells(message) by {
      SendsTells(e.resp.value, e.source, wire, message);
    }
  }

  lemma {:induction false} SendsTells(r: Response, source: string, wire: string, message: string)
    ensures Sends(r, source, wire, message) ==> Tells(message)
  {
    hide Tells;
  }

  lemma {:induction false} UploadingTells(e: Event, u: Request, id: nat, x: Input, e': Event)
    requires Coupled(e) && e.kind.RequestUpload? && e.resp.Some? && !x.cgi
    requires u.state != BadRequest && u.state != TimedOut && u.state != ConnectionClosed
    requires Truthful(e.resp.value, e.source) && Uploading(e, u, id, x).event == Some(e') && Uploading(e, u, id, x).thrown == NotThrown
    ensures Telling(e', "", MessageOf(e.resp.value, e.source))
  {
    hide Truthful, Sends;
    TruthfulSends(e.resp.value, e.source);
  }

  /** What a flush makes of the response. */
  lemma {:induction false} FlushResponds(e: Event, u: Request, id: nat, x: Input, e': Event)
    requires Coupled(e) && e.kind.BufferFlush? && e.resp.Some?
    requires u.state != BadRequest && u.state != TimedOut && u.state != ConnectionClosed
    requires Flushing(e, u, id, x).event == Some(e') && Flushing(e, u, id, x).thrown == NotThrown
    ensures var replaced := u.state == UploadDone && TooLarge(x);
            && e'.resp == (if replaced then Some(x.error.resp) else e.resp)
            && e'.source == (if replaced then x.error.source else e.source)
            && (e'.kind.BufferFlush? || e'.kind.ResponseDownload? || e'.kind.ResponseWritable?)
  {
  }

  lemma {:induction false} FlushingTells(e: Event, u: Request, id: nat, x: Input, e': Event)
    requires Coupled(e) && e.kind.BufferFlush? && e.resp.Some?
    requires u.state != BadRequest && u.state != TimedOut && u.state != ConnectionClosed
    requires Truthful(e.resp.value, e.source) && Truthful(x.error.resp, x.error.source)
    requires Flushing(e, u, id, x).event == Some(e') && Flushing(e, u, id, x).thrown == NotThrown
    ensures Telling(e', "", if u.state == UploadDone && TooLarge(x) then MessageOf(x.error.resp, x.error.source)
                            else MessageOf(e.resp.value, e.source))
  {
    hide Truthful, Sends, MessageOf, ReadMessage, Flushing, Coupled;
    FlushResponds(e, u, id, x, e');
    TruthfulSends(e.resp.value, e.source);
    TruthfulSends(x.error.resp, x.error.source);
  }

  lemma {:induction false} EveryStepTells(e: Event, id: nat, x: Input, b: Body, bound: nat, wire: string, message: string, o: Progress)
    requires UnderWay(e, b, bound) && Lively(e, x, bound) && Telling(e, wire, message)
    requires Truthful(x.reply.resp, x.reply.source) && Truthful(x.error.resp, x.error.source)
    requires o == Next(e, id, x) && !o.Dropped?
    ensures Told(o, wire + Out(e, x), NextMessage(e, x, message))
  {
    hide Truthful, Sends, Tells, Ready, Uploading, Flushing, Refuses, Finishes, Breaks, MessageOf, CodeFits;
    assert !e.kind.ResponseWritable? ==> wire + Out(e, x) == wire;
    match e.kind {
      case RequestReadable => ReadableTells(e, id, x, bound);
      case RequestUpload =>
        var _ := BodyStep(e.req, x.io, b);
        UploadingTells(e, Upload(e.req, x.io).req, id, x, o.event);
      case BufferFlush =>
        var _ := BodyStep(e.req, x.io, b);
        UploadForetold(e.req, x.io);
        FlushingTells(e, Upload(e.req, x.io).req, id, x, o.event);
      case ResponseDownload => DownloadTells(e, id, x, b, bound, wire, message);
      case ResponseWritable => WritableTells(e, id, x, b, bound, wire, message);
    }
  }

  /** The message that is left when the steps have been served. */
  function LastMessage(e: Event, id: nat, xs: seq<Input>, message: string): string
    decreases |xs|
  {
    if xs == [] || !Coupled(e) then message
    else
      var o, next := Next(e, id, xs[0]), NextMessage(e, xs[0], message);
      if o.Going? then LastMessage(o.event, id, xs[1..], next) else next
  }

  /** The main result, from any point of an exchange on: it finishes, and the client has
      then been sent just the last message, which tells its own length truly. */
  lemma {:induction false} ExchangeTells(e: Event, id: nat, xs: seq<Input>, b: Body, bound: nat, wire: string, message: string)
    requires UnderWay(e, b, bound) && AllLively(e, id, xs, bound) && AllTruthful(xs)
    requires |xs| >= StepsLeft(e, bound) && Telling(e, wire, message)
    ensures Exchanged(e, id, xs) == Finished
    ensures wire + Wire(e, id, xs) == LastMessage(e, id, xs, message) && Tells(LastMessage(e, id, xs, message))
    decreases |xs|
  {
    hide Coupled, Ready, BodyIs, Lively, Telling, Truthful, Tells, StepsLeft, Next, Out, NextMessage;
    StepsArePositive(e, b, bound);
    var x := xs[0];
    var b' := EveryStepIsNearer(e, id, x, b, bound);
    var o := Next(e, id, x);
    EveryStepTells(e, id, x, b, bound, wire, message, o);
    var out := Out(e, x);
    if o.Going? {
      ExchangeTells(o.event, id, xs[1..], b', bound, wire + out, NextMessage(e, x, message));
      var more := Wire(o.event, id, xs[1..]);
      assert (wire + out) + more == wire + (out + more);
    } else {
      assert wire + (out + "") == wire + out;
    }
  }

  // ------------------------------------------------- which response it was

  /** Each flush finds in its file just what it has written itself, for no other is under
      way, and `limit` is the limit of the location. */
  ghost predicate AloneWithin(e: Event, id: nat, xs: seq<Input>, limit: int)
    decreases |xs|
  {
    xs != [] && Coupled(e) ==>
      && (e.kind.BufferFlush? ==> xs[0].fileSize == Advanced(e, xs[0]).total && xs[0].limit == limit)
      && var o := Next(e, id, xs[0]);
         o.Going? ==> AloneWithin(o.event, id, xs[1..], limit)
  }

  lemma UploadCounts(r: Request, io: Io)
    requires r.pos <= |r.held|
    ensures Upload(r, io).req.total == r.total + |Upload(r, io).out|
  {
    hide LineOf, AfterLine, ChunkSize;
  }

  /** Once nothing is to be flushed any more, the message stays. */
  lemma {:induction false} MessageStays(e: Event, id: nat, xs: seq<Input>, b: Body, bound: nat, message: string)
    requires UnderWay(e, b, bound) && AllLively(e, id, xs, bound) && !e.kind.RequestReadable? && !e.kind.BufferFlush?
    ensures LastMessage(e, id, xs, message) == message
    decreases |xs|
  {
    hide Ready, BodyIs, Lively, StepsLeft, Next, Coupled;
    if xs != [] {
      UnderWayIsCoupled(e, b, bound);
      var b' := EveryStepIsNearer(e, id, xs[0], b, bound);
      var o := Next(e, id, xs[0]);
      if o.Going? {
        NoneFlushesLater(e, id, xs[0]);
        MessageStays(o.event, id, xs[1..], b', bound, message);
      }
    }
  }

  lemma {:induction false} UnderWayIsCoupled(e: Event, b: Body, bound: nat)
    requires UnderWay(e, b, bound)
    ensures Coupled(e)
  {
  }

  lemma {:induction false} NoneFlushesLater(e: Event, id: nat, x: Input)
    requires Coupled(e) && !e.kind.RequestReadable? && !e.kind.BufferFlush? && Next(e, id, x).Going?
    requires !e.kind.CgiReadable?
    ensures var kind := Next(e, id, x).event.kind; !kind.BufferFlush? && (kind.RequestReadable? ==> e.kind.ResponseWritable?)
  {
    hide Upload, Download;
  }

  /** A step of a flush: either it goes on, or all has been taken and its size decides. */
  lemma {:induction false} FlushStepJudges(e: Event, id: nat, x: Input, b: Body, bound: nat, o: Progress)
    requires UnderWay(e, b, bound) && Lively(e, x, bound) && e.kind.BufferFlush?
    requires o == Next(e, id, x) && o.Going?
    ensures o.event.kind.BufferFlush? ==> !ErrorIsMade(e, x)
    ensures !o.event.kind.BufferFlush? ==>
              (ErrorIsMade(e, x) <==> TooLarge(x)) && (ErrorIsMade(e, x) ==> x.error.resp.status == 413)
    ensures o.event.kind.BufferFlush? ==> o.event.req == Advanced(e, x)
  {
    hide Upload, Refuses, Finishes, Breaks, Serve, Ready, BodyIs;
    var _ := BodyStep(e.req, x.io, b);
    UploadForetold(e.req, x.io);
    LeadsExactly(e, id, x);
    FlushKeepsRequest(e, id, x);
  }

  lemma {:induction false} FlushKeepsRequest(e: Event, id: nat, x: Input)
    requires Coupled(e) && e.kind.BufferFlush?
    ensures var eff := Serve(e, id, x);
            eff.event.Some? && eff.thrown == NotThrown && eff.event.value.kind.BufferFlush? ==> eff.event.value.req == Advanced(e, x)
  {
    hide Advanced;
    UploadKeepsHead(e.req, x.io);
  }

  /** The message `made` is that of one of the error responses, for a body too large. */
  ghost predicate IsTooLarge(xs: seq<Input>, made: string) {
    exists j :: 0 <= j < |xs| && made == MessageOf(xs[j].error.resp, xs[j].error.source) && xs[j].error.resp.status == 413
  }

  lemma {:induction false} LaterIsToo(xs: seq<Input>, made: string)
    requires xs != [] && IsTooLarge(xs[1..], made)
    ensures IsTooLarge(xs, made)
  {
    var j :| 0 <= j < |xs[1..]| && made == MessageOf(xs[1..][j].error.resp, xs[1..][j].error.source)
             && xs[1..][j].error.resp.status == 413;
    assert xs[1..][j] == xs[j + 1];
  }

  /** A body of `total` bytes that is flushed is answered as it was going to be exactly if
      it is within the limit, and else with 413. */
  lemma {:induction false} FlushIsJudged(e: Event, id: nat, xs: seq<Input>, b: Body, bound: nat, limit: int, total: nat, message: string)
    requires UnderWay(e, b, bound) && AllLively(e, id, xs, bound) && AloneWithin(e, id, xs, limit)
    requires e.kind.BufferFlush? && |xs| >= StepsLeft(e, bound) && e.req.total + |Due(b)| == total
    ensures var last := LastMessage(e, id, xs, message); if total > limit then IsTooLarge(xs, last) else last == message
    decreases |xs|
  {
    hide Ready, BodyIs, Lively, StepsLeft, Next, Coupled, Due, Upload, MessageOf, ErrorIsMade;
    UnderWayIsCoupled(e, b, bound);
    StepsArePositive(e, b, bound);
    var x := xs[0];
    var b' := EveryStepIsNearer(e, id, x, b, bound);
    var o := Next(e, id, x);
    OnlySendingEnds(e, id, x);
    FlushStepJudges(e, id, x, b, bound, o);
    WaysApart(e, x, b, bound);
    ValidRequest(e);
    UploadCounts(e.req, x.io);
    var next := NextMessage(e, x, message);
    if o.event.kind.BufferFlush? {
      FlushIsJudged(o.event, id, xs[1..], b', bound, limit, total, next);
      if total > limit {
        LaterIsToo(xs, LastMessage(e, id, xs, message));
      }
    } else {
      NoUploadBegins(e, id, x);
      MessageStays(o.event, id, xs[1..], b', bound, next);
    }
  }

  lemma {:induction false} ValidRequest(e: Event)
    requires Coupled(e)
    ensures e.req.pos <= |e.req.held|
  {
  }

  lemma {:induction false} OnlySendingEnds(e: Event, id: nat, x: Input)
    requires Coupled(e)
    ensures Next(e, id, x).Finished? ==> e.kind.ResponseWritable?
  {
    hide Serve;
  }

  lemma {:induction false} NoUploadBegins(e: Event, id: nat, x: Input)
    requires Coupled(e) && e.kind.BufferFlush? && Next(e, id, x).Going?
    ensures var kind := Next(e, id, x).event.kind; !kind.RequestUpload? && !kind.RequestReadable?
  {
    hide Upload, Advanced;
  }

  predicate FlushesFirst(kind: ResponseType) {
    kind.TypeFlush? || kind.TypeFlushErr?
  }

  lemma {:induction false} FlushStarts(e: Event, id: nat, x: Input, b: Body, bound: nat)
    requires UnderWay(e, b, bound) && Lively(e, x, bound) && e.kind.RequestReadable?
    ensures var o := Next(e, id, x);
            && o.Going? && UnderWay(o.event, b, bound) && StepsLeft(o.event, bound) < StepsLeft(e, bound)
            && (o.event.kind.BufferFlush? <==> FlushesFirst(x.reply.resp.kind)) && !o.event.kind.RequestReadable?
            && o.event.req == e.req
  {
    ReadableStep(e, id, x, b, bound);
  }

  /** The client is sent the first response made; but if that was to be sent after a body
      was flushed, and the body is larger than the limit, it is sent 413. */
  lemma {:induction false} AnswerIsChosen(e: Event, id: nat, xs: seq<Input>, b: Body, bound: nat, limit: int)
    requires UnderWay(e, b, bound) && AllLively(e, id, xs, bound) && AllTruthful(xs) && AloneWithin(e, id, xs, limit)
    requires e.kind.RequestReadable? && |xs| >= StepsLeft(e, bound) && e.req.total == 0
    ensures var last, first := LastMessage(e, id, xs, ""), xs[0].reply;
            if FlushesFirst(first.resp.kind) && |Due(b)| > limit then ReadMessage(last).code == 413
            else last == MessageOf(first.resp, first.source) && ReadMessage(last).code == first.resp.status
  {
    hide Ready, BodyIs, Lively, StepsLeft, Next, Coupled, Due, Upload, Truthful, MessageOf, ReadMessage;
    UnderWayIsCoupled(e, b, bound);
    StepsArePositive(e, b, bound);
    FlushStarts(e, id, xs[0], b, bound);
    var o, next := Next(e, id, xs[0]), NextMessage(e, xs[0], "");
    TruthfulSends(xs[0].reply.resp, xs[0].reply.source);
    if FlushesFirst(xs[0].reply.resp.kind) {
      FlushIsJudged(o.event, id, xs[1..], b, bound, limit, |Due(b)|, next);
      if |Due(b)| > limit {
        var last := LastMessage(e, id, xs, "");
        var j :| 0 <= j < |xs[1..]| && last == MessageOf(xs[1..][j].error.resp, xs[1..][j].error.source)
                 && xs[1..][j].error.resp.status == 413;
        assert xs[1..][j] == xs[j + 1];
        TruthfulSends(xs[j + 1].error.resp, xs[j + 1].error.source);
      }
    } else {
      MessageStays(o.event, id, xs[1..], b, bound, next);
    }
  }

  lemma {:induction false} StepsArePositive(e: Event, b: Body, bound: nat)
    requires UnderWay(e, b, bound)
    ensures StepsLeft(e, bound) > 0
  {
  }

  /** The file is given what is due of the body, neither more nor less, by the time
      the exchange has finished. */
  lemma {:induction false} DueIsWritten(e: Event, id: nat, xs: seq<Input>, b: Body, bound: nat)
    requires UnderWay(e, b, bound) && AllLively(e, id, xs, bound) && !e.kind.RequestReadable?
    requires |xs| >= StepsLeft(e, bound)
    ensures Written(e, id, xs) == if IsWriting(e.kind) then Due(b) else ""
    decreases |xs|
  {
    hide Coupled, Ready, BodyIs, Lively, StepsLeft, Next, Due;
    StepsArePositive(e, b, bound);
    var x := xs[0];
    var b' := EveryStepIsNearer(e, id, x, b, bound);
    var o := Next(e, id, x);
    if o.Going? {
      DueIsWritten(o.event, id, xs[1..], b', bound);
    } else {
      OnlySendingEnds(e, id, x);
    }
  }

  lemma {:induction false} PostStartsWriting(e: Event, id: nat, x: Input, b: Body, bound: nat)
    requires UnderWay(e, b, bound) && Lively(e, x, bound) && e.kind.RequestReadable? && x.reply.resp.kind.TypePost?
    ensures var o := Next(e, id, x);
            o.Going? && o.event.kind.RequestUpload? && UnderWay(o.event, b, bound)
            && StepsLeft(o.event, bound) < StepsLeft(e, bound)
  {
    ReadableStep(e, id, x, b, bound);
  }

  /** When the response makes a file of the body, the file holds just the body. */
  lemma {:induction false} BodyIsWritten(e: Event, id: nat, xs: seq<Input>, b: Body, bound: nat)
    requires UnderWay(e, b, bound) && AllLively(e, id, xs, bound) && e.kind.RequestReadable?
    requires |xs| >= StepsLeft(e, bound) && xs[0].reply.resp.kind.TypePost?
    ensures Written(e, id, xs) == Due(b)
  {
    hide Coupled, Ready, BodyIs, Lively, StepsLeft, Next, Due;
    StepsArePositive(e, b, bound);
    PostStartsWriting(e, id, xs[0], b, bound);
    DueIsWritten(Next(e, id, xs[0]).event, id, xs[1..], b, bound);
  }

  /** A chunked request, cut anyhow, is answered within as many served steps as what
      follows its head has bytes, plus twice the longest response, plus three; and the
      answer tells its length truly. */
  lemma {:induction false} ChunkedIsAnswered(e: Event, pieces: seq<string>, start: string, fields: seq<string>,
                                             chunks: seq<Chunk>, last: string, rest: string,
                                             id: nat, xs: seq<Input>, bound: nat, limit: int)
    requires Waiting(e) && Cut(pieces) && AcceptableHead(e.req.head, start, fields)
    requires HeadOf(e.req.head, start, fields).chunked && WellFormed(chunks, last)
    requires Concat(pieces) == Message(start, fields, Encode(chunks, last) + rest)
    requires |e.req.held + Concat(pieces)| <= INT_MAX
    requires AllLively(Fed(e, pieces), id, xs, bound) && AllTruthful(xs)
    requires |xs| >= |Encode(chunks, last)| + |rest| + 2 * bound + 3
    ensures Exchanged(Fed(e, pieces), id, xs) == Finished && Tells(Wire(Fed(e, pieces), id, xs))
    ensures xs[0].reply.resp.kind.TypePost? ==> Written(Fed(e, pieces), id, xs) == Flatten(chunks)
    ensures AloneWithin(Fed(e, pieces), id, xs, limit) ==>
              var sent, first := Wire(Fed(e, pieces), id, xs), xs[0].reply;
              if FlushesFirst(first.resp.kind) && |Flatten(chunks)| > limit then ReadMessage(sent).code == 413
              else sent == MessageOf(first.resp, first.source) && ReadMessage(sent).code == first.resp.status
  {
    hide AcceptableHead, HeadOf, Message, Feed, Concat, Cut, AllLively, AllTruthful, AloneWithin, Wire, Exchanged, Tells, Written,
         UnderWay, MessageOf, ReadMessage, FlushesFirst, LastMessage;
    ChunkedIsUnderWay(e, pieces, start, fields, chunks, last, rest, bound);
    ExchangeTells(Fed(e, pieces), id, xs, ByChunks(AtSize(chunks), last, rest), bound, "", "");
    if xs[0].reply.resp.kind.TypePost? {
      BodyIsWritten(Fed(e, pieces), id, xs, ByChunks(AtSize(chunks), last, rest), bound);
    }
    assert "" + Wire(Fed(e, pieces), id, xs) == Wire(Fed(e, pieces), id, xs);
    if AloneWithin(Fed(e, pieces), id, xs, limit) {
      AnswerIsChosen(Fed(e, pieces), id, xs, ByChunks(AtSize(chunks), last, rest), bound, limit);
    }
  }

  /** The same for a request with a body of declared length, the empty one included. */
  lemma {:induction false} MeasuredIsAnswered(e: Event, pieces: seq<string>, start: string, fields: seq<string>,
                                              body: string, rest: string, id: nat, xs: seq<Input>, bound: nat, limit: int)
    requires Waiting(e) && Cut(pieces) && AcceptableHead(e.req.head, start, fields)
    requires !HeadOf(e.req.head, start, fields).chunked && HeadOf(e.req.head, start, fields).contentLength == |body|
    requires Concat(pieces) == Message(start, fields, body + rest)
    requires |e.req.held + Concat(pieces)| <= INT_MAX
    requires AllLively(Fed(e, pieces), id, xs, bound) && AllTruthful(xs)
    requires |xs| >= |body| + |rest| + 2 * bound + 3
    ensures Exchanged(Fed(e, pieces), id, xs) == Finished && Tells(Wire(Fed(e, pieces), id, xs))
    ensures xs[0].reply.resp.kind.TypePost? ==> Written(Fed(e, pieces), id, xs) == body
    ensures AloneWithin(Fed(e, pieces), id, xs, limit) ==>
              var sent, first := Wire(Fed(e, pieces), id, xs), xs[0].reply;
              if FlushesFirst(first.resp.kind) && |body| > limit then ReadMessage(sent).code == 413
              else sent == MessageOf(first.resp, first.source) && ReadMessage(sent).code == first.resp.status
  {
    hide AcceptableHead, HeadOf, Message, Feed, Concat, Cut, AllLively, AllTruthful, AloneWithin, Wire, Exchanged, Tells, Written,
         UnderWay, MessageOf, ReadMessage, FlushesFirst, LastMessage;
    MeasuredIsUnderWay(e, pieces, start, fields, body, rest, bound);
    ExchangeTells(Fed(e, pieces), id, xs, ByLength(body, rest), bound, "", "");
    if xs[0].reply.resp.kind.TypePost? {
      BodyIsWritten(Fed(e, pieces), id, xs, ByLength(body, rest), bound);
    }
    assert "" + Wire(Fed(e, pieces), id, xs) == Wire(Fed(e, pieces), id, xs);
    if AloneWithin(Fed(e, pieces), id, xs, limit) {
      AnswerIsChosen(Fed(e, pieces), id, xs, ByLength(body, rest), bound, limit);
    }
  }
}
