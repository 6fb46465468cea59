/** The response as a value: what one call of `sendResponse` or `downloadResponse`
    does to it, and the pump that alternates them until the message is out. */
module ResponseModel {
  import opened Storage

  datatype ResponseType = TypePost | TypeGet | TypeCgi | TypeDel | TypeFlush | TypeFlushErr

  datatype SendingState = DownloadingInit | SendingStorage | SendingDone | SendingClosed | SendingTimedOut

  /** `held` is all the store holds, `pos` how much of it is consumed. */
  datatype Response = Response(
    state: SendingState, kind: ResponseType, held: string, pos: nat, sent: nat, goal: nat,
    contentLength: nat, downloaded: nat, status: int, fd: int)
  {
    predicate Valid() {
      pos <= |held| && sent <= goal
    }

    function Unread(): string
      requires pos <= |held|
    {
      held[pos..]
    }
  }

  /** The constructor for a response made of a header alone, or of a header and the
      bytes of another store. */
  function NewResponse(kind: ResponseType, state: SendingState, header: string, extra: string,
                       status: int, contentLength: nat, fd: int): Response {
    Response(state, kind, header + extra, 0, 0, contentLength + |header|, contentLength, 0, status, fd)
  }

  datatype Sent = Sent(resp: Response, out: string)

  function Send(r: Response, io: Io): (s: Sent)
    requires r.Valid()
    ensures s.resp.Valid()
  {
    if !r.state.SendingStorage? then Sent(r, "")
    else if io.Failed? then Sent(r.(state := SendingClosed), "")
    else
      var n := Taken(r.Unread(), r.goal - r.sent, io);
      Sent(r.(pos := r.pos + n, sent := r.sent + n,
              state := if r.goal == r.sent + n then SendingDone else SendingStorage),
           r.Unread()[..n])
  }

  /** `piece` is what the `read` returned; none when it failed. */
  datatype FileRead = Bytes(piece: string) | ReadFailed

  function Download(r: Response, read: FileRead): (r': Response)
    requires r.Valid()
    ensures r'.Valid()
  {
    if !r.state.DownloadingInit? then r
    else if read.ReadFailed? then r.(state := SendingClosed)
    else
      var total := r.downloaded + |read.piece|;
      r.(held := r.held + read.piece, downloaded := total,
         state := if r.contentLength == total then SendingStorage else DownloadingInit)
  }

  // ------------------------------------------------------------- the pump

  /** A response, the bytes its source file still has, and what the socket was given. */
  datatype Pump = Pump(resp: Response, source: string, wire: string)

  /** The same read for a response; that it failed is not the same as nothing. */
  function ReadOf(source: string, io: Io): (read: FileRead)
    ensures read.Bytes? ==> read.piece <= source
  {
    if io.Failed? then ReadFailed else Bytes(ReadNext(source, io))
  }

  function Step(p: Pump, io: Io): (p': Pump)
    requires p.resp.Valid()
    ensures p'.resp.Valid()
  {
    if p.resp.state.DownloadingInit? then
      var read := ReadOf(p.source, io);
      Pump(Download(p.resp, read), if read.Bytes? then p.source[|read.piece|..] else p.source, p.wire)
    else
      var s := Send(p.resp, io);
      Pump(s.resp, p.source, p.wire + s.out)
  }

  function Run(p: Pump, ios: seq<Io>): (p': Pump)
    requires p.resp.Valid()
    ensures p'.resp.Valid()
    decreases |ios|
  {
    if ios == [] then p else Run(Step(p, ios[0]), ios[1..])
  }

  /** All the bytes there are to send, `all`, split between the wire, the store and
      the file, and the counters that say where the split is. */
  ghost predicate Pumping(p: Pump, all: string) {
    var r := p.resp;
    && r.Valid()
    && p.wire + (r.Unread() + p.source) == all
    && r.sent == |p.wire|
    && r.downloaded + |p.source| == r.contentLength
    && r.goal <= |all|
    && (r.state.DownloadingInit? ==> r.sent == 0)
    && (r.state.SendingStorage? ==> p.source == "" && (r.sent < r.goal || r.goal == 0))
    && (r.state.SendingDone? ==> r.sent == r.goal)
  }

  lemma {:induction false} StepKeepsPumping(p: Pump, io: Io, all: string)
    requires Pumping(p, all)
    ensures Pumping(Step(p, io), all)
    ensures Step(p, io).resp.goal == p.resp.goal
  {
    var r := p.resp;
    if r.state.DownloadingInit? {
      if io.Moved? {
        var n := Min(io.n, Min(READ_BUFFER_SIZE, |p.source|));
        Shift(p.wire, r.held, r.pos, p.source, n);
      }
    } else if r.state.SendingStorage? && io.Moved? {
      var n := Taken(r.Unread(), r.goal - r.sent, io);
      SendShift(p.wire, r.held, r.pos, p.source, n);
    }
  }

  /** Bytes move from the file to the store. */
  lemma {:induction false} Shift(wire: string, held: string, pos: nat, source: string, n: nat)
    requires pos <= |held| && n <= |source|
    ensures wire + ((held + source[..n])[pos..] + source[n..]) == wire + (held[pos..] + source)
  {
    assert (held + source[..n])[pos..] == held[pos..] + source[..n];
    assert source[..n] + source[n..] == source;
  }

  /** Bytes move from the store to the wire. */
  lemma {:induction false} SendShift(wire: string, held: string, pos: nat, source: string, n: nat)
    requires pos + n <= |held|
    ensures (wire + held[pos..][..n]) + (held[pos + n..] + source) == wire + (held[pos..] + source)
  {
    assert held[pos..][..n] + held[pos + n..] == held[pos..];
  }

  /** While it sends, the store holds all that is still to go: the pump cannot stall
      short of its goal. */
  lemma {:induction false} NeverShort(p: Pump, all: string)
    requires Pumping(p, all) && p.resp.state.SendingStorage?
    ensures |p.resp.Unread()| >= p.resp.goal - p.resp.sent
  {
    assert |p.wire + (p.resp.Unread() + p.source)| == |all|;
  }

  lemma {:induction false} RunKeepsPumping(p: Pump, ios: seq<Io>, all: string)
    requires Pumping(p, all)
    ensures Pumping(Run(p, ios), all) && Run(p, ios).resp.goal == p.resp.goal
    decreases |ios|
  {
    if ios != [] {
      StepKeepsPumping(p, ios[0], all);
      RunKeepsPumping(Step(p, ios[0]), ios[1..], all);
    }
  }

  /** A response as the factory makes it, with the file it is to be completed from:
      no file and nothing to download, or a file of just the declared length. */
  ghost predicate Fresh(r: Response, header: string, extra: string, source: string) {
    && r == NewResponse(r.kind, r.state, header, extra, r.status, |source|, r.fd)
    && header != ""
    && (r.state.DownloadingInit? || (r.state.SendingStorage? && source == ""))
  }

  /** The main result: whatever each read and send moves, the socket has been given a
      prefix of the message, and the response is done exactly when that prefix is the
      first `goal` bytes of header, extra bytes and file. */
  lemma {:induction false} PumpDelivers(r: Response, header: string, extra: string, source: string, ios: seq<Io>)
    requires Fresh(r, header, extra, source)
    ensures r.goal == |header| + |source| <= |header + extra + source|
    ensures var p := Run(Pump(r, source, ""), ios);
            var message := (header + extra + source)[..r.goal];
            && p.wire <= message
            && (p.resp.state == SendingDone <==> p.wire == message)
  {
    var all := header + extra + source;
    assert "" + (r.Unread() + source) == all;
    RunKeepsPumping(Pump(r, source, ""), ios, all);
    var p := Run(Pump(r, source, ""), ios);
    assert all[..|p.wire|] == p.wire;
    assert all[..r.goal][..|p.wire|] == all[..|p.wire|];
    if p.wire == all[..r.goal] {
      ClosedShort(Pump(r, source, ""), ios, all);
    }
  }

  /** A connection that broke did so with something left to send. */
  lemma {:induction false} ClosedShort(p: Pump, ios: seq<Io>, all: string)
    requires Pumping(p, all) && p.resp.goal > 0
    requires !p.resp.state.SendingDone? ==> p.resp.sent < p.resp.goal
    requires !p.resp.state.SendingTimedOut?
    ensures !Run(p, ios).resp.state.SendingDone? ==> Run(p, ios).resp.sent < Run(p, ios).resp.goal
    decreases |ios|
  {
    if ios != [] {
      StepKeepsPumping(p, ios[0], all);
      ClosedShort(Step(p, ios[0]), ios[1..], all);
    }
  }

  /** For a response made of a header and its file, the message is header and file. */
  lemma {:induction false} FileIsDelivered(r: Response, header: string, source: string, ios: seq<Io>)
    requires Fresh(r, header, "", source)
    ensures var p := Run(Pump(r, source, ""), ios);
            && p.wire <= header + source
            && (p.resp.state == SendingDone <==> p.wire == header + source)
  {
    PumpDelivers(r, header, "", source, ios);
    assert header + "" + source == header + source;
    assert (header + source)[..r.goal] == header + source;
  }

  /** Steps that can move something get there: a bound on how many are needed. */
  function Distance(p: Pump): nat
    requires p.resp.Valid()
  {
    if p.resp.state.DownloadingInit? then |p.source| + 1 + p.resp.goal
    else if p.resp.state.SendingStorage? then p.resp.goal - p.resp.sent
    else 0
  }

  lemma {:induction false} StepsCloser(p: Pump, io: Io, all: string)
    requires Pumping(p, all) && p.resp.goal > 0 && io.Moved? && io.n > 0
    requires p.resp.state.DownloadingInit? || p.resp.state.SendingStorage?
    ensures Distance(Step(p, io)) < Distance(p)
    ensures !Step(p, io).resp.state.SendingClosed? && !Step(p, io).resp.state.SendingTimedOut?
  {
    if p.resp.state.SendingStorage? {
      NeverShort(p, all);
    }
  }

  lemma {:induction false} PumpFinishes(p: Pump, ios: seq<Io>, all: string)
    requires Pumping(p, all) && p.resp.goal > 0
    requires p.resp.state.DownloadingInit? || p.resp.state.SendingStorage? || p.resp.state.SendingDone?
    requires forall i :: 0 <= i < |ios| ==> ios[i].Moved? && ios[i].n > 0
    requires |ios| >= Distance(p)
    ensures Run(p, ios).resp.state == SendingDone
    decreases |ios|
  {
    if ios != [] {
      StepKeepsPumping(p, ios[0], all);
      if p.resp.state.SendingDone? {
        assert Step(p, ios[0]).resp == p.resp;
      } else {
        StepsCloser(p, ios[0], all);
      }
      PumpFinishes(Step(p, ios[0]), ios[1..], all);
    }
  }
}
