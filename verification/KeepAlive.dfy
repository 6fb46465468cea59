/** A connection kept alive serves its next request as a new connection would. */
module KeepAlive {
  import opened Text
  import opened Storage
  import opened RequestModel

  /** Heads that agree on all but the two fields `initialize` does not reset. A
      cookie that differs is the one left over from before, where none came since. */
  predicate Alike(a: Head, b: Head, stale: string) {
    && a.(cookies := b.cookies, httpVersion := b.httpVersion) == b
    && (a.cookies == b.cookies || (b.cookies == "" && a.cookies == stale))
  }

  /** The start line has been accepted, so the version is this request's own; a request
      that timed out may have had none. */
  predicate VersionKnown(s: ParsingState) {
    !s.ParsingInit? && !s.BadRequest? && !s.TimedOut?
  }

  /** `a`, reused, and `b`, new, are where no caller can tell them apart. The place of
      the body matters while it is being parsed, the connection once it is read from. */
  ghost predicate Indistinct(a: Request, b: Request, stale: string) {
    && a.state == b.state && a.held == b.held && a.pos == b.pos
    && a.chunkSize == b.chunkSize && a.uploaded == b.uploaded && a.total == b.total
    && Alike(a.head, b.head, stale)
    && (VersionKnown(a.state) ==> a.head.httpVersion == b.head.httpVersion)
    && (a.state == ParsingBody ==> a.bodyFirst == b.bodyFirst)
    && (a.state != ParsingInit && a.state != TimedOut ==> a.conn == b.conn)
    && a.Valid() && b.Valid()
  }

  predicate OutcomesAlike(a: Outcome, b: Outcome, stale: string) {
    && a == b.(head := a.head)
    && Alike(a.head, b.head, stale)
    && (VersionKnown(a.state) ==> a.head.httpVersion == b.head.httpVersion)
  }

  lemma {:induction false} WithAlike(a: Head, b: Head, s: Setting, stale: string)
    requires Alike(a, b, stale)
    ensures Alike(With(a, s), With(b, s), stale)
    ensures With(a, s).httpVersion == a.httpVersion && With(b, s).httpVersion == b.httpVersion
  {
  }

  lemma {:induction false} FieldAlike(a: Head, b: Head, line: string, stale: string)
    requires Alike(a, b, stale)
    ensures Alike(Field(a, line), Field(b, line), stale)
    ensures Field(a, line).httpVersion == a.httpVersion && Field(b, line).httpVersion == b.httpVersion
  {
    hide MessageSetting, Before, Beyond, With;
    var size := a.headerSize + |line| + 1;
    WithAlike(a.(headerSize := size), b.(headerSize := size),
              MessageSetting(Before(line, ' '), Beyond(line, ' '), a.contentLength, a.secret), stale);
  }

  lemma {:induction false} FieldsAlike(a: Head, b: Head, u: string, stale: string)
    requires Alike(a, b, stale) && a.httpVersion == b.httpVersion
    ensures var s, t := Fields(a, u), Fields(b, u);
            && s == t.(head := s.head) && Alike(s.head, t.head, stale)
            && s.head.httpVersion == t.head.httpVersion
    decreases |u|
  {
    var line, rest := LineOf(u), AfterLine(u);
    if line != "" && line != [CR] {
      FieldAlike(a, b, line, stale);
      if WellFormedField(a, line) {
        FieldsAlike(Field(a, line), Field(b, line), rest, stale);
      }
    }
  }

  lemma {:induction false} HeadOutcomesAlike(s: Scanned, t: Scanned, chunkSize: int, stale: string)
    requires chunkSize >= -1 && s == t.(head := s.head)
    requires Alike(s.head, t.head, stale) && s.head.httpVersion == t.head.httpVersion
    ensures OutcomesAlike(HeadOutcome(s, chunkSize), HeadOutcome(t, chunkSize), stale)
  {
  }

  lemma {:induction false} StartAlike(a: Head, b: Head, line: string, stale: string)
    requires Alike(a, b, stale)
    ensures Alike(StartLine(a, line), StartLine(b, line), stale)
    ensures StartLine(a, line).httpVersion == StartLine(b, line).httpVersion
  {
  }

  lemma {:induction false} ScansAlike(state: ParsingState, a: Head, b: Head, u: string, chunkSize: int, stale: string)
    requires chunkSize >= -1 && StillParsing(state) && Alike(a, b, stale)
    requires VersionKnown(state) ==> a.httpVersion == b.httpVersion
    ensures OutcomesAlike(Scan(state, a, u, chunkSize), Scan(state, b, u, chunkSize), stale)
  {
    if state == ParsingInit {
      var line, rest := LineOf(u), AfterLine(u);
      if line != "" && WellFormedStart(line) {
        StartAlike(a, b, line, stale);
        var g, h := StartLine(a, line), StartLine(b, line);
        FieldsAlike(g, h, rest, stale);
        HeadOutcomesAlike(Fields(g, rest), Fields(h, rest), chunkSize, stale);
      }
    } else if state == ParsingHeader {
      FieldsAlike(a, b, u, stale);
      HeadOutcomesAlike(Fields(a, u), Fields(b, u), chunkSize, stale);
    }
  }

  lemma {:induction false} AppliedAlike(a: Request, b: Request, o: Outcome, p: Outcome, stale: string)
    requires Indistinct(a, b, stale) && StillParsing(a.state) && a.conn == b.conn
    requires OutcomesAlike(o, p, stale) && Fits(o, a.Unread()) && Fits(p, b.Unread())
    requires ReachedBody(o.state) ==> o.began || a.state == ParsingBody
    ensures Indistinct(Apply(a, o), Apply(b, p), stale)
  {
  }

  lemma {:induction false} ReceivedAlike(a: Request, b: Request, piece: Recv, stale: string)
    requires Indistinct(a, b, stale)
    ensures Indistinct(Receive(a, piece), Receive(b, piece), stale)
  {
    var bytes := if piece.Piece? then piece.bytes else "";
    var c, d := Holding(a, bytes).(conn := RecvState(piece)), Holding(b, bytes).(conn := RecvState(piece));
    assert Indistinct(c, d, stale);
    if RecvState(piece) == ReceiveDone && StillParsing(c.state) {
      assert c.Unread() == d.Unread();
      ScansAlike(c.state, c.head, d.head, c.Unread(), c.chunkSize, stale);
      AppliedAlike(c, d, Scan(c.state, c.head, c.Unread(), c.chunkSize),
                   Scan(d.state, d.head, d.Unread(), d.chunkSize), stale);
    }
  }

  lemma {:induction false} MovedAlike(a: Request, b: Request, io: Io, stale: string)
    requires Indistinct(a, b, stale) && a.state == UploadInit
    ensures Indistinct(MoveBody(a, io).req, MoveBody(b, io).req, stale)
    ensures MoveBody(a, io).out == MoveBody(b, io).out
  {
    assert a.Unread() == b.Unread();
  }

  lemma {:induction false} SizesAlike(a: Request, b: Request, line: string, io: Io, stale: string)
    requires Indistinct(a, b, stale) && (a.state == UploadReadLine || a.state == UploadChunkSize)
    ensures Indistinct(TakeSize(a, line, io).req, TakeSize(b, line, io).req, stale)
    ensures TakeSize(a, line, io).out == TakeSize(b, line, io).out
  {
    var n := if line == "" then -1 else ChunkSize(line);
    if n > 0 {
      MovedAlike(a.(chunkSize := n, uploaded := 0, state := UploadInit),
                 b.(chunkSize := n, uploaded := 0, state := UploadInit), io, stale);
    }
  }

  lemma {:induction false} LinesAlike(a: Request, b: Request, line: string, io: Io, stale: string)
    requires Indistinct(a, b, stale) && (a.state == UploadReadLine || a.state == UploadChunkInit)
    ensures Indistinct(TakeLine(a, line, io).req, TakeLine(b, line, io).req, stale)
    ensures TakeLine(a, line, io).out == TakeLine(b, line, io).out
  {
    if a.conn != Closed && line != [CR] {
      SizesAlike(a.(state := UploadReadLine), b.(state := UploadReadLine), line, io, stale);
    }
  }

  lemma {:induction false} UploadedAlike(a: Request, b: Request, io: Io, stale: string)
    requires Indistinct(a, b, stale)
    ensures Indistinct(Upload(a, io).req, Upload(b, io).req, stale)
    ensures Upload(a, io).out == Upload(b, io).out
  {
    assert a.Unread() == b.Unread();
    if a.state == UploadReadLine || a.state == UploadChunkInit {
      var rest := AfterLine(a.Unread());
      LinesAlike(a.Leaving(rest), b.Leaving(rest), LineOf(a.Unread()), io, stale);
    } else if a.state == UploadChunkSize {
      SizesAlike(a, b, "", io, stale);
    } else if a.state == UploadInit {
      MovedAlike(a, b, io, stale);
    }
  }

  lemma {:induction false} TimedAlike(a: Request, b: Request, late: bool, stale: string)
    requires Indistinct(a, b, stale)
    ensures Indistinct(Timed(a, late), Timed(b, late), stale)
  {
  }

  datatype Call = Parsing(piece: Recv, late: bool) | Uploading(io: Io, late: bool)

  function Calls(r: Request, calls: seq<Call>): (w: Uploaded)
    requires r.Valid()
    ensures w.req.Valid()
    decreases |calls|
  {
    if calls == [] then Uploaded(r, "")
    else
      var w := Called(r, calls[0]);
      var v := Calls(w.req, calls[1..]);
      Uploaded(v.req, w.out + v.out)
  }

  function Called(r: Request, call: Call): (w: Uploaded)
    requires r.Valid()
    ensures w.req.Valid()
  {
    match call
    case Parsing(piece, late) => Uploaded(ReceiveTimed(r, piece, late), "")
    case Uploading(io, late) => Uploaded(Timed(Upload(r, io).req, late), Upload(r, io).out)
  }

  lemma {:induction false} CallsAlike(a: Request, b: Request, calls: seq<Call>, stale: string)
    requires Indistinct(a, b, stale)
    ensures Indistinct(Calls(a, calls).req, Calls(b, calls).req, stale)
    ensures Calls(a, calls).out == Calls(b, calls).out
    decreases |calls|
  {
    if calls != [] {
      var c, d := Called(a, calls[0]), Called(b, calls[0]);
      match calls[0] {
        case Parsing(piece, late) =>
          ReceivedAlike(a, b, piece, stale);
          TimedAlike(Receive(a, piece), Receive(b, piece), late && RecvState(piece) == ReceiveDone, stale);
        case Uploading(io, late) =>
          UploadedAlike(a, b, io, stale);
          TimedAlike(Upload(a, io).req, Upload(b, io).req, late, stale);
      }
      CallsAlike(c.req, d.req, calls[1..], stale);
    }
  }

  /** The main result: whatever a request object went through before `initialize`,
      stale cells and a stale body position included, every later sequence of calls
      leaves it as it would leave a new object, and writes the same bytes. */
  lemma {:induction false} ReusedIsFresh(r: Request, calls: seq<Call>)
    ensures Indistinct(Calls(Initialized(r), calls).req, Calls(FRESH_REQUEST, calls).req, r.head.cookies)
    ensures Calls(Initialized(r), calls).out == Calls(FRESH_REQUEST, calls).out
  {
    CallsAlike(Initialized(r), FRESH_REQUEST, calls, r.head.cookies);
  }
}
