/** How a byte stream is cut into `recv` pieces: when it does not change what is parsed,
    and exactly when it does. */
module Agreement {
  import opened Text
  import opened Storage
  import opened RequestModel
  import opened Segmentation
  import opened Trouble

  // ------------------------------------------------------- one more piece

  /** At the place of a line: what is unread is looked at from its first line on. */
  predicate AtLine(r: Request) {
    r.state.ParsingInit? || r.state.ParsingHeader? || (r.state.ParsingBody? && r.head.chunked && r.chunkSize <= 0)
  }

  lemma {:induction false} NoLineNoStep(state: ParsingState, h: Head, u: string, chunkSize: int)
    requires chunkSize >= -1 && StillParsing(state) && LF !in u
    requires state.ParsingBody? ==> h.chunked && chunkSize <= 0
    ensures var o := Scan(state, h, u, chunkSize);
            o.state == state && o.head == h && o.left == u && o.chunkSize == chunkSize && !o.began
    ensures InScan(state, h, u, chunkSize) == Smooth
  {
    LineSplits(u);
    assert !HasLine(u) && LineOf(u) == "" && AfterLine(u) == u;
    match state {
      case ParsingInit =>
      case ParsingHeader => assert Fields(h, u) == Scanned(h, u, NoLine);
      case ParsingBody =>
        assert Walk(u, chunkSize, false) == Walked(false, chunkSize, u, false, false);
        assert InChunks(u, chunkSize) == Smooth;
    }
  }

  /** Without a line nothing happens. */
  lemma {:induction false} Waits(r: Request)
    requires r.Valid() && AtLine(r) && LF !in r.Unread()
    ensures Parse(r) == r && Of(r) == Smooth
  {
    NoLineNoStep(r.state, r.head, r.Unread(), r.chunkSize);
  }

  lemma {:induction false} StepTakesLine(state: ParsingState, h: Head, u: string, chunkSize: int)
    requires chunkSize >= -1 && StillParsing(state) && HasLine(u)
    requires state.ParsingBody? ==> h.chunked && chunkSize <= 0
    ensures |Scan(state, h, u, chunkSize).left| < |u|
  {
    hide Field, StartLine, WellFormedStart, WellFormedField, ChunkSize;
    match state {
      case ParsingInit =>
      case ParsingHeader => assert |Fields(h, u).left| < |u|;
      case ParsingBody => assert |Walk(u, chunkSize, false).left| < |u|;
    }
  }

  /** How `Parse` leaves a request that meets trouble. */
  lemma {:induction false} ParseStops(r: Request)
    requires r.Valid() && StillParsing(r.state) && |r.held| <= INT_MAX && Of(r) != Smooth
    ensures |Of(r).rest| <= |r.held|
    ensures var q, t := Parse(r), Of(r);
            && (t.Bare? ==> AtLine(q) && q.Unread() == t.rest && q.pos == |q.held| - |t.rest|)
            && (t.Refused? && |t.rest| <= 1 ==> q.state.BadRequest? && q.pos == |q.held| - |t.rest|)
            && (t.Refused? && |t.rest| == 2 ==> q.state.BadRequest? && q.pos > |q.held| - |t.rest|)
  {
    hide Scan, InScan;
    var u := r.Unread();
    var o := Scan(r.state, r.head, u, r.chunkSize);
    ScanMeets(r.state, r.head, u, r.chunkSize);
    ScanLeavesTail(r.state, r.head, u, r.chunkSize);
    TroubleIsTail(r.state, r.head, u, r.chunkSize);
    assert r.held[r.pos..][|u| - |o.left|..] == r.held[|r.held| - |o.left|..];
  }

  lemma {:induction false} TroubleIsTail(state: ParsingState, h: Head, u: string, chunkSize: int)
    requires chunkSize >= -1 && StillParsing(state) && InScan(state, h, u, chunkSize) != Smooth
    ensures |InScan(state, h, u, chunkSize).rest| <= |u|
  {
    match state {
      case ParsingInit => StartEnds(h, u, chunkSize);
      case ParsingHeader => FieldsEnd(h, u, chunkSize);
      case ParsingBody => BodyEnds(h, u, chunkSize);
    }
  }

  lemma {:induction false} OddIsTrouble(r: Request)
    requires r.Valid() && |r.held| <= INT_MAX
    ensures Clean(r) <==> Of(r) == Smooth
  {
    if StillParsing(r.state) {
      ScanMeets(r.state, r.head, r.Unread(), r.chunkSize);
    }
  }

  /** Parsing early changes neither the outcome nor the trouble, if that is harmless. */
  lemma {:induction false} ParseEarly(r: Request, more: string)
    requires r.Valid() && |r.held + more| <= INT_MAX && Harmless(Of(Holding(r, more)))
    ensures Parse(Holding(Parse(r), more)) == Parse(Holding(r, more))
    ensures Harmless(Of(Holding(Parse(r), more)))
  {
    if StillParsing(r.state) {
      HoldingUnread(r, more);
      ScanTrouble(r.state, r.head, r.Unread(), more, r.chunkSize);
      if Of(r) == Smooth {
        OddIsTrouble(r);
        ParseGrows(r, more);
        SmoothGoesOn(r, more);
      } else {
        TroubleStays(r, more);
      }
    }
  }

  lemma {:induction false} SmoothGoesOn(r: Request, more: string)
    requires r.Valid() && StillParsing(r.state) && |r.held + more| <= INT_MAX && Of(r) == Smooth
    ensures Of(Holding(Parse(r), more)) == Of(Holding(r, more))
  {
    hide Scan, InScan;
    var u := r.Unread();
    var o := Scan(r.state, r.head, u, r.chunkSize);
    HoldingUnread(r, more);
    ScanTrouble(r.state, r.head, u, more, r.chunkSize);
    ScanLeavesTail(r.state, r.head, u, r.chunkSize);
    if StillParsing(o.state) {
      assert r.held[r.pos..][|u| - |o.left|..] == r.held[|r.held| - |o.left|..];
      HoldingUnread(Parse(r), more);
      assert Parse(r).Unread() == o.left;
    }
  }

  lemma {:induction false} TroubleStays(r: Request, more: string)
    requires r.Valid() && StillParsing(r.state) && |r.held + more| <= INT_MAX
    requires Of(r) != Smooth && Harmless(Of(Holding(r, more)))
    ensures Parse(Holding(Parse(r), more)) == Parse(Holding(r, more))
    ensures Harmless(Of(Holding(Parse(r), more)))
  {
    hide Scan, InScan;
    var u, t := r.Unread(), Of(r);
    var o, o' := Scan(r.state, r.head, u, r.chunkSize), Scan(r.state, r.head, u + more, r.chunkSize);
    HoldingUnread(r, more);
    ScanTrouble(r.state, r.head, u, more, r.chunkSize);
    ApplyLater(r, o, more, o');
    ParseStops(r);
    var q := Holding(Parse(r), more);
    if t.Bare? {
      HoldingUnread(Parse(r), more);
      assert q.Unread() == t.rest + more;
      Waits(q);
    }
  }

  // ------------------------------------------------------- whole streams

  /** Receiving a first piece and then parsing with the rest is parsing with both. */
  lemma {:induction false} FirstPiece(r: Request, first: string, more: string)
    requires r.Valid() && 0 < |first| <= READ_BUFFER_SIZE && |r.held + (first + more)| <= INT_MAX
    requires Harmless(Of(Holding(r, first + more)))
    ensures var next := Receive(r, Piece(first));
            && |next.held + more| <= INT_MAX
            && Harmless(Of(Holding(next, more)))
            && Parse(Holding(next, more)).(conn := ReceiveDone)
               == Parse(Holding(r, first + more)).(conn := ReceiveDone)
  {
    hide Of, Parse, Harmless;
    var got, state := Holding(r, first), RecvState(Piece(first));
    assert r.held + (first + more) == got.held + more;
    assert Holding(r, first + more) == Holding(got, more);
    var next := if state == ReceiveDone then Parse(got) else got;
    if state == ReceiveDone {
      ParseEarly(got, more);
      ParseIgnoresConn(got, state);
    }
    assert Receive(r, Piece(first)) == next.(conn := state);
    ParseIgnoresConn(Holding(next, more), state);
    OfIgnoresConn(Holding(next, more), state);
    assert Holding(next.(conn := state), more) == Holding(next, more).(conn := state);
  }

  lemma {:induction false} OfIgnoresConn(r: Request, conn: StorageState)
    requires r.Valid()
    ensures Of(r.(conn := conn)) == Of(r)
  {
    assert r.(conn := conn).Unread() == r.Unread();
  }

  /** Whatever the cut of a stream without harm in it, the outcome is one parse of
      everything that arrived. */
  lemma {:induction false} FeedIsOneParse(r: Request, pieces: seq<string>)
    requires r.Valid() && Cut(pieces) && |r.held + Concat(pieces)| <= INT_MAX
    requires Harmless(Of(Holding(r, Concat(pieces))))
    ensures Feed(r, pieces) == Parse(Holding(r, Concat(pieces))).(conn := ReceiveDone)
    decreases |pieces|
  {
    hide Of, Parse, Harmless, Receive;
    var first, rest := pieces[0], pieces[1..];
    if rest == [] {
      OnePiece(r, first);
      assert Feed(r, pieces) == Feed(Receive(r, Piece(first)), []) == Receive(r, Piece(first));
      assert Concat(pieces) == first + Concat([]) == first;
    } else {
      assert rest[|rest| - 1] == pieces[|pieces| - 1];
      FirstPiece(r, first, Concat(rest));
      FeedIsOneParse(Receive(r, Piece(first)), rest);
    }
  }

  /** Two cuts of such a stream are parsed to the same request. */
  lemma {:induction false} CutsAgree(r: Request, ps: seq<string>, qs: seq<string>)
    requires r.Valid() && Cut(ps) && Cut(qs) && Concat(ps) == Concat(qs)
    requires |r.held + Concat(ps)| <= INT_MAX && Harmless(Of(Holding(r, Concat(ps))))
    ensures Feed(r, ps) == Feed(r, qs)
  {
    FeedIsOneParse(r, ps);
    FeedIsOneParse(r, qs);
  }

  /** Outside the clean streams it fails: a lone LF where a start line is due stops
      the call that meets it, so the line after it is parsed only if it comes in a
      later piece. `line` may be any nonempty line, "x" say, that starts no request. */
  lemma {:induction false} BareLineBreaksAgreement(r: Request, line: string)
    requires r.Valid() && r.state == ParsingInit && r.pos == |r.held|
    requires line != "" && LF !in line && !WellFormedStart(line) && |line| + 2 < READ_BUFFER_SIZE
    ensures Concat([[LF], line + [LF]]) == Concat([[LF] + (line + [LF])])
    ensures Feed(r, [[LF], line + [LF]]).state == BadRequest
    ensures Feed(r, [[LF] + (line + [LF])]).state == ParsingInit
  {
    var one, two := [LF], line + [LF];
    assert one == "" + [LF] + "" && two == line + [LF] + "" && one + two == "" + [LF] + two;
    LoneLine(r, "", "");
    LoneLine(Receive(r, Piece(one)), line, "");
    LoneLine(r, "", two);
    FeedTwo(r, one, two);
    FeedOne(r, one + two);
  }

  lemma {:induction false} FeedOne(r: Request, piece: string)
    requires r.Valid()
    ensures Feed(r, [piece]) == Receive(r, Piece(piece)) && Concat([piece]) == piece
  {
    assert [piece][1..] == [];
    assert Concat([piece]) == piece + Concat([]);
  }

  lemma {:induction false} FeedTwo(r: Request, first: string, second: string)
    requires r.Valid()
    ensures Feed(r, [first, second]) == Receive(Receive(r, Piece(first)), Piece(second))
    ensures Concat([first, second]) == first + second
  {
    assert [first, second][1..] == [second];
    FeedOne(Receive(r, Piece(first)), second);
  }

  /** A short piece met by a parser that has consumed all it had so far. */
  lemma {:induction false} LoneLine(r: Request, line: string, rest: string)
    requires r.Valid() && r.state == ParsingInit && r.pos == |r.held| && LF !in line
    requires |line + [LF] + rest| < READ_BUFFER_SIZE && !WellFormedStart(line)
    ensures var next := Receive(r, Piece(line + [LF] + rest));
            && next.Valid()
            && next.state == (if line == "" then ParsingInit else BadRequest)
            && next.chunkSize == r.chunkSize
            && |next.held| - next.pos == |rest|
  {
    var piece := line + [LF] + rest;
    LineAt(line, rest);
    OnePiece(r, piece);
    assert Holding(r, piece).Unread() == piece;
  }

  // --------------------------------------------- exactly when cuts agree

  ghost predicate AllCutsAgree(r: Request, stream: string)
    requires r.Valid()
  {
    forall ps, qs :: Cut(ps) && Cut(qs) && Concat(ps) == stream && Concat(qs) == stream ==> Feed(r, ps) == Feed(r, qs)
  }

  /** Ready for a request: built new, or initialized for the next one. */
  predicate Idle(r: Request) {
    && r.state == ParsingInit && r.pos == |r.held| && r.chunkSize == -1
    && r.uploaded == 0 && r.total == 0
  }

  /** A stream that cannot be received in full buffers and a last short one, and so never
      in one parse. When it begins with a lone LF, that LF is always parsed for itself. */
  predicate Parted(stream: string) {
    stream != "" && stream[0] == LF && |stream| % READ_BUFFER_SIZE == 0
  }

  /** What of a stream is parsed together in every cut, or in some. */
  function Together(stream: string): string {
    if Parted(stream) then stream[1..] else stream
  }

  /** The condition on the bytes: no line after the first bare one, and at most one byte
      after the first refused size. */
  predicate Settled(h: Head, stream: string) {
    Harmless(InStart(h, Together(stream), -1))
  }

  // ------------------------------------------------------- making cuts

  lemma {:induction false} ConcatJoins(ps: seq<string>, qs: seq<string>)
    ensures Concat(ps + qs) == Concat(ps) + Concat(qs)
    decreases |ps|
  {
    if ps == [] {
      assert ps + qs == qs;
    } else {
      assert (ps + qs)[1..] == ps[1..] + qs;
      ConcatJoins(ps[1..], qs);
    }
  }

  lemma {:induction false} FeedJoins(r: Request, ps: seq<string>, qs: seq<string>)
    requires r.Valid()
    ensures Feed(r, ps + qs) == Feed(Feed(r, ps), qs)
    decreases |ps|
  {
    hide Receive;
    if ps == [] {
      assert ps + qs == qs;
    } else {
      assert (ps + qs)[1..] == ps[1..] + qs;
      FeedJoins(Receive(r, Piece(ps[0])), ps[1..], qs);
    }
  }

  /** The finest cut of all. */
  function Singles(s: string): (ps: seq<string>)
    ensures |ps| == |s| && forall i :: 0 <= i < |ps| ==> |ps[i]| == 1
  {
    if s == "" then [] else [[s[0]]] + Singles(s[1..])
  }

  lemma {:induction false} SinglesAreCut(s: string)
    ensures Concat(Singles(s)) == s && (s != "" ==> Cut(Singles(s)))
    decreases |s|
  {
    if s != "" {
      SinglesAreCut(s[1..]);
      assert Singles(s)[1..] == Singles(s[1..]) && Singles(s)[0] == [s[0]];
      assert [s[0]] + s[1..] == s;
    }
  }

  /** The coarsest: full buffers, and what is left. */
  function Buffers(s: string): (ps: seq<string>)
    decreases |s|
  {
    if |s| <= READ_BUFFER_SIZE then [s] else [s[..READ_BUFFER_SIZE]] + Buffers(s[READ_BUFFER_SIZE..])
  }

  lemma {:induction false} BuffersAreCut(s: string)
    requires |s| % READ_BUFFER_SIZE != 0
    ensures Concat(Buffers(s)) == s && Cut(Buffers(s))
    decreases |s|
  {
    if |s| <= READ_BUFFER_SIZE {
      assert Buffers(s) == [s] && Concat([s]) == s + Concat([]);
    } else {
      var front, back := s[..READ_BUFFER_SIZE], s[READ_BUFFER_SIZE..];
      BuffersAreCut(back);
      assert Buffers(s)[0] == front && Buffers(s)[1..] == Buffers(back);
      assert front + back == s;
    }
  }

  lemma {:induction false} FullPiece(r: Request, piece: string)
    requires r.Valid() && |piece| == READ_BUFFER_SIZE
    ensures Receive(r, Piece(piece)) == Holding(r, piece).(conn := Receiving)
  {
  }

  lemma {:induction false} HoldingTwice(r: Request, first: string, more: string, conn: StorageState)
    ensures Holding(Holding(r, first).(conn := conn), more) == Holding(r, first + more).(conn := conn)
  {
    assert r.held + first + more == r.held + (first + more);
  }

  /** Nothing is parsed before the last piece. */
  lemma {:induction false} BuffersAreOneParse(r: Request, s: string)
    requires r.Valid() && |s| % READ_BUFFER_SIZE != 0
    ensures Feed(r, Buffers(s)) == Parse(Holding(r, s)).(conn := ReceiveDone)
    decreases |s|
  {
    hide Parse, Receive, Holding;
    if |s| <= READ_BUFFER_SIZE {
      OnePiece(r, s);
      assert Feed(r, [s]) == Feed(Receive(r, Piece(s)), []);
    } else {
      var front, back := s[..READ_BUFFER_SIZE], s[READ_BUFFER_SIZE..];
      var next := Receive(r, Piece(front));
      FullPiece(r, front);
      assert Buffers(s)[0] == front && Buffers(s)[1..] == Buffers(back);
      BuffersAreOneParse(next, back);
      assert front + back == s;
      HoldingTwice(r, front, back, Receiving);
      ParseIgnoresConn(Holding(r, s), Receiving);
    }
  }

  // ------------------------------------------------- progress is not undone

  /** Done parsing, or with more than `p` bytes consumed. */
  predicate Passed(r: Request, p: nat) {
    !StillParsing(r.state) || r.pos > p
  }

  lemma {:induction false} ReceiveKeepsPassed(r: Request, piece: string, p: nat)
    requires r.Valid() && Passed(r, p)
    ensures Passed(Receive(r, Piece(piece)), p)
  {
    hide Scan;
    var next := Holding(r, piece).(conn := RecvState(Piece(piece)));
    if StillParsing(r.state) {
      assert Passed(Parse(next), p);
    }
  }

  lemma {:induction false} FeedKeepsPassed(r: Request, ps: seq<string>, p: nat)
    requires r.Valid() && Passed(r, p)
    ensures Passed(Feed(r, ps), p)
    decreases |ps|
  {
    hide Receive, Passed;
    if ps != [] {
      ReceiveKeepsPassed(r, ps[0], p);
      FeedKeepsPassed(Receive(r, Piece(ps[0])), ps[1..], p);
    }
  }

  /** A refused request only holds what comes. */
  lemma {:induction false} FeedKeepsRefused(r: Request, ps: seq<string>)
    requires r.Valid() && r.state.BadRequest?
    ensures Feed(r, ps).state.BadRequest? && Feed(r, ps).pos == r.pos
    decreases |ps|
  {
    if ps != [] {
      FeedKeepsRefused(Receive(r, Piece(ps[0])), ps[1..]);
    }
  }

  /** Fed byte by byte, a request at the place of a line takes the first line there is. */
  lemma {:induction false} StepsPastLine(r: Request, v: string, p: nat)
    requires r.Valid() && AtLine(r) && LF !in r.Unread() && r.pos >= p
    requires LF in v && |r.held + v| <= INT_MAX
    ensures Passed(Feed(r, Singles(v)), p)
    decreases |v|
  {
    hide Scan;
    var c, rest := [v[0]], v[1..];
    var next := Receive(r, Piece(c));
    assert Singles(v)[0] == c && Singles(v)[1..] == Singles(rest);
    OnePiece(r, c);
    HoldingUnread(r, c);
    var got := Holding(r, c);
    if v[0] == LF {
      var u := got.Unread();
      assert u[|u| - 1] == LF;
      LineSplits(u);
      StepTakesLine(got.state, got.head, u, got.chunkSize);
      assert Passed(next, p);
      FeedKeepsPassed(next, Singles(rest), p);
    } else {
      Waits(got);
      StepsPastLine(next, rest, p);
    }
  }

  // ----------------------------------------------------------- two cuts

  lemma {:induction false} OfIdle(r: Request, stream: string)
    requires r.Valid() && Idle(r)
    ensures Holding(r, stream).Unread() == stream && Of(Holding(r, stream)) == InStart(r.head, stream, -1)
  {
  }

  /** The stream up to its trouble, and what follows. */
  lemma {:induction false} TroubleSplits(r: Request, stream: string) returns (a: string, v: string)
    requires r.Valid() && Idle(r) && InStart(r.head, stream, -1) != Smooth
    ensures stream == a + v && a != "" && v == InStart(r.head, stream, -1).rest
    ensures Of(Holding(r, a)) == Bareness(InStart(r.head, stream, -1))
    ensures InStart(r.head, stream, -1).Refused? ==> |a| >= 2 && stream[0] != LF
  {
    hide InStart, Of;
    var t := InStart(r.head, stream, -1);
    StartEnds(r.head, stream, -1);
    a, v := UpTo(stream, t), t.rest;
    OfIdle(r, a);
    assert stream == stream[..|stream| - |v|] + stream[|stream| - |v|..];
    if t.Refused? {
      RefusedNotFirst(r.head, stream);
      RefusedNotFirst(r.head, a);
    }
  }

  lemma {:induction false} RefusedNotFirst(h: Head, u: string)
    requires InStart(h, u, -1).Refused?
    ensures |u| >= 2 && u[0] != LF
  {
    hide InFields, WellFormedStart, StartLine;
    LineSplits(u);
  }

  /** Before its trouble is complete a stream has none. */
  lemma {:induction false} PartIsSmooth(r: Request, part: string, more: string, a: string)
    requires r.Valid() && Idle(r) && part + more == a && more != "" && |r.held + a| <= INT_MAX
    requires Of(Holding(r, a)) == Bare("") || Of(Holding(r, a)) == Refused("")
    ensures Of(Holding(r, part)) == Smooth
  {
    OfIdle(r, part);
    OfIdle(r, a);
    ScanTrouble(ParsingInit, r.head, part, more, -1);
  }

  /** Byte by byte, a bare line with a line after it does not stop the parser. */
  lemma {:induction false} SinglesPassBare(r: Request, a: string, v: string)
    requires r.Valid() && Idle(r) && |r.held + (a + v)| <= INT_MAX && a != "" && LF in v
    requires Of(Holding(r, a)) == Bare("")
    ensures Passed(Feed(r, Singles(a + v)), |r.held| + |a|)
  {
    hide Of, Parse, Receive;
    SinglesAreCut(a);
    FeedIsOneParse(r, Singles(a));
    var q := Feed(r, Singles(a));
    StopsAfter(r, a);
    SinglesJoin(a, v);
    FeedJoins(r, Singles(a), Singles(v));
    StepsPastLine(q, v, |r.held| + |a|);
  }

  lemma {:induction false} StopsAfter(r: Request, a: string)
    requires r.Valid() && Idle(r) && |r.held + a| <= INT_MAX
    requires Of(Holding(r, a)) == Bare("") || Of(Holding(r, a)) == Refused("")
    ensures var q := Parse(Holding(r, a)).(conn := ReceiveDone);
            && q.Valid() && q.held == r.held + a && q.pos == |q.held| && q.Unread() == ""
            && (Of(Holding(r, a)).Bare? ==> AtLine(q))
            && (Of(Holding(r, a)).Refused? ==> q.state.BadRequest?)
  {
    ParseStops(Holding(r, a));
  }

  lemma {:induction false} SinglesJoin(a: string, v: string)
    ensures Singles(a + v) == Singles(a) + Singles(v)
    decreases |a|
  {
    if a == "" {
      assert a + v == v;
    } else {
      assert (a + v)[1..] == a[1..] + v;
      SinglesJoin(a[1..], v);
    }
  }

  /** A cut whose last parse has all of a stream unread that is not `Parted`. */
  function Coarse(stream: string): seq<string> {
    if |stream| % READ_BUFFER_SIZE != 0 || stream == "" then Buffers(stream) else [stream[..1]] + Buffers(stream[1..])
  }

  lemma {:induction false} CoarseStopsAtBare(r: Request, a: string, v: string)
    requires r.Valid() && Idle(r) && |r.held + (a + v)| <= INT_MAX && a != ""
    requires Of(Holding(r, a)) == Bare("") && Of(Holding(r, a + v)) == Bare(v)
    requires !Parted(a + v)
    ensures Cut(Coarse(a + v)) && Concat(Coarse(a + v)) == a + v
    ensures !Passed(Feed(r, Coarse(a + v)), |r.held| + |a|)
  {
    hide Of, Parse;
    var b := a + v;
    if |b| % READ_BUFFER_SIZE != 0 {
      BuffersAreCut(b);
      BuffersAreOneParse(r, b);
    } else {
      FirstThenBuffers(r, a, v);
    }
    StopsBefore(r, a, v);
  }

  lemma {:induction false} StopsBefore(r: Request, a: string, v: string)
    requires r.Valid() && Idle(r) && |r.held + (a + v)| <= INT_MAX
    requires Of(Holding(r, a + v)) == Bare(v)
    ensures !Passed(Parse(Holding(r, a + v)).(conn := ReceiveDone), |r.held| + |a|)
  {
    ParseStops(Holding(r, a + v));
  }

  lemma {:induction false} FirstThenBuffers(r: Request, a: string, v: string)
    requires r.Valid() && Idle(r) && |r.held + (a + v)| <= INT_MAX && a != ""
    requires Of(Holding(r, a)) == Bare("") && !Parted(a + v) && |a + v| % READ_BUFFER_SIZE == 0
    ensures Cut(Coarse(a + v)) && Concat(Coarse(a + v)) == a + v
    ensures Feed(r, Coarse(a + v)) == Parse(Holding(r, a + v)).(conn := ReceiveDone)
  {
    hide Of, Parse, Receive, Holding, Parted, Clean;
    var b := a + v;
    var first, rest := b[..1], b[1..];
    BuffersAreCut(rest);
    var ps := Coarse(b);
    assert ps[0] == first && ps[1..] == Buffers(rest) && first + rest == b;
    assert ps[|ps| - 1] == Buffers(rest)[|Buffers(rest)| - 1];
    NotParted(b);
    FirstIsSmooth(r, a, v);
    FirstThenRest(r, first, rest);
  }

  lemma {:induction false} NotParted(b: string)
    requires b != "" && !Parted(b) && |b| % READ_BUFFER_SIZE == 0
    ensures b[0] != LF
  {
  }

  lemma {:induction false} FirstThenRest(r: Request, first: string, rest: string)
    requires r.Valid() && 0 < |first| < READ_BUFFER_SIZE && |rest| % READ_BUFFER_SIZE != 0
    requires |r.held + (first + rest)| <= INT_MAX && Clean(Holding(r, first))
    ensures Feed(r, [first] + Buffers(rest)) == Parse(Holding(r, first + rest)).(conn := ReceiveDone)
  {
    hide Of, Parse, Receive, Holding, Clean, Buffers;
    var got := Holding(r, first);
    HeldGrows(r, first, rest);
    ParseGrows(got, rest);
    OnePiece(r, first);
    var next := Receive(r, Piece(first));
    BuffersAreOneParse(next, rest);
    assert ([first] + Buffers(rest))[1..] == Buffers(rest);
    ParseIgnoresConn(Holding(Parse(got), rest), ReceiveDone);
    HeldConn(Parse(got), rest, ReceiveDone);
  }

  lemma {:induction false} HeldGrows(r: Request, first: string, rest: string)
    ensures Holding(Holding(r, first), rest) == Holding(r, first + rest)
    ensures |Holding(r, first).held + rest| == |r.held + (first + rest)|
  {
    assert r.held + first + rest == r.held + (first + rest);
  }

  lemma {:induction false} HeldConn(r: Request, more: string, conn: StorageState)
    ensures Holding(r.(conn := conn), more) == Holding(r, more).(conn := conn)
  {
  }

  lemma {:induction false} FirstIsSmooth(r: Request, a: string, v: string)
    requires r.Valid() && Idle(r) && |r.held + (a + v)| <= INT_MAX && a != ""
    requires Of(Holding(r, a)) == Bare("") && (a + v)[0] != LF
    ensures Clean(Holding(r, (a + v)[..1]))
  {
    var first := (a + v)[..1];
    OfIdle(r, first);
    LineSplits(first);
    assert LF !in first;
    OddIsTrouble(Holding(r, first));
  }

  lemma {:induction false} OfGrows(r: Request, a: string, more: string)
    requires r.Valid() && Idle(r) && |r.held + (a + more)| <= INT_MAX && Of(Holding(r, a)) != Smooth
    ensures Of(Holding(r, a + more)) == Followed(Of(Holding(r, a)), more)
  {
    OfIdle(r, a);
    OfIdle(r, a + more);
    ScanTrouble(ParsingInit, r.head, a, more, -1);
  }

  /** Feeding some bytes one by one and then a piece is parsing once. */
  lemma {:induction false} SinglesThenPiece(r: Request, m: string, x: string)
    requires r.Valid() && m != "" && 0 < |x| < READ_BUFFER_SIZE && |r.held + (m + x)| <= INT_MAX
    requires Of(Holding(r, m)) == Smooth
    ensures Feed(r, Singles(m) + [x]) == Parse(Holding(r, m + x)).(conn := ReceiveDone)
  {
    hide Of, Parse, Receive, Holding, Clean, Singles;
    var got := Holding(r, m);
    HeldGrows(r, m, x);
    SinglesAreCut(m);
    HeldIsShort(r, m, x);
    FeedIsOneParse(r, Singles(m));
    FeedJoins(r, Singles(m), [x]);
    var q := Parse(got).(conn := ReceiveDone);
    FeedOne(q, x);
    OnePiece(q, x);
    HeldConn(Parse(got), x, ReceiveDone);
    ParseIgnoresConn(Holding(Parse(got), x), ReceiveDone);
    OddIsTrouble(got);
    ParseGrows(got, x);
  }

  lemma {:induction false} HeldIsShort(r: Request, m: string, x: string)
    requires |r.held + (m + x)| <= INT_MAX
    ensures |r.held + m| <= INT_MAX && |Holding(r, m).held| <= INT_MAX
  {
  }

  /** A cut that lets the walk step on from a refused size. */
  function Stepping(a: string, v: string): seq<string>
    requires a != "" && |v| >= 2
  {
    Singles(a[..|a| - 1]) + [a[|a| - 1..] + v[..2]] + Singles(v[2..])
  }

  lemma {:induction false} SteppingIsCut(a: string, v: string)
    requires a != "" && |v| >= 2
    ensures Cut(Stepping(a, v)) && Concat(Stepping(a, v)) == a + v
  {
    hide Singles, Concat;
    var m, x, rest := a[..|a| - 1], a[|a| - 1..] + v[..2], v[2..];
    SinglesAreCut(m);
    SinglesAreCut(rest);
    ConcatJoins(Singles(m), [x]);
    ConcatJoins(Singles(m) + [x], Singles(rest));
    OnlyPiece(x);
    assert m + x + rest == a + v;
    ShortPieces(Singles(m), x, Singles(rest));
  }

  lemma {:induction false} OnlyPiece(x: string)
    ensures Concat([x]) == x
  {
    assert Concat([x]) == x + Concat([]);
  }

  lemma {:induction false} ShortPieces(front: seq<string>, x: string, back: seq<string>)
    requires forall i :: 0 <= i < |front| ==> |front[i]| == 1
    requires forall i :: 0 <= i < |back| ==> |back[i]| == 1
    requires 0 < |x| <= 3
    ensures Cut(front + [x] + back)
  {
    var ps := front + [x] + back;
    assert forall i :: 0 <= i < |ps| ==>
      ps[i] == if i < |front| then front[i] else if i == |front| then x else back[i - |front| - 1];
  }

  lemma {:induction false} SteppingPasses(r: Request, a: string, v: string)
    requires r.Valid() && Idle(r) && |r.held + (a + v)| <= INT_MAX && |a| >= 2 && |v| >= 2
    requires Of(Holding(r, a)) == Refused("")
    ensures Feed(r, Stepping(a, v)).pos > |r.held| + |a|
  {
    hide Of, Parse, Receive, Singles;
    var m, last, x := a[..|a| - 1], a[|a| - 1..], a[|a| - 1..] + v[..2];
    assert m + last == a && m + x == a + v[..2];
    PartIsSmooth(r, m, last, a);
    SinglesThenPiece(r, m, x);
    OfGrows(r, a, v[..2]);
    ParseStops(Holding(r, a + v[..2]));
    var q := Feed(r, Singles(m) + [x]);
    FeedJoins(r, Singles(m) + [x], Singles(v[2..]));
    FeedKeepsRefused(q, Singles(v[2..]));
  }

  lemma {:induction false} SinglesStopAtRefused(r: Request, a: string, v: string)
    requires r.Valid() && Idle(r) && |r.held + (a + v)| <= INT_MAX && a != ""
    requires Of(Holding(r, a)) == Refused("")
    ensures Feed(r, Singles(a + v)).pos == |r.held| + |a|
  {
    hide Of, Parse, Receive, Singles;
    SinglesAreCut(a);
    FeedIsOneParse(r, Singles(a));
    StopsAfter(r, a);
    SinglesJoin(a, v);
    FeedJoins(r, Singles(a), Singles(v));
    FeedKeepsRefused(Feed(r, Singles(a)), Singles(v));
  }

  /** Harm in a stream that may be parsed all at once makes two cuts of it disagree. */
  lemma {:induction false} HarmDisagrees(r: Request, stream: string) returns (ps: seq<string>, qs: seq<string>)
    requires r.Valid() && Idle(r) && |r.held + stream| <= INT_MAX && !Parted(stream)
    requires !Harmless(InStart(r.head, stream, -1))
    ensures Cut(ps) && Cut(qs) && Concat(ps) == stream && Concat(qs) == stream && Feed(r, ps) != Feed(r, qs)
  {
    hide InStart, Of, Parse, Receive, Parted, Singles, Coarse, Stepping;
    var t := InStart(r.head, stream, -1);
    var a, v := TroubleSplits(r, stream);
    SinglesAreCut(stream);
    ps := Singles(stream);
    if t.Bare? {
      OfIdle(r, stream);
      SinglesPassBare(r, a, v);
      CoarseStopsAtBare(r, a, v);
      qs := Coarse(stream);
    } else {
      SteppingIsCut(a, v);
      SteppingPasses(r, a, v);
      SinglesStopAtRefused(r, a, v);
      qs := Stepping(a, v);
    }
  }

  // ------------------------------------------------ streams that are parted

  /** The request once a lone LF has been parsed for itself. */
  function AfterLf(r: Request): Request {
    r.(held := r.held + [LF], pos := r.pos + 1, conn := ReceiveDone)
  }

  lemma {:induction false} LfFirst(r: Request, w: string)
    requires r.Valid() && Idle(r)
    ensures Parse(Holding(r, [LF] + w)).(conn := ReceiveDone) == Holding(AfterLf(r), w)
    ensures AfterLf(r).Valid() && Idle(AfterLf(r))
  {
    var u := [LF] + w;
    assert u == "" + [LF] + w;
    LineAt("", w);
    OfIdle(r, u);
    assert r.held + u == r.held + [LF] + w;
  }

  lemma {:induction false} ShortIsNoMultiple(n: nat, s: nat)
    requires n % READ_BUFFER_SIZE == 0 && 0 < s <= READ_BUFFER_SIZE
    ensures (n + s) % READ_BUFFER_SIZE == 0 <==> s == READ_BUFFER_SIZE
  {
  }

  /** Whatever the cut of a parted stream, its LF is parsed first, and the rest as one. */
  lemma {:induction false} PartedFeed(r: Request, y: string, conn: StorageState, ps: seq<string>, c: string)
    requires r.Valid() && Idle(r) && Cut(ps) && |y| % READ_BUFFER_SIZE == 0
    requires y + Concat(ps) == [LF] + c && |[LF] + c| % READ_BUFFER_SIZE == 0 && |r.held + ([LF] + c)| <= INT_MAX
    requires Harmless(InStart(r.head, c, -1))
    ensures AfterLf(r).Valid()
    ensures Feed(Holding(r, y).(conn := conn), ps) == Parse(Holding(AfterLf(r), c)).(conn := ReceiveDone)
    decreases |ps|
  {
    hide InStart, Of, Parse, Receive, Holding, AfterLf;
    var q, f, rest := Holding(r, y).(conn := conn), ps[0], ps[1..];
    ShortIsNoMultiple(|y|, |f|);
    LastPiece(y, ps, c);
    assert rest[|rest| - 1] == ps[|ps| - 1];
    assert y + (f + Concat(rest)) == (y + f) + Concat(rest);
    HoldingTwice(r, y, f, conn);
    LfFirst(r, c);
    if |f| == READ_BUFFER_SIZE {
      FullPiece(q, f);
      PartedFeed(r, y + f, Receiving, rest, c);
    } else {
      var w := (y + f)[1..];
      SplitFront(y + f, Concat(rest), c);
      OnePiece(q, f);
      ParseIgnoresConn(Holding(r, y + f), conn);
      LfFirst(r, w);
      var next := Holding(AfterLf(r), w);
      HeldGrows(AfterLf(r), w, Concat(rest));
      OfIdle(AfterLf(r), c);
      AfterLfKeeps(r, c);
      FeedIsOneParse(next, rest);
    }
  }

  lemma {:induction false} SplitFront(x: string, y: string, c: string)
    requires x != "" && x + y == [LF] + c
    ensures x == [LF] + x[1..] && x[1..] + y == c
  {
    assert x[0] == (x + y)[0] == LF;
    assert x[1..] + y == (x + y)[1..] == ([LF] + c)[1..];
  }

  lemma {:induction false} AfterLfKeeps(r: Request, c: string)
    ensures AfterLf(r).head == r.head && AfterLf(r).held + c == r.held + ([LF] + c)
  {
    assert r.held + [LF] + c == r.held + ([LF] + c);
  }

  /** A short piece is not the last of a stream that fills its buffers. */
  lemma {:induction false} LastPiece(y: string, ps: seq<string>, c: string)
    requires Cut(ps) && |y| % READ_BUFFER_SIZE == 0
    requires y + Concat(ps) == [LF] + c && |[LF] + c| % READ_BUFFER_SIZE == 0
    ensures ps[1..] != []
  {
    if ps[1..] == [] {
      assert Concat(ps) == ps[0] + Concat([]) == ps[0];
      ShortIsNoMultiple(|y|, |ps[0]|);
    }
  }

  lemma {:induction false} HoldingNothing(r: Request)
    ensures Holding(r, "").(conn := r.conn) == r
  {
    assert r.held + "" == r.held;
  }

  lemma {:induction false} PartedAgree(r: Request, stream: string, ps: seq<string>, qs: seq<string>)
    requires r.Valid() && Idle(r) && |r.held + stream| <= INT_MAX && Parted(stream) && Settled(r.head, stream)
    requires Cut(ps) && Cut(qs) && Concat(ps) == stream && Concat(qs) == stream
    ensures Feed(r, ps) == Feed(r, qs)
  {
    hide InStart, Feed, Holding;
    var c := stream[1..];
    assert stream == [LF] + c && "" + stream == stream;
    HoldingNothing(r);
    PartedFeed(r, "", r.conn, ps, c);
    PartedFeed(r, "", r.conn, qs, c);
  }

  lemma {:induction false} PartedHarm(r: Request, stream: string) returns (ps: seq<string>, qs: seq<string>)
    requires r.Valid() && Idle(r) && |r.held + stream| <= INT_MAX && Parted(stream) && !Settled(r.head, stream)
    ensures Cut(ps) && Cut(qs) && Concat(ps) == stream && Concat(qs) == stream && Feed(r, ps) != Feed(r, qs)
  {
    hide InStart, Parse, Receive, Holding, AfterLf;
    var c := stream[1..];
    assert stream == [LF] + c && [LF] + "" == [LF];
    LfFirst(r, "");
    AfterLfKeeps(r, c);
    OnePiece(r, [LF]);
    HoldingNothing(AfterLf(r));
    RestIsNoMultiple(stream);
    var first := Receive(r, Piece([LF]));
    HoldsNothingMore(AfterLf(r));
    assert first == AfterLf(r);
    var ps', qs' := HarmDisagrees(first, c);
    ps, qs := [[LF]] + ps', [[LF]] + qs';
    assert ps[1..] == ps' && qs[1..] == qs';
  }

  lemma {:induction false} HoldsNothingMore(r: Request)
    ensures Holding(r, "") == r
  {
    assert r.held + "" == r.held;
  }

  lemma {:induction false} RestIsNoMultiple(stream: string)
    requires Parted(stream)
    ensures stream[1..] != "" && !Parted(stream[1..])
  {
  }

  // ------------------------------------------------------------ the result

  /** The main result, for a request yet to come: all cuts of a stream are parsed to the
      same request if and only if no line follows its first bare one, and at most one
      byte its first refused chunk size. */
  lemma {:induction false} CutsAgreeExactly(r: Request, stream: string)
    requires r.Valid() && Idle(r) && |r.held + stream| <= INT_MAX
    ensures AllCutsAgree(r, stream) <==> Settled(r.head, stream)
  {
    hide InStart, Of, Feed, Parted;
    OfIdle(r, stream);
    if Settled(r.head, stream) {
      forall ps, qs | Cut(ps) && Cut(qs) && Concat(ps) == stream && Concat(qs) == stream
        ensures Feed(r, ps) == Feed(r, qs)
      {
        if Parted(stream) {
          PartedAgree(r, stream, ps, qs);
        } else {
          CutsAgree(r, ps, qs);
        }
      }
    } else {
      var ps, qs;
      if Parted(stream) {
        ps, qs := PartedHarm(r, stream);
      } else {
        ps, qs := HarmDisagrees(r, stream);
      }
    }
  }
}
