/** How a byte stream is cut into `recv` pieces does not change what is parsed. */
module Segmentation {
  import opened Text
  import opened Storage
  import opened RequestModel

  predicate Odd(w: Walked) {
    w.bad || w.bare
  }

  /** More bytes never change a walk that has succeeded, never hide a line that
      stopped or spoilt it, and otherwise the walk may go on from where it stood. */
  lemma {:induction false} WalkGrows(u: string, more: string, chunkSize: int)
    requires chunkSize >= -1 && |u + more| <= INT_MAX
    ensures var w, w' := Walk(u, chunkSize, false), Walk(u + more, chunkSize, false);
            && (w.found && !Odd(w) ==> w' == w.(left := w.left + more))
            && (Odd(w) ==> Odd(w'))
            && (!w.found && !Odd(w) ==> w' == Walk(w.left + more, w.chunkSize, false))
    decreases |u|, 1
  {
    if chunkSize != -1 {
      WalkDataGrows(u, more, chunkSize);
    } else if HasLine(u) {
      LineGrows(u, more);
      var size := ChunkSize(LineOf(u));
      if LineOf(u) != "" {
        if size == -1 {
          BadStays(AfterLine(u), size);
          BadStays(AfterLine(u) + more, size);
        } else {
          WalkDataGrows(AfterLine(u), more, size);
        }
      }
    }
  }

  lemma {:induction false} WalkDataGrows(u: string, more: string, chunkSize: int)
    requires chunkSize >= 0 && |u + more| <= INT_MAX
    ensures var w, w' := WalkData(u, chunkSize, false), WalkData(u + more, chunkSize, false);
            && (w.found && !Odd(w) ==> w' == w.(left := w.left + more))
            && (Odd(w) ==> Odd(w'))
            && (!w.found && !Odd(w) ==> w' == Walk(w.left + more, w.chunkSize, false))
    decreases |u|, 0
  {
    if chunkSize == 0 {
      if HasLine(u) { LineGrows(u, more); }
    } else if |u| > chunkSize + 2 {
      assert (u + more)[chunkSize + 2..] == u[chunkSize + 2..] + more;
      WalkGrows(u[chunkSize + 2..], more, -1);
    }
  }

  /** A refused size line is never forgotten. */
  lemma {:induction false} BadStays(u: string, chunkSize: int)
    requires chunkSize >= -1
    ensures WalkData(u, chunkSize, true).bad
    decreases |u|, 0
  {
    if chunkSize != 0 && Int32(|u|) > chunkSize + 2 {
      WalkStaysBad(u[chunkSize + 2..]);
    }
  }

  lemma {:induction false} WalkStaysBad(u: string)
    ensures Walk(u, -1, true).bad
    decreases |u|, 1
  {
    if LineOf(u) != "" {
      BadStays(AfterLine(u), ChunkSize(LineOf(u)));
    }
  }

  lemma {:induction false} FieldsGrow(h: Head, u: string, more: string)
    ensures var s, s' := Fields(h, u), Fields(h, u + more);
            && (s.end != NoLine ==> s' == s.(left := s.left + more))
            && (s.end == NoLine ==> s' == Fields(s.head, s.left + more))
    decreases |u|
  {
    if HasLine(u) {
      LineGrows(u, more);
      if LineOf(u) != "" && LineOf(u) != [CR] && WellFormedField(h, LineOf(u)) {
        FieldsGrow(Field(h, LineOf(u)), AfterLine(u), more);
      }
    }
  }

  // ---------------------------------------------------- one pass, resumed

  /** `o'`, the pass over more bytes, goes through what `o` went through and, if
      `o` was still parsing, on from where it stopped. */
  predicate Continues(o: Outcome, more: string, o': Outcome)
    requires StillParsing(o.state) ==> o.chunkSize >= -1
  {
    if StillParsing(o.state) then
      var next := Scan(o.state, o.head, o.left + more, o.chunkSize);
      o' == (if o.began then next.(began := true, body := o.body + more) else next)
    else
      o' == o.(left := o.left + more, body := if o.began then o.body + more else "")
  }

  lemma {:induction false} BodyGrows(h: Head, u: string, more: string, chunkSize: int)
    requires chunkSize >= -1 && |u + more| <= INT_MAX
    ensures var o, o' := ScanBody(h, u, chunkSize), ScanBody(h, u + more, chunkSize);
            if o.odd then o'.odd else Continues(o, more, o')
  {
    WalkGrows(u, more, chunkSize);
  }

  lemma {:induction false} HeadGrows(s: Scanned, more: string, s': Scanned, chunkSize: int)
    requires chunkSize >= -1 && |s.left + more| <= INT_MAX
    requires if s.end == NoLine then s' == Fields(s.head, s.left + more) else s' == s.(left := s.left + more)
    ensures var o, o' := HeadOutcome(s, chunkSize), HeadOutcome(s', chunkSize);
            if o.odd then o'.odd else Continues(o, more, o')
  {
    if s.end == Blank {
      BodyGrows(s.head, s.left, more, chunkSize);
    }
  }

  lemma {:induction false} ScanGrows(state: ParsingState, h: Head, u: string, more: string, chunkSize: int)
    requires chunkSize >= -1 && |u + more| <= INT_MAX && StillParsing(state)
    ensures var o, o' := Scan(state, h, u, chunkSize), Scan(state, h, u + more, chunkSize);
            if o.odd then o'.odd else Continues(o, more, o')
  {
    match state {
      case ParsingInit => StartGrows(h, u, more, chunkSize);
      case ParsingHeader =>
        FieldsGrow(h, u, more);
        HeadGrows(Fields(h, u), more, Fields(h, u + more), chunkSize);
      case ParsingBody => BodyGrows(h, u, more, chunkSize);
    }
  }

  lemma {:induction false} StartGrows(h: Head, u: string, more: string, chunkSize: int)
    requires chunkSize >= -1 && |u + more| <= INT_MAX
    ensures var o, o' := ScanStart(h, u, chunkSize), ScanStart(h, u + more, chunkSize);
            if o.odd then o'.odd else Continues(o, more, o')
  {
    if HasLine(u) {
      LineGrows(u, more);
      if WellFormedStart(LineOf(u)) {
        var g, v := StartLine(h, LineOf(u)), AfterLine(u);
        FieldsGrow(g, v, more);
        HeadGrows(Fields(g, v), more, Fields(g, v + more), chunkSize);
      }
    }
  }

  // ------------------------------------------- what is left is a tail

  lemma {:induction false} TailOfTail(s: string, t: string, u: string)
    requires IsTail(s, t) && IsTail(t, u)
    ensures IsTail(s, u)
  {
    assert u[|u| - |t|..][|t| - |s|..] == u[|u| - |s|..];
  }

  lemma {:induction false} FieldsLeaveTail(h: Head, u: string)
    ensures IsTail(Fields(h, u).left, u)
    decreases |u|
  {
    var line, rest := LineOf(u), AfterLine(u);
    if line != "" && line != [CR] && WellFormedField(h, line) {
      FieldsLeaveTail(Field(h, line), rest);
      TailOfTail(Fields(Field(h, line), rest).left, rest, u);
    }
  }

  lemma {:induction false} WalkLeavesTail(u: string, chunkSize: int, bad: bool)
    requires chunkSize >= -1
    ensures IsTail(Walk(u, chunkSize, bad).left, u)
    decreases |u|, 1
  {
    if chunkSize != -1 {
      WalkDataLeavesTail(u, chunkSize, bad);
    } else if LineOf(u) != "" {
      var size := ChunkSize(LineOf(u));
      WalkDataLeavesTail(AfterLine(u), size, bad || size == -1);
      TailOfTail(Walk(u, chunkSize, bad).left, AfterLine(u), u);
    }
  }

  lemma {:induction false} WalkDataLeavesTail(u: string, chunkSize: int, bad: bool)
    requires chunkSize >= -1
    ensures IsTail(WalkData(u, chunkSize, bad).left, u)
    decreases |u|, 0
  {
    if chunkSize != 0 && Int32(|u|) > chunkSize + 2 {
      var rest := u[chunkSize + 2..];
      WalkLeavesTail(rest, -1, bad);
      TailOfTail(WalkData(u, chunkSize, bad).left, rest, u);
    }
  }

  lemma {:induction false} ScanLeavesTail(state: ParsingState, h: Head, u: string, chunkSize: int)
    requires chunkSize >= -1 && StillParsing(state)
    ensures IsTail(Scan(state, h, u, chunkSize).left, u)
  {
    match state {
      case ParsingInit =>
        if LineOf(u) != "" && WellFormedStart(LineOf(u)) {
          StartLeavesTail(StartLine(h, LineOf(u)), AfterLine(u), u, chunkSize);
        }
      case ParsingHeader => HeadLeavesTail(h, u, chunkSize);
      case ParsingBody => WalkLeavesTail(u, chunkSize, false);
    }
  }

  lemma {:induction false} StartLeavesTail(h: Head, rest: string, u: string, chunkSize: int)
    requires chunkSize >= -1 && IsTail(rest, u)
    ensures IsTail(ScanHead(h, rest, chunkSize).left, u)
  {
    HeadLeavesTail(h, rest, chunkSize);
    TailOfTail(ScanHead(h, rest, chunkSize).left, rest, u);
  }

  lemma {:induction false} HeadLeavesTail(h: Head, u: string, chunkSize: int)
    requires chunkSize >= -1
    ensures IsTail(ScanHead(h, u, chunkSize).left, u)
  {
    FieldsLeaveTail(h, u);
    HeadOutcomeLeavesTail(Fields(h, u), u, chunkSize);
  }

  lemma {:induction false} HeadOutcomeLeavesTail(s: Scanned, u: string, chunkSize: int)
    requires chunkSize >= -1 && IsTail(s.left, u)
    ensures IsTail(HeadOutcome(s, chunkSize).left, u)
  {
    hide Walk, Int32;
    if s.end == Blank {
      WalkLeavesTail(s.left, chunkSize, false);
      TailOfTail(HeadOutcome(s, chunkSize).left, s.left, u);
    }
  }

  /** No step of this parse meets a line that is empty without its CR, or a chunk
      size that is no number: the requests the parser is built for. */
  predicate Clean(r: Request)
    requires r.Valid()
  {
    StillParsing(r.state) ==> !Scan(r.state, r.head, r.Unread(), r.chunkSize).odd
  }

  /** What was odd early on stays odd when more bytes come. */
  lemma {:induction false} PartIsClean(r: Request, more: string)
    requires r.Valid() && |r.held + more| <= INT_MAX && Clean(Holding(r, more))
    ensures Clean(r)
  {
    if StillParsing(r.state) {
      HoldingUnread(r, more);
      ScanGrows(r.state, r.head, r.Unread(), more, r.chunkSize);
    }
  }

  /** Parsing early and again after more bytes is parsing once. */
  lemma {:induction false} ParseGrows(r: Request, more: string)
    requires r.Valid() && |r.held + more| <= INT_MAX && Clean(r)
    ensures Parse(Holding(Parse(r), more)) == Parse(Holding(r, more))
    ensures Clean(Holding(Parse(r), more)) == Clean(Holding(r, more))
  {
    if StillParsing(r.state) {
      var u := r.Unread();
      HoldingUnread(r, more);
      ScanGrows(r.state, r.head, u, more, r.chunkSize);
      ScanLeavesTail(r.state, r.head, u, r.chunkSize);
      ApplyGrows(r, more, Scan(r.state, r.head, u, r.chunkSize), Scan(r.state, r.head, u + more, r.chunkSize));
    }
  }

  lemma {:induction false} HoldingUnread(r: Request, more: string)
    requires r.Valid()
    ensures Holding(r, more).Unread() == r.Unread() + more
  {
  }

  lemma {:induction false} ApplyGrows(r: Request, more: string, o: Outcome, o': Outcome)
    requires r.Valid() && StillParsing(r.state)
    requires Fits(o, r.Unread()) && IsTail(o.left, r.Unread()) && Fits(o', r.Unread() + more)
    requires ReachedBody(o.state) ==> o.began || r.state == ParsingBody
    requires ReachedBody(o'.state) ==> o'.began || r.state == ParsingBody
    requires Continues(o, more, o') && !o.odd
    ensures Fits(o', Holding(r, more).Unread())
    ensures Parse(Holding(Apply(r, o), more)) == Apply(Holding(r, more), o')
    ensures Clean(Holding(Apply(r, o), more)) == !o'.odd
  {
    if StillParsing(o.state) {
      ApplyTwice(r, o, more, Scan(o.state, o.head, o.left + more, o.chunkSize), o');
    } else {
      ApplyLater(r, o, more, o');
    }
  }

  lemma {:induction false} ApplyLater(r: Request, o: Outcome, more: string, o': Outcome)
    requires r.Valid() && Fits(o, r.Unread())
    requires ReachedBody(o.state) ==> o.began || r.state == ParsingBody
    requires o' == o.(left := o.left + more, body := if o.began then o.body + more else "")
    ensures |o'.left| <= |Holding(r, more).Unread()| && |o'.body| <= |Holding(r, more).Unread()|
    ensures Holding(Apply(r, o), more) == Apply(Holding(r, more), o')
  {
  }

  lemma {:induction false} ApplyTwice(r: Request, o: Outcome, more: string, next: Outcome, o': Outcome)
    requires r.Valid() && Fits(o, r.Unread()) && StillParsing(o.state) && IsTail(o.left, r.Unread())
    requires ReachedBody(o.state) ==> o.began || r.state == ParsingBody
    requires o.began ==> o.state == ParsingBody
    requires Fits(next, o.left + more)
    requires ReachedBody(next.state) ==> next.began || o.state == ParsingBody
    requires o.state == ParsingBody ==> !next.began && !next.state.ParsingInit? && !next.state.ParsingHeader?
    requires o' == if o.began then next.(began := true, body := o.body + more) else next
    ensures Fits(o', Holding(r, more).Unread()) && (ReachedBody(o'.state) ==> o'.began || r.state == ParsingBody)
    ensures Holding(Apply(r, o), more).Unread() == o.left + more
    ensures Apply(Holding(Apply(r, o), more), next) == Apply(Holding(r, more), o')
  {
    assert r.held[r.pos..][|r.Unread()| - |o.left|..] == r.held[|r.held| - |o.left|..];
    assert (r.held + more)[|r.held| - |o.left|..] == o.left + more;
  }

  // ------------------------------------------------------ whole streams

  function Concat(pieces: seq<string>): string {
    if pieces == [] then "" else pieces[0] + Concat(pieces[1..])
  }

  /** Pieces `recv` can hand over, the last of them leaving its buffer unfilled. */
  predicate Cut(pieces: seq<string>) {
    && pieces != []
    && (forall i :: 0 <= i < |pieces| ==> 0 < |pieces[i]| <= READ_BUFFER_SIZE)
    && |pieces[|pieces| - 1]| < READ_BUFFER_SIZE
  }

  /** Calling `parseRequest` once for each piece. */
  function Feed(r: Request, pieces: seq<string>): (r': Request)
    requires r.Valid()
    ensures r'.Valid()
    decreases |pieces|
  {
    if pieces == [] then r else Feed(Receive(r, Piece(pieces[0])), pieces[1..])
  }

  lemma {:induction false} ParseIgnoresConn(r: Request, conn: StorageState)
    requires r.Valid()
    ensures Parse(r.(conn := conn)) == Parse(r).(conn := conn)
    ensures Clean(r.(conn := conn)) == Clean(r)
  {
    assert r.(conn := conn).Unread() == r.Unread();
  }

  lemma {:induction false} OnePiece(r: Request, piece: string)
    requires r.Valid() && 0 < |piece| < READ_BUFFER_SIZE
    ensures Receive(r, Piece(piece)) == Parse(Holding(r, piece)).(conn := ReceiveDone)
  {
    ParseIgnoresConn(Holding(r, piece), ReceiveDone);
  }
}
