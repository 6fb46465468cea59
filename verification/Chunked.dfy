/** Chunked bodies (section 7.1 of RFC 9112, no extensions, no trailers): the walk
    that looks for the end of the body, and the decoder that later writes it out. */
module Chunked {
  import opened Text
  import opened Storage
  import opened RequestModel
  import opened Segmentation

  /** A chunk as sent: its size line may use any hexadecimal spelling. */
  datatype Chunk = Chunk(size: string, data: string)

  const SMALL := "0123456789abcdef"
  const LARGE := "0123456789ABCDEF"

  /** The last digit is the remainder by sixteen, and what is before it the quotient:
      leading zeros and letters of either case are as good. */
  predicate Spells(size: string, n: nat)
    decreases |size|
  {
    && size != ""
    && (size[|size| - 1] == SMALL[n % 16] || size[|size| - 1] == LARGE[n % 16])
    && if |size| == 1 then n < 16 else Spells(size[..|size| - 1], n / 16)
  }

  /** A number as a client writes it. */
  function Hex(n: nat, large: bool): (s: string) {
    (if n < 16 then "" else Hex(n / 16, large)) + [if large then LARGE[n % 16] else SMALL[n % 16]]
  }

  lemma SmallDigit(d: nat)
    requires d < 16
    ensures Digit(SMALL[d]) == d && Digit(LARGE[d]) == d
  {
    assert SMALL[0] == '0' && SMALL[1] == '1' && SMALL[2] == '2' && SMALL[3] == '3' && SMALL[4] == '4';
    assert SMALL[5] == '5' && SMALL[6] == '6' && SMALL[7] == '7' && SMALL[8] == '8' && SMALL[9] == '9';
    assert SMALL[10] == 'a' && SMALL[11] == 'b' && SMALL[12] == 'c' && SMALL[13] == 'd' && SMALL[14] == 'e' && SMALL[15] == 'f';
    assert LARGE[10] == 'A' && LARGE[11] == 'B' && LARGE[12] == 'C' && LARGE[13] == 'D' && LARGE[14] == 'E' && LARGE[15] == 'F';
  }

  lemma DigitIsOneOfThese(c: char)
    requires Digit(c) < 16
    ensures c == SMALL[Digit(c)] || c == LARGE[Digit(c)]
  {
  }

  /** What `strtol` makes of a spelling is the number that it spells, and of no other. */
  lemma {:induction false} SpelledExactly(size: string, n: nat)
    ensures Spells(size, n) <==> size != "" && Digits(size, 16) && HexValue(size, |size|) == n
    decreases |size|
  {
    hide Digit;
    if size != "" {
      var front, c := size[..|size| - 1], size[|size| - 1];
      LastDigitExactly(c, n % 16);
      assert forall i :: 0 <= i < |front| ==> front[i] == size[i];
      assert Digits(size, 16) <==> Digits(front, 16) && Digit(c) < 16;
      HexValueOfPart(size, front, |front|);
      QuotientExactly(n, HexValue(front, |front|), Digit(c));
      if front != "" {
        SpelledExactly(front, n / 16);
      }
    }
  }

  lemma LastDigitExactly(c: char, d: nat)
    requires d < 16
    ensures c == SMALL[d] || c == LARGE[d] <==> Digit(c) == d
  {
    SmallDigit(d);
    if Digit(c) == d {
      DigitIsOneOfThese(c);
    }
  }

  lemma QuotientExactly(n: nat, q: nat, d: nat)
    requires d <= 16
    ensures d < 16 ==> (n == q * 16 + d <==> n / 16 == q && n % 16 == d)
  {
  }

  lemma {:induction false} HexSpells(n: nat, large: bool)
    ensures Spells(Hex(n, large), n)
  {
    if n >= 16 {
      HexSpells(n / 16, large);
      assert Hex(n, large)[..|Hex(n, large)| - 1] == Hex(n / 16, large);
    }
  }

  /** A line is refused exactly when no CR ends the hexadecimal digits it begins with. */
  lemma {:induction false} SizeIsRefusedExactly(line: string)
    ensures ChunkSize(line) == -1 <==>
            !exists k :: 0 <= k < |line| && line[k] == CR && forall i :: 0 <= i < k ==> line[i] in SMALL || line[i] in LARGE
  {
    var d := DigitRun(line, 16, 0);
    forall i | 0 <= i < |line| ensures Digit(line[i]) < 16 <==> line[i] in SMALL || line[i] in LARGE {
      OnlyTheseAreDigits(line[i]);
    }
    if k :| 0 <= k < |line| && line[k] == CR && forall i :: 0 <= i < k ==> line[i] in SMALL || line[i] in LARGE {
      assert Digit(CR) == 16 && k == d;
    }
  }

  lemma OnlyTheseAreDigits(c: char)
    ensures Digit(c) < 16 <==> c in SMALL || c in LARGE
  {
    if Digit(c) < 16 {
      DigitIsOneOfThese(c);
    } else {
      forall d: nat | d < 16 ensures c != SMALL[d] && c != LARGE[d] {
        SmallDigit(d);
      }
      assert |SMALL| == 16 && |LARGE| == 16;
    }
  }

  /** A size line is read back as the number that was written on it, up to the largest
      `long`. */
  lemma {:induction false} SizeIsReadBack(n: nat, large: bool, tail: string)
    ensures ChunkSize(Hex(n, large) + [CR]) == if n <= LONG_MAX then n else LONG_MAX
    ensures LineOf(Hex(n, large) + CRLF + tail) == Hex(n, large) + [CR]
  {
    HexSpells(n, large);
    SizeLineIsRead(Hex(n, large), n, tail);
  }

  /** A body in chunks as a client sends it, each announced by its length. */
  function Announced(datas: seq<string>, large: bool): seq<Chunk> {
    if datas == [] then [] else [Chunk(Hex(|datas[0]|, large), datas[0])] + Announced(datas[1..], large)
  }

  lemma {:induction false} AnnouncedIsWellFormed(datas: seq<string>, large: bool)
    requires forall i :: 0 <= i < |datas| ==> datas[i] != ""
    ensures WellFormed(Announced(datas, large), "0") && Flatten(Announced(datas, large)) == Concat(datas)
  {
    if datas == [] {
      assert "0"[0] == SMALL[0];
    } else {
      HexSpells(|datas[0]|, large);
      AnnouncedIsWellFormed(datas[1..], large);
    }
  }

  /** Nonempty chunks, each announced by its length, and a last chunk of size 0. */
  predicate WellFormed(chunks: seq<Chunk>, last: string) {
    if chunks == [] then Spells(last, 0)
    else chunks[0].data != "" && Spells(chunks[0].size, |chunks[0].data|) && WellFormed(chunks[1..], last)
  }

  function Encode(chunks: seq<Chunk>, last: string): (s: string)
    ensures |s| >= 4 + |last|
  {
    if chunks == [] then last + CRLF + CRLF
    else chunks[0].size + CRLF + (chunks[0].data + CRLF + Encode(chunks[1..], last))
  }

  function Flatten(chunks: seq<Chunk>): string {
    if chunks == [] then "" else chunks[0].data + Flatten(chunks[1..])
  }

  /** What a reader of a size line gets from the store. */
  lemma {:induction false} SizeLineIsRead(size: string, n: nat, tail: string)
    requires Spells(size, n)
    ensures var u := size + CRLF + tail;
            && HasLine(u) && LineOf(u) == size + [CR] && AfterLine(u) == tail
            && ChunkSize(LineOf(u)) == if n <= LONG_MAX then n else LONG_MAX
  {
    SpelledExactly(size, n);
    var line := size + [CR];
    assert size + CRLF + tail == line + [LF] + tail;
    assert forall k :: 0 <= k < |size| ==> line[k] == size[k];
    LineAt(line, tail);
    assert Digit(line[|size|]) == 16 && DigitRun(line, 16, 0) == |size|;
    assert line[..|size|] == size[..|size|] == size;
    HexValueOfPart(line, size, |size|);
  }

  lemma {:induction false} BlankLineIsRead(tail: string)
    ensures var u := CRLF + tail; HasLine(u) && LineOf(u) == [CR] && AfterLine(u) == tail
  {
    CrLfLine("", tail);
    assert CRLF + tail == "" + CRLF + tail && [CR] == "" + [CR];
  }

  // ------------------------------------------------------------ the walk

  /** The walk finds the end of a well-formed body, and stops exactly there. */
  lemma {:induction false} WalkFindsEnd(chunks: seq<Chunk>, last: string, rest: string)
    requires WellFormed(chunks, last) && |Encode(chunks, last) + rest| <= INT_MAX
    ensures Walk(Encode(chunks, last) + rest, -1, false) == Walked(true, -1, rest, false, false)
    decreases |chunks|
  {
    hide Spells, ChunkSize, HasLine, LineOf, AfterLine;
    var u := Encode(chunks, last) + rest;
    if chunks == [] {
      assert u == last + CRLF + (CRLF + rest);
      SizeLineIsRead(last, 0, CRLF + rest);
      BlankLineIsRead(rest);
    } else {
      var c, next := chunks[0], Encode(chunks[1..], last) + rest;
      assert u == c.size + CRLF + (c.data + CRLF + next);
      SizeLineIsRead(c.size, |c.data|, c.data + CRLF + next);
      assert (c.data + CRLF + next)[|c.data| + 2..] == next;
      WalkFindsEnd(chunks[1..], last, rest);
    }
  }

  /** Short of its last byte, no part of a well-formed body passes for a whole one. */
  lemma {:induction false} WalkRefusesPrefix(chunks: seq<Chunk>, last: string, part: string)
    requires WellFormed(chunks, last) && |Encode(chunks, last)| <= INT_MAX
    requires part < Encode(chunks, last)
    ensures !Walk(part, -1, false).found && !Odd(Walk(part, -1, false))
  {
    var body := Encode(chunks, last);
    var more := body[|part|..];
    assert part + more == body && body + "" == body;
    WalkFindsEnd(chunks, last, "");
    WalkGrows(part, more, -1);
  }

  /** `_parseChunk` called once for each piece, going on where it stood; bytes after
      a success are just left. */
  function WalkPieces(left: string, chunkSize: int, pieces: seq<string>): Walked
    requires chunkSize >= -1 && pieces != []
    decreases |pieces|
  {
    var w := Walk(left + pieces[0], chunkSize, false);
    if pieces[1..] == [] then w
    else if w.found then w.(left := w.left + Concat(pieces[1..]))
    else WalkPieces(w.left, w.chunkSize, pieces[1..])
  }

  lemma {:induction false} WalkPiecesIsOneWalk(left: string, chunkSize: int, pieces: seq<string>)
    requires chunkSize >= -1 && pieces != [] && |left + Concat(pieces)| <= INT_MAX
    requires !Odd(Walk(left + Concat(pieces), chunkSize, false))
    ensures WalkPieces(left, chunkSize, pieces) == Walk(left + Concat(pieces), chunkSize, false)
    decreases |pieces|
  {
    var first, more := left + pieces[0], Concat(pieces[1..]);
    assert left + Concat(pieces) == first + more;
    if pieces[1..] == [] {
      assert first + more == first;
    } else {
      WalkGrows(first, more, chunkSize);
      var w := Walk(first, chunkSize, false);
      WalkLeavesTail(first, chunkSize, false);
      if !w.found {
        WalkPiecesIsOneWalk(w.left, w.chunkSize, pieces[1..]);
      }
    }
  }

  /** The pre-scan is complete and safe: over any number of calls it reports success
      exactly when the whole body has arrived, and has then consumed exactly it. */
  lemma {:induction false} PreScan(chunks: seq<Chunk>, last: string, pieces: seq<string>)
    requires WellFormed(chunks, last) && pieces != []
    requires |Encode(chunks, last)| <= INT_MAX && |Concat(pieces)| <= INT_MAX
    requires Concat(pieces) <= Encode(chunks, last) || Encode(chunks, last) <= Concat(pieces)
    ensures var w := WalkPieces("", -1, pieces);
            && w.found == (Encode(chunks, last) <= Concat(pieces))
            && (w.found ==> Concat(pieces) == Encode(chunks, last) + w.left)
  {
    var body, got := Encode(chunks, last), Concat(pieces);
    assert "" + got == got;
    if body <= got {
      assert got == body + got[|body|..];
      WalkFindsEnd(chunks, last, got[|body|..]);
    } else {
      WalkRefusesPrefix(chunks, last, got);
    }
    WalkPiecesIsOneWalk("", -1, pieces);
  }

  // --------------------------------------------------------- the decoder

  /** Where the decoder stands in a body: before a size line, inside the data of a
      chunk, before the CRLF after the data, before the last CRLF, at the end, or
      stopped by a failed write while `owed` was still to come. */
  datatype Point =
    | AtSize(todo: seq<Chunk>)
    | InData(left: string, todo: seq<Chunk>)
    | AtGap(todo: seq<Chunk>)
    | AtLast
    | AtEnd
    | Broken(owed: string)

  /** Body bytes not yet written. */
  function Owed(p: Point): string {
    match p
    case AtSize(todo) => Flatten(todo)
    case InData(left, todo) => left + Flatten(todo)
    case AtGap(todo) => Flatten(todo)
    case AtLast => ""
    case AtEnd => ""
    case Broken(owed) => owed
  }

  /** What must be unread there, when `rest` follows the body. */
  function Ahead(p: Point, last: string, rest: string): string {
    match p
    case AtSize(todo) => Encode(todo, last) + rest
    case InData(left, todo) => left + (CRLF + (Encode(todo, last) + rest))
    case AtGap(todo) => CRLF + (Encode(todo, last) + rest)
    case AtLast => CRLF + rest
    case AtEnd => rest
    case Broken(_) => rest
  }

  ghost predicate StateAt(r: Request, p: Point) {
    match p
    case AtSize(_) => r.state == UploadChunkInit || r.state == UploadReadLine
    case InData(left, _) => r.state == UploadInit && left != "" && r.chunkSize == r.uploaded + |left| && r.uploaded >= 0
    case AtGap(_) => r.state == UploadReadLine && r.chunkSize > 0
    case AtLast => r.state == UploadReadLine && r.chunkSize == 0
    case AtEnd => r.state == UploadDone
    case Broken(_) => r.state == ConnectionClosed
  }

  /** The request stands at `p` of a well-formed body followed by `rest`. */
  ghost predicate Stands(r: Request, p: Point, last: string, rest: string) {
    && r.pos <= |r.held| <= INT_MAX
    && r.head.chunked
    && (r.conn == Closed ==> p.Broken?)
    && (p.Broken? || r.Unread() == Ahead(p, last, rest))
    && (p.AtSize? || p.InData? || p.AtGap? ==> WellFormed(p.todo, last))
    && StateAt(r, p)
  }

  /** The decoder never starves: the line, or the data, it is about to take is there. */
  lemma {:induction false} NeverStarves(r: Request, p: Point, last: string, rest: string)
    requires Stands(r, p, last, rest)
    ensures p.AtSize? || p.AtGap? || p.AtLast? ==> HasLine(r.Unread())
    ensures p.InData? ==> |r.Unread()| >= r.chunkSize - r.uploaded > 0
  {
    match p {
      case AtSize(todo) =>
        var c, n := if todo == [] then last else todo[0].size, if todo == [] then 0 else |todo[0].data|;
        var tail := if todo == [] then CRLF + rest else todo[0].data + CRLF + Encode(todo[1..], last) + rest;
        assert Encode(todo, last) + rest == c + CRLF + tail;
        SizeLineIsRead(c, n, tail);
      case AtGap(todo) => BlankLineIsRead(Encode(todo, last) + rest);
      case AtLast => BlankLineIsRead(rest);
      case _ =>
    }
  }

  /** From `r` at `p`, one call came to `w.req` at `p'`: what is written and what is
      owed is conserved, and with I/O that moves something, something is consumed. */
  ghost predicate Steps(r: Request, io: Io, p: Point, w: Uploaded, p': Point, last: string, rest: string) {
    && Stands(w.req, p', last, rest)
    && w.out + Owed(p') == Owed(p)
    && w.req.total == r.total + |w.out|
    && w.req.head == r.head && w.req.held == r.held && r.pos <= w.req.pos
    && (io.Moved? && !p.Broken? ==>
          && !p'.Broken?
          && (io.n > 0 && !p.AtEnd? ==> w.req.pos > r.pos))
  }

  /** A write that takes `n` of the `left` bytes it is still asked for. */
  lemma {:induction false} MoveTakes(r: Request, io: Io, left: string, tail: string)
    requires r.pos <= |r.held| <= INT_MAX && r.Unread() == left + tail
    requires r.uploaded >= 0 && r.chunkSize == r.uploaded + |left| && io.Moved?
    ensures var n := Min(io.n, |left|);
            var next := r.(pos := r.pos + n, uploaded := r.uploaded + n, total := r.total + n);
            && MoveBody(r, io) == Uploaded(next.(state := if n < |left| then UploadInit
                                                         else if r.head.chunked then UploadReadLine else UploadDone),
                                          left[..n])
            && next.pos <= |next.held| && next.Unread() == left[n..] + tail
  {
    var n := Min(io.n, |left|);
    assert r.Unread()[..n] == left[..n];
    assert r.held[r.pos + n..] == r.Unread()[n..] == left[n..] + tail;
  }

  /** A write of part of the data. */
  lemma {:induction false} MoveStep(r: Request, io: Io, left: string, todo: seq<Chunk>, last: string, rest: string)
    returns (p': Point)
    requires Stands(r, InData(left, todo), last, rest)
    ensures Steps(r, io, InData(left, todo), MoveBody(r, io), p', last, rest)
  {
    if io.Failed? {
      p' := Broken(left + Flatten(todo));
    } else {
      var n := Min(io.n, |left|);
      var tail := CRLF + (Encode(todo, last) + rest);
      MoveTakes(r, io, left, tail);
      assert left[..n] + left[n..] == left;
      if n == |left| {
        p' := AtGap(todo);
        assert left[n..] + tail == tail;
      } else {
        p' := InData(left[n..], todo);
        assert left[..n] + (left[n..] + Flatten(todo)) == left + Flatten(todo);
      }
    }
  }

  lemma {:induction false} UploadTakesLine(r: Request, io: Io)
    requires r.pos <= |r.held| && (r.state == UploadChunkInit || r.state == UploadReadLine)
    ensures Upload(r, io) == TakeLine(r.Leaving(AfterLine(r.Unread())), LineOf(r.Unread()), io)
  {
  }

  lemma {:induction false} LeavingLine(r: Request, tail: string)
    requires r.pos <= |r.held| && IsTail(tail, r.Unread())
    ensures r.Leaving(tail).Unread() == tail
  {
    assert r.held[r.pos..][|r.Unread()| - |tail|..] == r.held[|r.held| - |tail|..];
  }

  lemma {:induction false} LineTaken(r: Request, io: Io, line: string, tail: string)
    requires r.pos <= |r.held| && (r.state == UploadChunkInit || r.state == UploadReadLine)
    requires HasLine(r.Unread()) && LineOf(r.Unread()) == line && AfterLine(r.Unread()) == tail
    ensures var next := r.(pos := |r.held| - |tail|);
            && next.pos <= |next.held| && next.Unread() == tail
            && Upload(r, io) == TakeLine(next, line, io)
  {
    AfterLineIsTail(r.Unread());
    LeavingLine(r, tail);
    UploadTakesLine(r, io);
    assert r.Leaving(tail) == r.(pos := |r.held| - |tail|);
  }

  lemma {:induction false} SizeTaken(r: Request, io: Io, size: string, n: nat, tail: string)
    requires r.pos <= |r.held| && (r.state == UploadChunkInit || r.state == UploadReadLine) && r.conn != Closed
    requires Spells(size, n) && n <= LONG_MAX && r.Unread() == size + CRLF + tail
    ensures var next := r.(pos := |r.held| - |tail|, state := UploadReadLine, chunkSize := n);
            && next.pos <= |next.held| && next.Unread() == tail
            && Upload(r, io) == if n == 0 then Uploaded(next, "")
                                else MoveBody(next.(uploaded := 0, state := UploadInit), io)
  {
    hide Spells, ChunkSize, HasLine, LineOf, AfterLine, Upload, MoveBody;
    SpelledExactly(size, n);
    SizeLineIsRead(size, n, tail);
    LineTaken(r, io, size + [CR], tail);
    assert |size + [CR]| > 1;
    SizeUsed(r.(pos := |r.held| - |tail|), io, size + [CR], n);
  }

  lemma {:induction false} SizeUsed(r: Request, io: Io, line: string, n: nat)
    requires r.pos <= |r.held| && r.conn != Closed && |line| > 1 && ChunkSize(line) == n
    ensures var next := r.(state := UploadReadLine, chunkSize := n);
            TakeLine(r, line, io) == if n == 0 then Uploaded(next, "")
                                     else MoveBody(next.(uploaded := 0, state := UploadInit), io)
  {
  }

  /** The last chunk's line is taken, and only the final CRLF is left of the body. */
  lemma {:induction false} LastStep(r: Request, io: Io, last: string, rest: string)
    requires Stands(r, AtSize([]), last, rest)
    ensures Steps(r, io, AtSize([]), Upload(r, io), AtLast, last, rest)
  {
    assert last + CRLF + CRLF + rest == last + CRLF + (CRLF + rest);
    SizeTaken(r, io, last, 0, CRLF + rest);
  }

  /** A chunk's size line is taken and the write of its data begins. */
  lemma {:induction false} ChunkStep(r: Request, io: Io, todo: seq<Chunk>, last: string, rest: string)
    returns (p': Point)
    requires todo != [] && Stands(r, AtSize(todo), last, rest)
    ensures Steps(r, io, AtSize(todo), Upload(r, io), p', last, rest)
  {
    hide MoveBody, Encode, Flatten;
    var c := todo[0];
    var tail := Ahead(InData(c.data, todo[1..]), last, rest);
    FirstChunk(todo, last, rest);
    SizeTaken(r, io, c.size, |c.data|, tail);
    var begun := r.(pos := |r.held| - |tail|, state := UploadInit, chunkSize := |c.data|, uploaded := 0);
    DataBegins(r, todo, last, rest, begun);
    p' := MoveStep(begun, io, c.data, todo[1..], last, rest);
    SizeThenMove(r, begun, io, todo, MoveBody(begun, io), p', last, rest);
  }

  lemma {:induction false} DataBegins(r: Request, todo: seq<Chunk>, last: string, rest: string, begun: Request)
    requires todo != [] && Stands(r, AtSize(todo), last, rest)
    requires begun.pos <= |begun.held| && begun.Unread() == Ahead(InData(todo[0].data, todo[1..]), last, rest)
    requires begun == r.(pos := begun.pos, state := UploadInit, chunkSize := |todo[0].data|, uploaded := 0)
    ensures Stands(begun, InData(todo[0].data, todo[1..]), last, rest)
  {
  }

  /** Writing right after the size line was taken is one step from before the line. */
  lemma {:induction false} SizeThenMove(r: Request, begun: Request, io: Io, todo: seq<Chunk>, w: Uploaded, p': Point,
                                        last: string, rest: string)
    requires todo != [] && Steps(begun, io, InData(todo[0].data, todo[1..]), w, p', last, rest)
    requires begun.total == r.total && begun.head == r.head && begun.held == r.held && r.pos < begun.pos
    ensures Steps(r, io, AtSize(todo), w, p', last, rest)
  {
  }

  lemma {:induction false} FirstChunk(todo: seq<Chunk>, last: string, rest: string)
    requires todo != []
    ensures Encode(todo, last) + rest
         == todo[0].size + CRLF + (todo[0].data + (CRLF + (Encode(todo[1..], last) + rest)))
  {
    var c, after := todo[0], Encode(todo[1..], last);
    assert c.size + CRLF + (c.data + CRLF + after) + rest == c.size + CRLF + (c.data + (CRLF + (after + rest)));
  }

  /** The CRLF after the data of a chunk, or after the last chunk, is taken. */
  lemma {:induction false} GapStep(r: Request, io: Io, p: Point, p': Point, last: string, rest: string)
    requires Stands(r, p, last, rest)
    requires (p.AtGap? && p' == AtSize(p.todo)) || (p.AtLast? && p' == AtEnd)
    ensures Steps(r, io, p, Upload(r, io), p', last, rest)
  {
    var tail := Ahead(p', last, rest);
    BlankLineIsRead(tail);
    LineTaken(r, io, [CR], tail);
  }

  /** One call of the decoder, wherever it stands. */
  lemma {:induction false} UploadStep(r: Request, io: Io, p: Point, last: string, rest: string)
    returns (p': Point)
    requires Stands(r, p, last, rest)
    ensures Steps(r, io, p, Upload(r, io), p', last, rest)
    ensures p.AtEnd? ==> p' == AtEnd && Upload(r, io).req == r
  {
    match p {
      case AtSize(todo) =>
        if todo == [] {
          LastStep(r, io, last, rest);
          p' := AtLast;
        } else {
          p' := ChunkStep(r, io, todo, last, rest);
        }
      case InData(left, todo) => p' := MoveStep(r, io, left, todo, last, rest);
      case AtGap(todo) =>
        GapStep(r, io, p, AtSize(todo), last, rest);
        p' := AtSize(todo);
      case AtLast =>
        GapStep(r, io, p, AtEnd, last, rest);
        p' := AtEnd;
      case _ => p' := p;
    }
  }

  /** Calling `uploadRequest` once for each I/O outcome. */
  function UploadRun(r: Request, ios: seq<Io>): (w: Uploaded)
    requires r.pos <= |r.held|
    ensures w.req.pos <= |w.req.held|
    decreases |ios|
  {
    if ios == [] then Uploaded(r, "")
    else
      var w := Upload(r, ios[0]);
      var v := UploadRun(w.req, ios[1..]);
      Uploaded(v.req, w.out + v.out)
  }

  lemma {:induction false} RunUnfolds(r: Request, ios: seq<Io>)
    requires r.pos <= |r.held| && ios != []
    ensures var w, v := Upload(r, ios[0]), UploadRun(Upload(r, ios[0]).req, ios[1..]);
            UploadRun(r, ios) == Uploaded(v.req, w.out + v.out)
  {
  }

  lemma {:induction false} Chain(out: string, more: string, owed': string, owed1: string, owed: string)
    requires out + owed1 == owed && more + owed' == owed1
    ensures (out + more) + owed' == owed
  {
  }

  lemma {:induction false} RunConserves(r: Request, ios: seq<Io>, p: Point, last: string, rest: string)
    returns (p': Point)
    requires Stands(r, p, last, rest)
    ensures Stands(UploadRun(r, ios).req, p', last, rest)
    ensures UploadRun(r, ios).out + Owed(p') == Owed(p)
    ensures UploadRun(r, ios).req.total == r.total + |UploadRun(r, ios).out|
    decreases |ios|
  {
    if ios == [] {
      p' := p;
    } else {
      var p1 := UploadStep(r, ios[0], p, last, rest);
      var w := Upload(r, ios[0]);
      p' := RunConserves(w.req, ios[1..], p1, last, rest);
      RunUnfolds(r, ios);
      Chain(w.out, UploadRun(w.req, ios[1..]).out, Owed(p'), Owed(p1), Owed(p));
    }
  }

  /** The main result: from the rewind on, whatever each write takes and even if one
      fails, the file holds a prefix of the body, `total` counts it, and the decoder
      is done only when it holds all of it; what follows the body is then unread. */
  lemma {:induction false} ChunkedRoundTrip(r: Request, ios: seq<Io>, chunks: seq<Chunk>, last: string, rest: string)
    requires Stands(r, AtSize(chunks), last, rest) && r.total == 0
    ensures var w := UploadRun(r, ios);
            && w.out <= Flatten(chunks) && w.req.total == |w.out|
            && w.req.state != BadRequest
            && (w.req.state == UploadDone ==> w.out == Flatten(chunks) && w.req.Unread() == rest)
  {
    var p' := RunConserves(r, ios, AtSize(chunks), last, rest);
  }

  /** And it gets there: each call that can write something shortens what is unread,
      so as many calls as the body has bytes are enough. */
  lemma {:induction false} ChunkedCompletes(r: Request, ios: seq<Io>, p: Point, last: string, rest: string)
    requires Stands(r, p, last, rest) && !p.Broken?
    requires forall i :: 0 <= i < |ios| ==> ios[i].Moved? && ios[i].n > 0
    requires |ios| >= |r.held| - r.pos - |rest|
    ensures UploadRun(r, ios).req.state == UploadDone
    decreases |ios|
  {
    if p.AtEnd? {
      if ios != [] {
        var p' := UploadStep(r, ios[0], p, last, rest);
        ChunkedCompletes(r, ios[1..], p', last, rest);
      }
    } else {
      assert |Ahead(p, last, rest)| > |rest|;
      var p' := UploadStep(r, ios[0], p, last, rest);
      ChunkedCompletes(Upload(r, ios[0]).req, ios[1..], p', last, rest);
    }
  }

  // ---------------------------------------------- bodies of a given length

  /** A request about to write `left` more bytes of a body of known length. */
  ghost predicate Measured(r: Request, left: string, rest: string) {
    && r.pos <= |r.held| <= INT_MAX
    && !r.head.chunked && r.uploaded >= 0
    && (r.state == ConnectionClosed
        || (r.state == UploadDone && left == "" && r.Unread() == rest)
        || (r.state == UploadInit && r.chunkSize == r.uploaded + |left| && r.Unread() == left + rest))
  }

  lemma {:induction false} MeasuredStep(r: Request, io: Io, left: string, rest: string) returns (left': string)
    requires Measured(r, left, rest)
    ensures Measured(Upload(r, io).req, left', rest)
    ensures Upload(r, io).out + left' == left
    ensures Upload(r, io).req.total == r.total + |Upload(r, io).out|
    ensures io.Moved? && r.state != ConnectionClosed ==> Upload(r, io).req.state != ConnectionClosed
    ensures io.Moved? && io.n > 0 && r.state == UploadInit ==> Upload(r, io).req.state == UploadDone || |left'| < |left|
    ensures Upload(r, io).req.head == r.head
  {
    var n := if r.state == UploadInit && io.Moved? then Min(io.n, |left|) else 0;
    left' := left[n..];
    assert left[..n] + left[n..] == left;
    if r.state == UploadInit && io.Moved? {
      MoveTakes(r, io, left, rest);
      assert n == |left| ==> left[n..] + rest == rest;
    }
  }

  /** The same round trip when the length is declared: exactly the first
      `_contentLength` bytes of what follows the head are written. */
  lemma {:induction false} MeasuredRoundTrip(r: Request, ios: seq<Io>, left: string, rest: string)
    requires Measured(r, left, rest)
    ensures var w := UploadRun(r, ios);
            && w.out <= left && w.req.total == r.total + |w.out|
            && (w.req.state == UploadDone ==> w.out == left && w.req.Unread() == rest)
            && (w.req.state == UploadInit || w.req.state == UploadDone || w.req.state == ConnectionClosed)
    decreases |ios|
  {
    if ios != [] {
      var left' := MeasuredStep(r, ios[0], left, rest);
      MeasuredRoundTrip(Upload(r, ios[0]).req, ios[1..], left', rest);
    }
  }

  /** One call for each byte, and one more for a body without any, are enough. */
  lemma {:induction false} MeasuredCompletes(r: Request, ios: seq<Io>, left: string, rest: string)
    requires Measured(r, left, rest) && r.state != ConnectionClosed
    requires forall i :: 0 <= i < |ios| ==> ios[i].Moved? && ios[i].n > 0
    requires |ios| > |left|
    ensures UploadRun(r, ios).req.state == UploadDone
    decreases |ios|
  {
    var left' := MeasuredStep(r, ios[0], left, rest);
    var next := Upload(r, ios[0]).req;
    if next.state == UploadDone {
      DoneStays(next, ios[1..]);
    } else {
      MeasuredCompletes(next, ios[1..], left', rest);
    }
  }

  lemma {:induction false} DoneStays(r: Request, ios: seq<Io>)
    requires r.pos <= |r.held| && r.state == UploadDone
    ensures UploadRun(r, ios).req.state == UploadDone
    decreases |ios|
  {
    if ios != [] {
      DoneStays(r, ios[1..]);
    }
  }
}
