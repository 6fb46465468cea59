/** From the socket to the file: a well-formed request, however it is cut into
    pieces and however its body is written out, leaves exactly its body. */
module Framing {
  import opened Text
  import opened Storage
  import opened RequestModel
  import opened Segmentation
  import opened Trouble
  import opened Agreement
  import opened Chunked

  /** Head lines as sent, each ended by CRLF. */
  function Lines(lines: seq<string>): string {
    if lines == [] then "" else lines[0] + CRLF + Lines(lines[1..])
  }

  /** What the header fields, read in order, make of a head. */
  function Reading(h: Head, fields: seq<string>): Head
    decreases |fields|
  {
    if fields == [] then h else Reading(Field(h, fields[0] + [CR]), fields[1..])
  }

  predicate Acceptable(h: Head, fields: seq<string>)
    decreases |fields|
  {
    fields != [] ==>
      && fields[0] != "" && LF !in fields[0] && WellFormedField(h, fields[0] + [CR])
      && Acceptable(Field(h, fields[0] + [CR]), fields[1..])
  }

  /** A head the parser accepts: a start line and header fields within its limits. */
  predicate AcceptableHead(h: Head, start: string, fields: seq<string>) {
    && LF !in start && WellFormedStart(start + [CR])
    && Acceptable(StartLine(h, start + [CR]), fields)
  }

  function HeadOf(h: Head, start: string, fields: seq<string>): Head {
    Reading(StartLine(h, start + [CR]), fields)
  }

  function Message(start: string, fields: seq<string>, body: string): string {
    start + CRLF + (Lines(fields) + (CRLF + body))
  }

  lemma {:induction false} FieldsAreRead(h: Head, fields: seq<string>, body: string)
    requires Acceptable(h, fields)
    ensures Fields(h, Lines(fields) + (CRLF + body)) == Scanned(Reading(h, fields), body, Blank)
    decreases |fields|
  {
    hide Fields, Field, WellFormedField, LineOf, AfterLine;
    if fields == [] {
      assert Lines(fields) + (CRLF + body) == "" + CRLF + body && "" + [CR] == [CR];
      CrLfLine("", body);
      BlankEndsFields(h, "" + CRLF + body, body);
    } else {
      var rest := Lines(fields[1..]) + (CRLF + body);
      CrLfLine(fields[0], rest);
      assert Lines(fields) + (CRLF + body) == fields[0] + CRLF + rest;
      assert |fields[0] + [CR]| > 1;
      FieldThenFields(h, fields[0] + CRLF + rest, fields[0] + [CR], rest);
      FieldsAreRead(Field(h, fields[0] + [CR]), fields[1..], body);
    }
  }

  lemma {:induction false} FieldThenFields(h: Head, u: string, line: string, rest: string)
    requires LineOf(u) == line && AfterLine(u) == rest && line != [CR] && WellFormedField(h, line)
    ensures Fields(h, u) == Fields(Field(h, line), rest)
  {
  }

  lemma {:induction false} BlankEndsFields(h: Head, u: string, rest: string)
    requires LineOf(u) == [CR] && AfterLine(u) == rest
    ensures Fields(h, u) == Scanned(h, rest, Blank)
  {
  }

  lemma {:induction false} HeadIsRead(h: Head, start: string, fields: seq<string>, body: string, chunkSize: int)
    requires chunkSize >= -1 && AcceptableHead(h, start, fields)
    ensures ScanStart(h, Message(start, fields, body), chunkSize)
         == ScanBody(HeadOf(h, start, fields), body, chunkSize).(began := true, body := body)
  {
    var rest := Lines(fields) + (CRLF + body);
    CrLfLine(start, rest);
    FieldsAreRead(StartLine(h, start + [CR]), fields, body);
    StartThenHead(h, Message(start, fields, body), start + [CR], rest, chunkSize);
  }

  lemma {:induction false} StartThenHead(h: Head, u: string, line: string, rest: string, chunkSize: int)
    requires chunkSize >= -1 && LineOf(u) == line && AfterLine(u) == rest && WellFormedStart(line)
    ensures ScanStart(h, u, chunkSize) == HeadOutcome(Fields(StartLine(h, line), rest), chunkSize)
  {
  }

  /** A whole request has arrived in pieces: one parse of it all. */
  lemma {:induction false} Arrived(r: Request, pieces: seq<string>, start: string, fields: seq<string>, body: string,
                                   o: Outcome)
    requires Idle(r) && Cut(pieces) && AcceptableHead(r.head, start, fields)
    requires Concat(pieces) == Message(start, fields, body) && |r.held + Concat(pieces)| <= INT_MAX
    requires o == ScanBody(HeadOf(r.head, start, fields), body, -1).(began := true, body := body) && !o.odd
    ensures Holding(r, Message(start, fields, body)).Unread() == Message(start, fields, body)
    ensures Fits(o, Message(start, fields, body))
    ensures Feed(r, pieces) == Apply(Holding(r, Message(start, fields, body)), o).(conn := ReceiveDone)
  {
    var u := Message(start, fields, body);
    assert Holding(r, u).Unread() == u;
    HeadIsRead(r.head, start, fields, body, -1);
    OddIsTrouble(Holding(r, u));
    FeedIsOneParse(r, pieces);
  }

  lemma {:induction false} MessageEndsInBody(held: string, start: string, fields: seq<string>, body: string)
    ensures var all := held + Message(start, fields, body);
            |all| >= |body| && all[|all| - |body|..] == body
  {
    var all := held + Message(start, fields, body);
    assert all == (held + start + CRLF + Lines(fields) + CRLF) + body;
  }

  lemma {:induction false} BodyIsFound(h: Head, chunks: seq<Chunk>, last: string, rest: string)
    requires h.chunked && WellFormed(chunks, last) && |Encode(chunks, last) + rest| <= INT_MAX
    ensures ScanBody(h, Encode(chunks, last) + rest, -1) == Outcome(UploadChunkInit, h, rest, -1, false, "", false)
  {
    WalkFindsEnd(chunks, last, rest);
  }

  lemma {:induction false} LengthIsMet(h: Head, body: string, rest: string)
    requires !h.chunked && h.contentLength == |body| && |body + rest| <= INT_MAX
    ensures ScanBody(h, body + rest, -1) == Outcome(UploadInit, h, body + rest, |body|, false, "", false)
  {
  }

  /** The store rewound to the body it was found to hold. */
  lemma {:induction false} RewoundToBody(r: Request, pieces: seq<string>, start: string, fields: seq<string>,
                                         body: string, o: Outcome)
    requires Idle(r) && Cut(pieces) && AcceptableHead(r.head, start, fields)
    requires Concat(pieces) == Message(start, fields, body) && |r.held + Concat(pieces)| <= INT_MAX
    requires o == ScanBody(HeadOf(r.head, start, fields), body, -1).(began := true, body := body) && !o.odd
    requires o.state == UploadChunkInit
    ensures var q := Feed(r, pieces);
            && q.pos <= |q.held| <= INT_MAX && q.Unread() == body
            && q.state == UploadChunkInit && q.head == o.head && q.total == 0 && q.conn == ReceiveDone
  {
    hide ScanBody, HeadOf, AcceptableHead, Message, Feed, Concat, Cut;
    MessageEndsInBody(r.held, start, fields, body);
    Arrived(r, pieces, start, fields, body, o);
  }

  lemma {:induction false} ReadyToMeasure(r: Request, o: Outcome, body: string, rest: string)
    requires r.Valid() && Fits(o, r.Unread()) && |r.held| <= INT_MAX && r.uploaded == 0
    requires o.state == UploadInit && !o.head.chunked && o.chunkSize == |body|
    requires IsTail(o.left, r.held) && o.left == body + rest
    ensures var q := Apply(r, o).(conn := ReceiveDone);
            Measured(q, body, rest) && q.total == r.total && q.head == o.head && q.state == UploadInit
  {
  }

  /** A chunked request, cut anyhow: the parser is done with it exactly when the
      rewound store stands at the front of the body. */
  lemma {:induction false} ChunkedArrives(r: Request, pieces: seq<string>, start: string, fields: seq<string>,
                                          chunks: seq<Chunk>, last: string, rest: string)
    requires Idle(r) && Cut(pieces) && AcceptableHead(r.head, start, fields)
    requires HeadOf(r.head, start, fields).chunked && WellFormed(chunks, last)
    requires Concat(pieces) == Message(start, fields, Encode(chunks, last) + rest)
    requires |r.held + Concat(pieces)| <= INT_MAX
    ensures var q := Feed(r, pieces);
            && q.state == UploadChunkInit && q.head == HeadOf(r.head, start, fields)
            && Stands(q, AtSize(chunks), last, rest) && q.total == 0
  {
    hide ScanBody, HeadOf, AcceptableHead, Message, Feed, Concat, Cut, Encode, WellFormed;
    var h, body := HeadOf(r.head, start, fields), Encode(chunks, last) + rest;
    assert |body| <= |r.held + Concat(pieces)| by { MessageEndsInBody(r.held, start, fields, body); }
    BodyIsFound(h, chunks, last, rest);
    RewoundToBody(r, pieces, start, fields, body, Outcome(UploadChunkInit, h, rest, -1, true, body, false));
  }

  /** The main result for chunked bodies. Neither the cut of the input nor the
      pattern of partial or failing writes shows in the file: it holds a prefix of
      the body, and all of it once the upload is done. */
  lemma {:induction false} ChunkedEndToEnd(r: Request, pieces: seq<string>, start: string, fields: seq<string>,
                                           chunks: seq<Chunk>, last: string, rest: string, ios: seq<Io>)
    requires Idle(r) && Cut(pieces) && AcceptableHead(r.head, start, fields)
    requires HeadOf(r.head, start, fields).chunked && WellFormed(chunks, last)
    requires Concat(pieces) == Message(start, fields, Encode(chunks, last) + rest)
    requires |r.held + Concat(pieces)| <= INT_MAX
    ensures var w := UploadRun(Feed(r, pieces), ios);
            && w.out <= Flatten(chunks) && w.req.total == |w.out|
            && (w.req.state == UploadDone ==> w.out == Flatten(chunks) && w.req.Unread() == rest)
            && (|ios| >= |Encode(chunks, last)| && (forall i :: 0 <= i < |ios| ==> ios[i].Moved? && ios[i].n > 0)
                ==> w.req.state == UploadDone)
  {
    ChunkedArrives(r, pieces, start, fields, chunks, last, rest);
    var q := Feed(r, pieces);
    ChunkedRoundTrip(q, ios, chunks, last, rest);
    if |ios| >= |Encode(chunks, last)| && (forall i :: 0 <= i < |ios| ==> ios[i].Moved? && ios[i].n > 0) {
      assert |q.Unread()| == |Encode(chunks, last)| + |rest|;
      ChunkedCompletes(q, ios, AtSize(chunks), last, rest);
    }
  }

  lemma {:induction false} MeasuredArrives(r: Request, pieces: seq<string>, start: string, fields: seq<string>,
                                           body: string, rest: string)
    requires Idle(r) && Cut(pieces) && AcceptableHead(r.head, start, fields)
    requires !HeadOf(r.head, start, fields).chunked && HeadOf(r.head, start, fields).contentLength == |body|
    requires Concat(pieces) == Message(start, fields, body + rest)
    requires |r.held + Concat(pieces)| <= INT_MAX
    ensures var q := Feed(r, pieces);
            && q.state == UploadInit && q.head == HeadOf(r.head, start, fields)
            && Measured(q, body, rest) && q.total == 0
  {
    hide ScanBody, HeadOf, AcceptableHead, Message, Feed, Concat, Cut;
    MessageEndsInBody(r.held, start, fields, body + rest);
    var h := HeadOf(r.head, start, fields);
    var o := Outcome(UploadInit, h, body + rest, |body|, true, body + rest, false);
    LengthIsMet(h, body, rest);
    Arrived(r, pieces, start, fields, body + rest, o);
    ReadyToMeasure(Holding(r, Message(start, fields, body + rest)), o, body, rest);
  }

  /** The same for chunks announced by their lengths in hexadecimal, as clients write
      them: the file holds them joined. */
  lemma {:induction false} AnnouncedEndToEnd(r: Request, pieces: seq<string>, start: string, fields: seq<string>,
                                             datas: seq<string>, large: bool, rest: string, ios: seq<Io>)
    requires Idle(r) && Cut(pieces) && AcceptableHead(r.head, start, fields) && HeadOf(r.head, start, fields).chunked
    requires forall i :: 0 <= i < |datas| ==> datas[i] != ""
    requires Concat(pieces) == Message(start, fields, Encode(Announced(datas, large), "0") + rest)
    requires |r.held + Concat(pieces)| <= INT_MAX
    ensures var w := UploadRun(Feed(r, pieces), ios);
            && w.out <= Concat(datas) && (w.req.state == UploadDone ==> w.out == Concat(datas) && w.req.Unread() == rest)
  {
    hide HeadOf, AcceptableHead, Message, Feed, Cut, Encode, UploadRun, WellFormed, Announced;
    AnnouncedIsWellFormed(datas, large);
    ChunkedEndToEnd(r, pieces, start, fields, Announced(datas, large), "0", rest, ios);
  }

  /** The main result for bodies of a declared length: exactly that many bytes. */
  lemma {:induction false} MeasuredEndToEnd(r: Request, pieces: seq<string>, start: string, fields: seq<string>,
                                            body: string, rest: string, ios: seq<Io>)
    requires Idle(r) && Cut(pieces) && AcceptableHead(r.head, start, fields)
    requires !HeadOf(r.head, start, fields).chunked && HeadOf(r.head, start, fields).contentLength == |body|
    requires Concat(pieces) == Message(start, fields, body + rest)
    requires |r.held + Concat(pieces)| <= INT_MAX
    ensures var w := UploadRun(Feed(r, pieces), ios);
            && w.out <= body && w.req.total == |w.out|
            && (w.req.state == UploadDone ==> w.out == body && w.req.Unread() == rest)
            && (w.req.state == UploadInit || w.req.state == UploadDone || w.req.state == ConnectionClosed)
            && (|ios| > |body| && (forall i :: 0 <= i < |ios| ==> ios[i].Moved? && ios[i].n > 0)
                ==> w.req.state == UploadDone)
  {
    MeasuredArrives(r, pieces, start, fields, body, rest);
    MeasuredRoundTrip(Feed(r, pieces), ios, body, rest);
    if |ios| > |body| && (forall i :: 0 <= i < |ios| ==> ios[i].Moved? && ios[i].n > 0) {
      MeasuredCompletes(Feed(r, pieces), ios, body, rest);
    }
  }

  // ----------------------------------------------------- parts of a request

  /** A request that is received only in part is parsed the same however it is cut. */
  lemma {:induction false} PartOfClean(r: Request, part: string, message: string)
    requires Idle(r) && r.Valid() && part <= message && |r.held + message| <= INT_MAX
    requires Clean(Holding(r, message))
    ensures Clean(Holding(r, part)) && AllCutsAgree(r, part) && Settled(r.head, part)
  {
    hide Clean, Of, InStart, Settled, Feed;
    var more := message[|part|..];
    assert part + more == message;
    HeldGrows(r, part, more);
    PartIsClean(Holding(r, part), more);
    OddIsTrouble(Holding(r, part));
    forall ps, qs | Cut(ps) && Cut(qs) && Concat(ps) == part && Concat(qs) == part
      ensures Feed(r, ps) == Feed(r, qs)
    {
      CutsAgree(r, ps, qs);
    }
    CutsAgreeExactly(r, part);
  }

  lemma {:induction false} PartsOfChunked(r: Request, part: string, start: string, fields: seq<string>,
                                          chunks: seq<Chunk>, last: string, rest: string)
    requires Idle(r) && r.Valid() && AcceptableHead(r.head, start, fields)
    requires HeadOf(r.head, start, fields).chunked && WellFormed(chunks, last)
    requires part <= Message(start, fields, Encode(chunks, last) + rest)
    requires |r.held + Message(start, fields, Encode(chunks, last) + rest)| <= INT_MAX
    ensures Clean(Holding(r, part)) && AllCutsAgree(r, part) && Settled(r.head, part)
  {
    hide ScanBody, AcceptableHead, HeadOf, Message, Encode, WellFormed, AllCutsAgree, Settled;
    var h, body := HeadOf(r.head, start, fields), Encode(chunks, last) + rest;
    var message := Message(start, fields, body);
    MessageEndsInBody(r.held, start, fields, body);
    BodyIsFound(h, chunks, last, rest);
    HeadIsRead(r.head, start, fields, body, -1);
    assert Holding(r, message).Unread() == message;
    PartOfClean(r, part, message);
  }

  lemma {:induction false} PartsOfMeasured(r: Request, part: string, start: string, fields: seq<string>,
                                           body: string, rest: string)
    requires Idle(r) && r.Valid() && AcceptableHead(r.head, start, fields)
    requires !HeadOf(r.head, start, fields).chunked && HeadOf(r.head, start, fields).contentLength == |body|
    requires part <= Message(start, fields, body + rest)
    requires |r.held + Message(start, fields, body + rest)| <= INT_MAX
    ensures Clean(Holding(r, part)) && AllCutsAgree(r, part) && Settled(r.head, part)
  {
    hide ScanBody, AcceptableHead, HeadOf, Message, AllCutsAgree, Settled;
    var h := HeadOf(r.head, start, fields);
    var message := Message(start, fields, body + rest);
    MessageEndsInBody(r.held, start, fields, body + rest);
    LengthIsMet(h, body, rest);
    HeadIsRead(r.head, start, fields, body + rest, -1);
    assert Holding(r, message).Unread() == message;
    PartOfClean(r, part, message);
  }
}
