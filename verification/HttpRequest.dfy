/** The request object, as the server updates it in place. */
module HttpRequest {
  import opened Text
  import opened Storage
  import opened RequestModel

  class HttpRequest {
    var parsingState: ParsingState
    const storage: Storage
    var head: Head  // the fields set from the start line and the header lines
    var chunkSize: int
    var uploadedSize: int
    var uploadedTotalSize: int
    var bodyFirst: nat

    /** The request as a value. */
    ghost function View(): Request
      reads this, storage
      requires storage.Valid()
    {
      Request(parsingState, storage.state, storage.Held(), storage.readPos, head,
              chunkSize, uploadedSize, uploadedTotalSize, bodyFirst)
    }

    ghost predicate Valid()
      reads this, storage
    {
      storage.Valid() && View().Valid()
    }

    constructor ()
      ensures Valid() && fresh(storage) && View() == FRESH_REQUEST
    {
      storage := new Storage();
      parsingState, head := ParsingInit, EMPTY_HEAD;
      chunkSize, uploadedSize, uploadedTotalSize, bodyFirst := -1, 0, 0, 0;
    }

    method Initialize()
      requires Valid()
      modifies this, storage
      ensures Valid() && View() == Initialized(old(View()))
    {
      parsingState := ParsingInit;
      storage.Clear();
      chunkSize := -1;
      uploadedSize := 0;
      uploadedTotalSize := 0;
      head := head.(headerSize := 0, bodyExisted := false, chunked := false, keepAlive := true, secret := 0,
                    verb := NotImplemented, uri := "", contentLength := 0, contentType := "",
                    hostName := "", hostPort := HTTP_DEFAULT_PORT);
    }

    method ParseStartLine(line: string)
      modifies this`parsingState, this`head
      ensures parsingState == if line == "" then old(parsingState)
                              else if WellFormedStart(line) then ParsingHeader else BadRequest
      ensures head == if WellFormedStart(line) then StartLine(old(head), line) else old(head)
    {
      if line == "" {
        return;
      }
      if line[|line| - 1] != CR || Count(line, ' ') != 2 {
        parsingState := BadRequest;
        return;
      }
      head := head.(headerSize := head.headerSize + |line| + 1);
      var word, rest := Before(line, ' '), Beyond(line, ' ');
      if word == "GET" {
        head := head.(verb := GET);
      } else if word == "HEAD" {
        head := head.(verb := HEAD);
      } else if word == "POST" {
        head := head.(verb := POST);
      } else if word == "PUT" {
        head := head.(verb := PUT);
      } else if word == "DELETE" {
        head := head.(verb := DELETE);
      } else {
        head := head.(verb := NotImplemented);
      }
      head, rest := head.(uri := Before(rest, ' ')), Beyond(rest, ' ');
      head := head.(httpVersion := Before(rest, CR));
      parsingState := ParsingHeader;
    }

    method SetHost(value: string)
      modifies this`head
      ensures head == With(old(head), HostSetting(value))
    {
      var delim := IndexOf(value, ':');
      if delim == |value| {
        head := head.(hostPort := HTTP_DEFAULT_PORT);
        head := head.(hostName := value);
      } else {
        head := head.(hostPort := Atoi(value[delim + 1..]));
        head := head.(hostName := value[..delim]);
      }
    }

    /** False when the fields are over: no line, the blank line, or a refused one. */
    method ParseHeaderField(line: string) returns (more: bool)
      modifies this`parsingState, this`head
      ensures more == (line != "" && line != [CR] && WellFormedField(old(head), line))
      ensures head == if more then Field(old(head), line) else old(head)
      ensures parsingState == if more || line == "" then old(parsingState)
                              else if line != [CR] then BadRequest
                              else if head.bodyExisted then ParsingBody else ParsingDone
    {
      hide MessageSetting, With, Before, Beyond;
      if line == "" {
        return false;
      }
      if line == [CR] {
        parsingState := if head.bodyExisted then ParsingBody else ParsingDone;
        return false;
      }
      if line[|line| - 1] != CR || |line| + 1 + head.headerSize > HTTP_MAX_HEADER_SIZE {
        parsingState := BadRequest;
        return false;
      }
      head := head.(headerSize := head.headerSize + |line| + 1);
      SetMessageField(Before(line, ' '), Beyond(line, ' '));
      return true;
    }

    method SetMessageField(word: string, rest: string)
      modifies this`head
      ensures head == With(old(head), MessageSetting(word, rest, old(head.contentLength), old(head.secret)))
    {
      if word == "Content-Type:" {
        head := head.(contentType := Before(rest, CR));
      } else if word == "Content-Length:" {
        head := head.(contentLength := StreamInt(rest, head.contentLength));
        head := head.(bodyExisted := true);
      } else if word == "Host:" {
        SetHost(Before(rest, CR));
      } else {
        SetConnectionField(word, rest);
      }
    }

    method SetConnectionField(word: string, rest: string)
      modifies this`head
      ensures head == With(old(head), ConnectionSetting(word, rest, old(head.secret)))
    {
      if word == "Connection:" {
        if Before(rest, CR) == "keep-alive" {
          head := head.(keepAlive := true);
        } else {
          head := head.(keepAlive := false);
        }
      } else if word == "Transfer-Encoding:" {
        if Before(rest, CR) == "chunked" {
          head := head.(chunked := true);
          head := head.(bodyExisted := true);
        }
      } else if word == "X-Secret-Header-For-Test:" {
        head := head.(secret := StreamInt(rest, head.secret));
      } else if word == "Cookie:" {
        head := head.(cookies := Before(rest, CR));
      }
    }

    method ParseChunkSize(line: string) returns (size: int)
      modifies this`parsingState
      ensures size == if line == "" then -1 else ChunkSize(line)
      ensures parsingState == if line != "" && size == -1 then BadRequest else old(parsingState)
    {
      if line == "" {
        return -1;
      }
      var end := DigitRun(line, 16, 0);
      if end == |line| || line[end] != CR {
        parsingState := BadRequest;
        return -1;
      }
      size := HexValue(line, end);
      if size > LONG_MAX {
        size := LONG_MAX;
      }
    }

    /** Jumps over the data and its CRLF if more than those are there; `moveReadPos`
        takes the sum as an `int`, which the guard makes exact. */
    method SkipChunk(ghost bad: bool) returns (skipped: bool)
      requires storage.Valid() && chunkSize >= -1 && chunkSize != 0
      modifies this`chunkSize, storage`readPos
      ensures storage.Valid() && (skipped ==> chunkSize == -1 && |storage.Unread()| < |old(storage.Unread())|)
      ensures !skipped ==> chunkSize == old(chunkSize) && storage.Unread() == old(storage.Unread())
      ensures WalkData(old(storage.Unread()), old(chunkSize), bad)
           == if skipped then Walk(storage.Unread(), -1, bad)
              else Walked(false, old(chunkSize), old(storage.Unread()), bad, false)
    {
      hide Walk, Int32;
      ghost var u := storage.Unread();
      var remains := storage.Remains();
      skipped := remains > chunkSize + 2;
      if skipped {
        storage.MoveReadPos(Int32(chunkSize + 2));
        assert storage.Unread() == u[Int32(chunkSize + 2)..];
        chunkSize := -1;
      }
    }

    /** After the last chunk any line will do, as long as it is not empty. */
    method TakeLastLine() returns (found: bool)
      requires storage.Valid() && chunkSize == 0
      modifies this`chunkSize, storage`readPos
      ensures storage.Valid() && storage.Unread() == AfterLine(old(storage.Unread()))
      ensures found == (LineOf(old(storage.Unread())) != "") && chunkSize == if found then -1 else 0
    {
      var line := storage.GetLine();
      if line == "" {
        return false;
      }
      chunkSize := -1;
      return true;
    }

    /** Skips from chunk to chunk, and can be called again when more has arrived. */
    method ParseChunk() returns (found: bool)
      requires storage.Valid() && chunkSize >= -1 && parsingState == ParsingBody
      modifies this`parsingState, this`chunkSize, storage`readPos
      ensures storage.Valid()
      ensures var w := Walk(old(storage.Unread()), old(chunkSize), false);
              && found == w.found && chunkSize == w.chunkSize && storage.Unread() == w.left
              && parsingState == (if w.bad then BadRequest else ParsingBody)
    {
      ghost var w := Walk(storage.Unread(), chunkSize, false);
      while true
        invariant storage.Valid() && chunkSize >= -1
        invariant parsingState == ParsingBody || parsingState == BadRequest
        invariant w == Walk(storage.Unread(), chunkSize, parsingState == BadRequest)
        decreases |storage.Unread()|
      {
        ghost var u := storage.Unread();
        if chunkSize == -1 {
          var line := storage.GetLine();
          if line == "" {
            return false;
          }
          chunkSize := ParseChunkSize(line);
        }
        assert w == WalkData(storage.Unread(), chunkSize, parsingState == BadRequest);
        if chunkSize == 0 {
          found := TakeLastLine();
          return;
        }
        var skipped := SkipChunk(parsingState == BadRequest);
        if !skipped {
          break;
        }
      }
      return false;
    }

    method ParseBodyPhase()
      requires Valid() && parsingState == ParsingBody
      modifies this`parsingState, this`chunkSize, storage`readPos
      ensures Valid()
      ensures View() == Apply(old(View()), ScanBody(old(head), old(storage.Unread()), old(chunkSize)))
    {
      if head.chunked {
        var found := ParseChunk();
        if found {
          storage.SetReadPos(bodyFirst);
          parsingState := UploadChunkInit;
        }
      } else {
        var remains := storage.Remains();
        if remains >= head.contentLength {
          chunkSize := head.contentLength;
          parsingState := UploadInit;
        }
      }
    }

    /** Takes header lines until one ends the fields; `line` is that one. */
    method ParseFields() returns (line: string)
      requires storage.Valid() && parsingState == ParsingHeader
      modifies this`parsingState, this`head, storage`readPos
      ensures storage.Valid()
      ensures var s := Fields(old(head), old(storage.Unread()));
              && head == s.head && storage.Unread() == s.left
              && (line == "" <==> s.end == NoLine || s.end == BareLine)
              && parsingState == (if line == "" then ParsingHeader else if s.end == Malformed then BadRequest
                                  else if head.bodyExisted then ParsingBody else ParsingDone)
    {
      ghost var s := Fields(head, storage.Unread());
      line := storage.GetLine();
      var more := ParseHeaderField(line);
      while more
        invariant storage.Valid()
        invariant more ==> s == Fields(head, storage.Unread()) && parsingState == ParsingHeader
        invariant !more ==> head == s.head && storage.Unread() == s.left
        invariant !more ==> (line == "" <==> s.end == NoLine || s.end == BareLine)
        invariant !more ==> parsingState == (if line == "" then ParsingHeader else if s.end == Malformed then BadRequest
                                             else if head.bodyExisted then ParsingBody else ParsingDone)
        decreases |storage.Unread()|, more
      {
        line := storage.GetLine();
        more := ParseHeaderField(line);
      }
    }

    method ParseHeaderPhase()
      requires Valid() && parsingState == ParsingHeader
      modifies this, storage`readPos
      ensures Valid()
      ensures View() == Apply(old(View()), ScanHead(old(head), old(storage.Unread()), old(chunkSize)))
    {
      hide Fields, ScanBody;
      var line := ParseFields();
      if line == "" || IsParsingEnd(parsingState) {
        return;
      }
      bodyFirst := storage.readPos;
      parsingState := ParsingBody;
      ParseBodyPhase();
    }

    method ParseStartPhase()
      requires Valid() && parsingState == ParsingInit
      modifies this, storage`readPos
      ensures Valid()
      ensures View() == Apply(old(View()), ScanStart(old(head), old(storage.Unread()), old(chunkSize)))
    {
      hide ScanHead, StartLine;
      var line := storage.GetLine();
      ParseStartLine(line);
      if line == "" || IsParsingEnd(parsingState) {
        return;
      }
      parsingState := ParsingHeader;
      ParseHeaderPhase();
    }

    /** One readiness of the socket: a piece is stored, and parsed if it was short. */
    method ParseRequest(piece: Recv, late: bool)
      requires Valid() && Receivable(piece)
      modifies this, storage
      ensures Valid()
      ensures View() == ReceiveTimed(old(View()), piece, late)
    {
      storage.SockToMem(piece);
      if storage.state != ReceiveDone {
        return;
      }
      if parsingState == ParsingInit {
        ParseStartPhase();
      } else if parsingState == ParsingHeader {
        ParseHeaderPhase();
      } else if parsingState == ParsingBody {
        ParseBodyPhase();
      }
      CheckTimeOut(late);
    }

    /** `late` stands for the clock. */
    method CheckTimeOut(late: bool)
      requires storage.Valid()
      modifies this`parsingState
      ensures View() == Timed(old(View()), late)
    {
      if late {
        parsingState := TimedOut;
      }
    }

    /** `memToFile` and the bookkeeping after it. */
    method MoveToFile(io: Io) returns (out: string)
      requires storage.Valid()
      modifies this, storage`readPos, storage`state
      ensures storage.Valid()
      ensures Uploaded(View(), out) == MoveBody(old(View()), io)
    {
      var moved;
      moved, out := storage.MemToFile(SizeT(chunkSize - uploadedSize), io);
      if moved == -1 {
        parsingState := ConnectionClosed;
        return;
      }
      uploadedSize := uploadedSize + moved;
      uploadedTotalSize := uploadedTotalSize + moved;
      if head.chunked && chunkSize == uploadedSize {
        parsingState := UploadReadLine;
      } else if !head.chunked && chunkSize == uploadedSize {
        parsingState := UploadDone;
      } else {
        parsingState := UploadInit;
      }
    }

    method TakeSizeLine(line: string, io: Io) returns (out: string)
      requires storage.Valid()
      modifies this, storage`readPos, storage`state
      ensures storage.Valid()
      ensures Uploaded(View(), out) == TakeSize(old(View()), line, io)
    {
      out := "";
      chunkSize := ParseChunkSize(line);
      if line == "" || IsParsingEnd(parsingState) {
        return;
      }
      if chunkSize == 0 {
        parsingState := UploadReadLine;
        return;
      }
      uploadedSize := 0;
      parsingState := UploadInit;
      out := MoveToFile(io);
    }

    method UploadLine(line: string, io: Io) returns (out: string)
      requires storage.Valid()
      modifies this, storage`readPos, storage`state
      ensures storage.Valid()
      ensures Uploaded(View(), out) == TakeLine(old(View()), line, io)
    {
      out := "";
      if storage.state == Closed {
        parsingState := ConnectionClosed;
        return;
      }
      if line == [CR] && chunkSize == 0 {
        parsingState := UploadDone;
        return;
      }
      if line == [CR] {
        return;
      }
      parsingState := UploadReadLine;
      out := TakeSizeLine(line, io);
    }

    /** One readiness of the target file; `out` is what its `write` accepted. */
    method UploadRequest(io: Io, late: bool) returns (out: string)
      requires storage.Valid()
      modifies this, storage`readPos, storage`state
      ensures storage.Valid()
      ensures var w := Upload(old(View()), io);
              View() == Timed(w.req, late) && out == w.out
    {
      out := "";
      if parsingState == UploadChunkInit || parsingState == UploadReadLine {
        ghost var before := View();
        var line := storage.GetLine();
        assert View() == before.Leaving(AfterLine(before.Unread()));
        out := UploadLine(line, io);
      } else if parsingState == UploadChunkSize {
        out := TakeSizeLine("", io);
      } else if parsingState == UploadInit {
        out := MoveToFile(io);
      }
      CheckTimeOut(late);
    }
  }
}
