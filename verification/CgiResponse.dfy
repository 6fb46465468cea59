/** The answer of a CGI program, read back from the file it wrote: its header lines
    are scanned through the store, and the file is then sought back to the body. */
module CgiResponse {
  import opened Text
  import opened Storage
  import opened ResponseModel

  datatype CgiState = CgiError | CgiRunning | CgiParsingHeader | CgiParsingDone

  /** What `waitpid` says of the program. */
  datatype Wait = StillRunning | Exited | WaitFailed

  datatype CgiHead = CgiHead(statusCode: int, statusMessage: string, contentType: string, cookies: string)

  const CGI_START := CgiHead(404, "", "", "")

  function WordEnd(s: string, from: nat): (i: nat)
    requires from <= |s|
    ensures from <= i <= |s|
    ensures forall k :: from <= k < i ==> !IsSpace(s[k])
    ensures i < |s| ==> IsSpace(s[i])
    decreases |s| - from
  {
    if from < |s| && !IsSpace(s[from]) then WordEnd(s, from + 1) else from
  }

  /** `ss >> code; ss >> message;` from position `at`: a code that is no number, or
      out of range, stops the stream before the message. */
  function StatusLine(h: CgiHead, line: string, at: nat): CgiHead
    requires at <= |line|
  {
    var from := SkipSpace(line, at);
    if from == |line| then h
    else
      var digits := if line[from] == '-' || line[from] == '+' then from + 1 else from;
      var end := DigitRun(line, 10, digits);
      var n := SignedAt(line, from);
      if end == digits then h.(statusCode := 0)
      else if n > INT_MAX then h.(statusCode := INT_MAX)
      else if n < -INT_MAX - 1 then h.(statusCode := -INT_MAX - 1)
      else
        var word := SkipSpace(line, end);
        h.(statusCode := n,
           statusMessage := if word == |line| then h.statusMessage else line[word..WordEnd(line, word)])
  }

  function CgiField(h: CgiHead, line: string): CgiHead {
    var from := SkipSpace(line, 0);
    var end := WordEnd(line, from);
    var word := line[from..end];
    if word == "Status:" then StatusLine(h, line, end)
    else if word == "Content-Type:" && end < |line| then h.(contentType := Before(line[end..], CR))
    else if word == "Set-Cookie:" && end < |line| then h.(cookies := Before(line[end..], CR))
    else h
  }

  // ------------------------------------------------- header lines read back

  lemma {:induction false} WordIsFound(s: string, at: nat, word: string)
    requires at + |word| < |s| && s[at..at + |word|] == word && IsSpace(s[at + |word|])
    requires word != "" && forall k :: 0 <= k < |word| ==> !IsSpace(word[k])
    ensures SkipSpace(s, at) == at && WordEnd(s, at) == at + |word|
  {
    assert forall k :: at <= k < at + |word| ==> s[k] == word[k - at];
  }

  lemma {:induction false} OneSpace(s: string, at: nat)
    requires at + 1 < |s| && IsSpace(s[at]) && !IsSpace(s[at + 1])
    ensures SkipSpace(s, at) == at + 1
  {
    assert SkipSpace(s, at + 1) == at + 1;
  }

  lemma {:induction false} NumberIsFound(s: string, at: nat, n: nat)
    requires var digits := Decimal(n); at + |digits| < |s| && s[at..at + |digits|] == digits && Digit(s[at + |digits|]) == 16
    ensures var digits := Decimal(n); DigitRun(s, 10, at) == at + |digits| && SignedAt(s, at) == n
    ensures !IsSpace(s[at]) && s[at] != '-' && s[at] != '+'
  {
    var digits := Decimal(n);
    assert forall k :: at <= k < at + |digits| ==> s[k] == digits[k - at] && Digit(digits[k - at]) < 10;
    assert DigitRun(s, 10, at) == at + |digits|;
    assert s[at..at + |digits|] == digits[..|digits|];
    DecimalValueOfPart(s, at, digits, |digits|);
  }

  lemma Middle(a: string, b: string, c: string)
    ensures (a + b + c)[..|a|] == a && (a + b + c)[|a|..|a| + |b|] == b && (a + b + c)[|a| + |b|..] == c
  {
  }

  /** The code and the message of a status line, each in its place. */
  predicate StatusStands(line: string, digits: string, word: string) {
    var end := 8 + |digits|;
    && |line| > end + 1 + |word| && line[..8] == "Status: " && line[8..end] == digits
    && line[end] == ' ' && line[end + 1..end + 1 + |word|] == word && IsSpace(line[end + 1 + |word|])
  }

  /** A status is read back as its code and the first word of its message. */
  lemma {:induction false} StatusIsReadBack(h: CgiHead, n: nat, word: string, more: string)
    requires n <= INT_MAX && word != "" && forall k :: 0 <= k < |word| ==> !IsSpace(word[k])
    requires more == "" || IsSpace(more[0])
    ensures CgiField(h, "Status: " + Decimal(n) + (" " + word + (more + [CR])))
         == h.(statusCode := n, statusMessage := word)
  {
    hide CgiField, Decimal, StatusStands;
    StatusParts(Decimal(n), word, more + [CR]);
    StatusIsParsed(h, "Status: " + Decimal(n) + (" " + word + (more + [CR])), n, word);
  }

  lemma {:induction false} StatusParts(digits: string, word: string, tail: string)
    requires tail != "" && IsSpace(tail[0])
    ensures StatusStands("Status: " + digits + (" " + word + tail), digits, word)
  {
    var rest := " " + word + tail;
    var line, end := "Status: " + digits + rest, 8 + |digits|;
    Middle("Status: ", digits, rest);
    Middle(" ", word, tail);
    RestStands(line, end, rest, word, tail);
  }

  lemma {:induction false} RestStands(line: string, end: nat, rest: string, word: string, tail: string)
    requires end <= |line| && line[end..] == rest && rest == " " + word + tail && tail != ""
    ensures |line| > end + 1 + |word| && line[end] == ' '
    ensures line[end + 1..end + 1 + |word|] == word && line[end + 1 + |word|] == tail[0]
  {
    assert forall k :: 0 <= k < |word| ==> line[end + 1 + k] == rest[1 + k] == word[k];
    assert line[end + 1 + |word|] == rest[1 + |word|];
  }

  lemma {:induction false} StatusIsParsed(h: CgiHead, line: string, n: nat, word: string)
    requires n <= INT_MAX && word != "" && forall k :: 0 <= k < |word| ==> !IsSpace(word[k])
    requires StatusStands(line, Decimal(n), word)
    ensures CgiField(h, line) == h.(statusCode := n, statusMessage := word)
  {
    hide SkipSpace, WordEnd, StatusLine, Decimal;
    var first := line[..8];
    assert line[7] == first[7] == ' ' && line[0..7] == first[..7] == "Status:";
    WordIsFound(line, 0, "Status:");
    StatusIsTaken(h, line, n, word);
  }

  lemma {:induction false} StatusIsTaken(h: CgiHead, line: string, n: nat, word: string)
    requires n <= INT_MAX && word != "" && forall k :: 0 <= k < |word| ==> !IsSpace(word[k])
    requires StatusStands(line, Decimal(n), word)
    ensures StatusLine(h, line, 7) == h.(statusCode := n, statusMessage := word)
  {
    hide SkipSpace, WordEnd, DigitRun, SignedAt, Decimal;
    var end, first := 8 + |Decimal(n)|, line[..8];
    assert line[7] == first[7] == ' ';
    NumberIsFound(line, 8, n);
    OneSpace(line, 7);
    assert line[end + 1] == word[0];
    OneSpace(line, end);
    WordIsFound(line, end + 1, word);
  }

  /** A type and a cookie are kept with the space before them; any other line says nothing. */
  lemma {:induction false} ValueIsReadBack(h: CgiHead, name: string, value: string)
    requires name != "" && forall k :: 0 <= k < |name| ==> !IsSpace(name[k])
    requires CR !in value && (value == "" || IsSpace(value[0]))
    ensures var after := CgiField(h, name + value + [CR]);
            && (name == "Content-Type:" ==> after == h.(contentType := value))
            && (name == "Set-Cookie:" ==> after == h.(cookies := value))
            && (name != "Content-Type:" && name != "Set-Cookie:" && name != "Status:" ==> after == h)
  {
    var line := name + value + [CR];
    assert line[0..|name|] == name && line[|name|..] == value + [CR];
    WordIsFound(line, 0, name);
    assert value + [CR] == value + [CR] + [];
    CutAt(value, CR, []);
    if name == "Content-Type:" {
      assert name[0] == 'C' && "Status:"[0] == 'S' && "Set-Cookie:"[0] == 'S';
    } else if name == "Set-Cookie:" {
      assert name[1] == 'e' && "Status:"[1] == 't' && "Content-Type:"[0] == 'C';
    }
  }

  /** The header lines at the front of `u`, up to the first empty or blank line; `out`
      when there is none, and the lines have run out. */
  datatype CgiScan = CgiScan(head: CgiHead, last: string, left: string, out: bool)

  function CgiFields(h: CgiHead, u: string): (s: CgiScan)
    decreases |u|
  {
    var line := LineOf(u);
    if line == "" || line == [CR] then CgiScan(h, line, AfterLine(u), !HasLine(u))
    else CgiFields(CgiField(h, line), AfterLine(u))
  }

  /** Once the header is over, what follows it does not change it. */
  lemma {:induction false} FieldsAreOver(h: CgiHead, u: string, more: string)
    requires CgiFields(h, u).last == [CR]
    ensures CgiFields(h, u + more) == CgiFields(h, u).(left := CgiFields(h, u).left + more)
    decreases |u|
  {
    hide CgiField;
    LineGrows(u, more);
    if LineOf(u) != [CR] {
      FieldsAreOver(CgiField(h, LineOf(u)), AfterLine(u), more);
    }
  }

  /** `taken` are lines that make `h` of `was`. */
  ghost predicate Took(was: CgiHead, taken: string, h: CgiHead) {
    forall more: string :: CgiFields(was, taken + more) == CgiFields(h, more)
  }

  lemma {:induction false} TookNothing(h: CgiHead)
    ensures Took(h, "", h)
  {
    forall more: string ensures CgiFields(h, "" + more) == CgiFields(h, more) {
      assert "" + more == more;
    }
  }

  lemma {:induction false} TookLine(was: CgiHead, taken: string, h: CgiHead, line: string)
    requires Took(was, taken, h) && LF !in line && line != "" && line != [CR]
    ensures Took(was, taken + (line + [LF]), CgiField(h, line))
  {
    hide CgiField, CgiFields, LineOf, AfterLine;
    forall more: string ensures CgiFields(was, taken + (line + [LF]) + more) == CgiFields(CgiField(h, line), more) {
      assert taken + (line + [LF]) + more == taken + (line + [LF] + more);
      LineAt(line, more);
      FieldsStep(h, line + [LF] + more);
    }
  }

  lemma {:induction false} FieldsStep(h: CgiHead, u: string)
    ensures CgiFields(h, u) == if LineOf(u) == "" || LineOf(u) == [CR] then CgiScan(h, LineOf(u), AfterLine(u), !HasLine(u))
                               else CgiFields(CgiField(h, LineOf(u)), AfterLine(u))
  {
  }

  lemma {:induction false} HeldIsFront(held: string, now: string, from: nat, pos: nat)
    requires held <= now && from <= pos <= |held|
    ensures now[from..] == held[from..pos] + now[pos..]
    ensures now == held ==> now[pos..] == held[pos..]
    ensures held == "" ==> now[pos..] == now && held[pos..] == ""
    ensures held[pos..] <= now[pos..]
  {
  }

  lemma {:induction false} TakenGrows(taken: string, line: string, rest: string, now: string, from: nat, pos: nat)
    requires from <= pos <= |now| && now[from..] == taken + (line + [LF] + rest) && rest == now[pos..]
    ensures now[from..pos] == taken + (line + [LF])
  {
    assert now[from..] == now[from..pos] + now[pos..];
    assert now[from..] == (taken + (line + [LF])) + rest;
    assert |now[from..pos]| == |taken + (line + [LF])|;
    assert now[from..pos] == now[from..][..pos - from] == (taken + (line + [LF]));
  }

  lemma {:induction false} TookRest(was: CgiHead, taken: string, h: CgiHead, more: string)
    requires Took(was, taken, h)
    ensures CgiFields(was, taken + more) == CgiFields(h, more)
  {
    hide CgiFields;
  }

  /** Every header line at the front of `u` is shorter than a buffer. */
  predicate LinesFit(u: string)
    decreases |u|
  {
    HasLine(u) ==>
      |LineOf(u)| < READ_BUFFER_SIZE && (LineOf(u) == "" || LineOf(u) == [CR] || LinesFit(AfterLine(u)))
  }

  lemma {:induction false} FitsFrom(u: string)
    requires |LineOf(u)| < READ_BUFFER_SIZE && (LineOf(u) == "" || LineOf(u) == [CR] || LinesFit(AfterLine(u)))
    ensures LinesFit(u)
  {
  }

  lemma {:induction false} FitStep(u: string)
    requires LinesFit(u) && LineOf(u) != "" && LineOf(u) != [CR]
    ensures LinesFit(AfterLine(u))
  {
  }

  /** Reads that return all there is, up to a full buffer. */
  predicate Full(io: Io) {
    io.Moved? && io.n >= READ_BUFFER_SIZE
  }

  lemma {:induction false} SeenThatFar(unread: string, ahead: string, io: Io, k: nat)
    requires Full(io) && k < READ_BUFFER_SIZE && k < |unread + ahead|
    ensures var seen := unread + ReadNext(ahead, io);
            k < |seen| && seen[k] == (unread + ahead)[k]
  {
  }

  /** A full read ends short of a line that fits only if there is none. */
  lemma {:induction false} FullReadFindsLine(unread: string, ahead: string, io: Io)
    requires Full(io) && LinesFit(unread + ahead) && !HasLine(unread)
    requires !HasLine(unread + ReadNext(ahead, io))
    ensures !HasLine(unread + ahead)
  {
    hide LinesFit;
    var u, seen := unread + ahead, unread + ReadNext(ahead, io);
    if HasLine(u) {
      LineSplits(u);
      LineSplits(seen);
      FitsNow(u);
      SeenThatFar(unread, ahead, io, |LineOf(u)|);
    }
  }

  lemma {:induction false} OneReadFindsLine(held: string, pos: nat, ahead: string, io: Io)
    requires pos <= |held| && Full(io) && LinesFit(held[pos..] + ahead)
    requires var now := held + if HasLine(held[pos..]) then "" else ReadNext(ahead, io); !HasLine(now[pos..])
    ensures !HasLine(held[pos..] + ahead)
  {
    hide LinesFit, ReadNext, HasLine;
    assert (held + ReadNext(ahead, io))[pos..] == held[pos..] + ReadNext(ahead, io);
    assert (held + "")[pos..] == held[pos..];
    FullReadFindsLine(held[pos..], ahead, io);
  }

  /** The next whole number of buffers. */
  function Up(n: nat): (up: nat)
    ensures n <= up
  {
    (n + READ_BUFFER_SIZE - 1) / READ_BUFFER_SIZE * READ_BUFFER_SIZE
  }

  /** Of a file of `size` bytes, `held` have been read in full reads, and `taken` taken. */
  predicate ReadUpTo(held: nat, taken: nat, size: nat) {
    (held % READ_BUFFER_SIZE == 0 || held == size) && held <= Up(taken)
  }

  lemma {:induction false} UpGrows(n: nat, m: nat)
    requires n <= m
    ensures Up(n) <= Up(m)
    ensures n % READ_BUFFER_SIZE == 0 && n < m ==> n + READ_BUFFER_SIZE <= Up(m)
  {
  }

  lemma {:induction false} UpToOne(n: nat)
    requires 0 < n <= READ_BUFFER_SIZE
    ensures Up(n) == READ_BUFFER_SIZE
  {
  }

  lemma {:induction false} UpIsReached(held: nat, taken: nat, size: nat)
    requires ReadUpTo(held, taken, size) && taken <= held <= size
    ensures held == if Up(taken) < size then Up(taken) else size
  {
  }

  /** One more line, and one more page if that is what it takes. */
  lemma {:induction false} PagesAdd(held: string, pos: nat, ahead: string, io: Io)
    requires pos <= |held| && Full(io) && ReadUpTo(|held|, pos, |held + ahead|)
    requires var now := held + if HasLine(held[pos..]) then "" else ReadNext(ahead, io); HasLine(now[pos..])
    ensures var now := held + if HasLine(held[pos..]) then "" else ReadNext(ahead, io);
            ReadUpTo(|now|, pos + |LineOf(now[pos..])| + 1, |held + ahead|)
  {
    hide Up, HasLine, LineOf;
    var now := held + if HasLine(held[pos..]) then "" else ReadNext(ahead, io);
    var end := pos + |LineOf(now[pos..])| + 1;
    UpGrows(pos, end);
    LineSplits(held[pos..]);
    LineSplits(now[pos..]);
    if !HasLine(held[pos..]) && ahead != "" {
      assert now[end - 1] == LF;
      assert forall k :: pos <= k < |held| ==> held[k] == held[pos..][k - pos] != LF;
      assert |held| < end;
      UpGrows(|held|, end);
    }
  }

  lemma {:induction false} FitsNow(u: string)
    requires LinesFit(u) && HasLine(u)
    ensures |LineOf(u)| < READ_BUFFER_SIZE
  {
  }

  /** What a look at the answer comes to: its event waits on, goes to its server with
      what the program gave, or is removed for lack of an end of the header. */
  datatype Verdict = Early | Given | Lacking

  /** The header is looked at once the program has exited. */
  predicate Scans(state: CgiState, wait: Wait) {
    state == CgiParsingHeader || (state == CgiRunning && wait == Exited)
  }

  function VerdictOf(state: CgiState, wait: Wait, s: CgiScan): Verdict {
    if Scans(state, wait) then
      if s.out then Lacking else if s.last == [CR] && Complete(s.head) then Given else Early
    else if state == CgiError || wait == WaitFailed then Given
    else Early
  }

  predicate Complete(h: CgiHead) {
    h.statusMessage != "" && h.statusCode != 0 && h.contentType != ""
  }

  class CgiResponse {
    var parsingState: CgiState
    const storage: Storage
    var head: CgiHead
    var bodySize: int

    constructor ()
      ensures fresh(storage) && storage.Valid() && storage.Held() == "" && storage.readPos == 0 && storage.state == Receiving
      ensures parsingState == CgiRunning && bodySize == 0 && head == CGI_START
    {
      storage := new Storage();
      parsingState, bodySize, head := CgiRunning, 0, CGI_START;
    }

    /** The store holds just what has been read of the file. */
    ghost predicate Aligned(file: File)
      reads this, storage, file
    {
      && storage.Valid() && file.Valid() && |file.content| <= INT_MAX
      && file.offset == storage.writePos
      && storage.Held() + file.Ahead() == file.content
    }

    /** No more pages have been read than it took to see all that is taken. */
    ghost predicate Paged(file: File)
      reads this, storage, file
    {
      ReadUpTo(storage.writePos, storage.readPos, |file.content|)
    }

    /** What is still to be scanned: unread in the store, then ahead in the file. */
    ghost function Stream(file: File): string
      reads this, storage, file
      requires storage.Valid() && file.Valid()
    {
      storage.Unread() + file.Ahead()
    }

    /** False for the line that ends the header. */
    method ParseLine(line: string) returns (more: bool)
      modifies this`head
      ensures more == (line != "" && line != [CR])
      ensures head == if more then CgiField(old(head), line) else old(head)
    {
      if line == "" || line == [CR] {
        return false;
      }
      var from := SkipSpace(line, 0);
      var end := WordEnd(line, from);
      var word := line[from..end];
      if word == "Status:" {
        head := StatusLine(head, line, end);
      } else if word == "Content-Type:" {
        if end < |line| {
          head := head.(contentType := Before(line[end..], CR));
        }
      } else if word == "Set-Cookie:" {
        if end < |line| {
          head := head.(cookies := Before(line[end..], CR));
        }
      }
      return true;
    }

    /** One line of the stream, whatever a read returns, unless it does not fit in one. */
    method NextLine(file: File, io: Io) returns (line: string)
      requires Aligned(file)
      modifies storage, file`offset
      ensures Aligned(file)
      ensures storage.state == Closed && old(storage.state) != Closed ==> line == ""
      ensures |Stream(file)| + |line| <= |old(Stream(file))|
      ensures storage.Held() == old(storage.Held()) + if HasLine(old(storage.Unread())) then "" else ReadNext(old(file.Ahead()), io)
      ensures old(storage.readPos) <= storage.readPos
      ensures var seen := storage.Held()[old(storage.readPos)..];
              && line == LineOf(seen) && storage.Unread() == AfterLine(seen)
              && (storage.state == Closed <==> old(storage.state) == Closed || !HasLine(seen))
      ensures storage.state != Closed ==> line == LineOf(old(Stream(file))) && Stream(file) == AfterLine(old(Stream(file)))
      ensures Full(io) && LinesFit(old(Stream(file))) && old(storage.state) != Closed && storage.state == Closed
              ==> !HasLine(old(Stream(file)))
      ensures Full(io) && old(Paged(file)) && storage.state != Closed ==> Paged(file)
    {
      hide LinesFit, ReadNext, HasLine, LineOf, AfterLine, Up;
      ghost var held, pos, ahead := storage.Held(), storage.readPos, file.Ahead();
      line := storage.GetLineFile(file, io);
      ghost var u := storage.Held()[pos..];
      assert u + file.Ahead() == held[pos..] + ahead by {
        assert (storage.Held() + file.Ahead())[pos..] == u + file.Ahead();
        assert (held + ahead)[pos..] == held[pos..] + ahead;
      }
      LineSplits(u);
      LineSplits(held[pos..]);
      if Full(io) && ReadUpTo(|held|, pos, |file.content|) && HasLine(u) {
        PagesAdd(held, pos, ahead, io);
      }
      if HasLine(u) {
        LineGrows(u, file.Ahead());
      } else if Full(io) && LinesFit(held[pos..] + ahead) {
        OneReadFindsLine(held, pos, ahead, io);
      }
    }

    /** `isRecvError` goes before `isParsingEnd`. */
    function Judged(): Verdict
      reads this, storage
    {
      if storage.state == Closed then Lacking
      else if parsingState == CgiParsingDone || parsingState == CgiError then Given
      else Early
    }

    /** Scans the header and, once it is complete, seeks the file to just after it. */
    method ParseRequest(file: File, wait: Wait, taking: nat -> Io)
      requires Aligned(file) && storage.state != Closed
      requires parsingState == CgiRunning || parsingState == CgiParsingHeader || parsingState == CgiError
      modifies this`parsingState, this`head, this`bodySize, storage, file`offset
      ensures storage.Valid() && file.Valid()
      ensures parsingState != CgiParsingDone ==> Aligned(file)
      // No header, no seek, until the program has exited.
      ensures old(parsingState) == CgiError || (old(parsingState) == CgiRunning && wait != Exited)
              ==> head == old(head) && storage.Unread() == old(storage.Unread()) && parsingState != CgiParsingDone
      // A complete header: the offset is where the header ends, and the rest is the body.
      ensures parsingState == CgiParsingDone ==>
                var s := CgiFields(old(head), old(Stream(file)));
                && head == s.head && Complete(head) && s.last == [CR]
                && file.offset == storage.readPos && file.Ahead() == s.left && bodySize == |s.left|
                && storage.Unread() <= s.left
      ensures old(storage.readPos) <= storage.readPos
      // Whether or not that is all there is to come, the lines read so far are parsed.
      ensures Scans(old(parsingState), wait) ==>
                var s := CgiFields(old(head), storage.Held()[old(storage.readPos)..]);
                && head == s.head && storage.Unread() == s.left
                && (parsingState == CgiParsingDone <==> s.last == [CR] && Complete(head))
                && (storage.state == Closed <==> s.out)
      ensures Judged() == VerdictOf(old(parsingState), wait, CgiFields(old(head), storage.Held()[old(storage.readPos)..]))
      // It is that of all the program wrote, unless it is given up; with full reads, even then.
      ensures storage.state != Closed || ((forall i: nat :: Full(taking(i))) && LinesFit(old(Stream(file)))) ==>
                Judged() == VerdictOf(old(parsingState), wait, CgiFields(old(head), old(Stream(file))))
      // A look that decides nothing leaves off after an empty or blank line.
      ensures Scans(old(parsingState), wait) && Judged() == Early ==>
                var s := CgiFields(old(head), old(Stream(file)));
                head == s.head && Stream(file) == s.left && parsingState == CgiParsingHeader
      // With full reads, no more is read than it takes to see the end of the header.
      ensures (forall i: nat :: Full(taking(i))) && old(Paged(file)) && storage.state != Closed ==>
                ReadUpTo(storage.writePos, storage.readPos, |file.content|)
    {
      hide CgiFields, ReadNext, HasLine, LineOf, AfterLine, LinesFit, ReadUpTo;
      if parsingState == CgiRunning {
        if wait == Exited {
          parsingState := CgiParsingHeader;
        } else if wait == WaitFailed {
          parsingState := CgiError;
        }
      }
      if parsingState == CgiParsingHeader {
        var line := ScanHeader(file, taking);
        if line == "" || head.statusMessage == "" || head.statusCode == 0 || head.contentType == "" {
          return;
        }
        FinishHeader(file);
      }
    }

    method ScanHeader(file: File, taking: nat -> Io) returns (line: string)
      requires Aligned(file) && storage.state != Closed
      modifies this`head, storage, file`offset
      ensures Aligned(file)
      ensures line == "" || line == [CR]
      ensures storage.state == Closed ==> line == ""
      ensures storage.state != Closed ==> CgiFields(old(head), old(Stream(file))) == CgiScan(head, line, Stream(file), false)
      ensures (forall i: nat :: Full(taking(i))) && LinesFit(old(Stream(file))) && storage.state == Closed ==>
                CgiFields(old(head), old(Stream(file))).out
      ensures old(storage.readPos) <= storage.readPos
      ensures CgiFields(old(head), storage.Held()[old(storage.readPos)..])
           == CgiScan(head, line, storage.Unread(), storage.state == Closed)
      ensures (forall i: nat :: Full(taking(i))) && old(Paged(file)) && storage.state != Closed ==> Paged(file)
    {
      hide CgiFields, CgiField, Took, ReadNext, HasLine, LineOf, AfterLine, Stream, LinesFit, ReadUpTo;
      ghost var was, from, stream := head, storage.readPos, Stream(file);
      ghost var paged := (forall i: nat :: Full(taking(i))) && Paged(file);
      ghost var full := (forall i: nat :: Full(taking(i))) && LinesFit(stream);
      assert storage.Held()[from..from] == "";
      TookNothing(head);
      var i := 0;
      var more;
      line, more := TakeField(file, taking(i), was, from);
      while more
        invariant Aligned(file) && from <= storage.readPos
        invariant paged && storage.state != Closed ==> Paged(file)
        invariant full ==> if more then LinesFit(Stream(file)) else storage.state == Closed ==> CgiFields(was, stream).out
        invariant if more then storage.state != Closed && Took(was, storage.Held()[from..storage.readPos], head)
                  else CgiFields(was, storage.Held()[from..]) == CgiScan(head, line, storage.Unread(), storage.state == Closed)
        invariant more ==> CgiFields(was, stream) == CgiFields(head, Stream(file))
        invariant !more ==> (line == "" || line == [CR]) && (storage.state == Closed ==> line == "")
        invariant !more && storage.state != Closed ==> CgiFields(was, stream) == CgiScan(head, line, Stream(file), false)
        decreases |Stream(file)|, more
      {
        i := i + 1;
        line, more := TakeField(file, taking(i), was, from);
      }
    }

    /** Takes one line, and what it says into the head; `was` is what the head was before
        the lines from `from` on. */
    method TakeField(file: File, io: Io, ghost was: CgiHead, ghost from: nat) returns (line: string, more: bool)
      requires Aligned(file) && storage.state != Closed && from <= storage.readPos
      requires Took(was, storage.Held()[from..storage.readPos], head)
      modifies this`head, storage, file`offset
      ensures Aligned(file) && old(storage.readPos) <= storage.readPos
      ensures more == (line != "" && line != [CR]) && (storage.state == Closed ==> line == "")
      ensures |Stream(file)| <= |old(Stream(file))| && (more ==> |Stream(file)| < |old(Stream(file))|)
      ensures if more then Took(was, storage.Held()[from..storage.readPos], head)
              else CgiFields(was, storage.Held()[from..]) == CgiScan(head, line, storage.Unread(), storage.state == Closed)
      ensures storage.state != Closed ==>
                var s := CgiFields(old(head), old(Stream(file)));
                s == if more then CgiFields(head, Stream(file)) else CgiScan(head, line, Stream(file), false)
      ensures Full(io) && LinesFit(old(Stream(file))) ==>
                if more then LinesFit(Stream(file))
                else storage.state == Closed ==> CgiFields(old(head), old(Stream(file))).out
      ensures Full(io) && old(Paged(file)) && storage.state != Closed ==> Paged(file)
    {
      hide ReadNext, CgiField, CgiFields, Took, HasLine, LineOf, AfterLine, LinesFit, ReadUpTo;
      ghost var held, pos, stream, h := storage.Held(), storage.readPos, Stream(file), head;
      line := NextLine(file, io);
      ghost var now := storage.Held();
      ghost var seen := now[pos..];
      HeldIsFront(held, now, from, pos);
      LineSplits(held[pos..]);
      LineSplits(seen);
      FieldsStep(h, stream);
      FieldsStep(h, seen);
      more := ParseLine(line);
      if more {
        if LinesFit(stream) {
          FitStep(stream);
        }
        TookLine(was, held[from..pos], h, line);
        TakenGrows(held[from..pos], line, storage.Unread(), now, from, storage.readPos);
      } else {
        TookRest(was, held[from..pos], h, seen);
      }
    }

    method FinishHeader(file: File)
      requires Aligned(file)
      modifies this`parsingState, this`bodySize, file`offset
      ensures file.Valid() && parsingState == CgiParsingDone
      ensures file.offset == storage.readPos && file.Ahead() == old(Stream(file)) && bodySize == |file.Ahead()|
    {
      var remains := storage.Remains();
      var curr := file.SeekCurrent(remains * -1);
      var fileSize := file.SeekEnd();
      file.SeekSet(curr);
      bodySize := fileSize - curr;
      parsingState := CgiParsingDone;
      assert file.content[storage.readPos..] == storage.Unread() + old(file.Ahead());
    }
  }

  // ------------------------------------------------- what the client is sent

  /** The response built from a finished scan: the header, then what the scan had
      read ahead, then the body from the file, of which only `|body|` bytes in all
      follow the header. */
  function CgiReply(header: string, readAhead: string, body: string, status: int, fd: int): Response {
    NewResponse(TypeCgi, if |body| == 0 then SendingStorage else DownloadingInit, header, readAhead, status, |body|, fd)
  }

  /** Each byte of `body` from `k` on repeats the one `k` places before it. */
  predicate Repeats(body: string, k: nat) {
    forall i :: k <= i < |body| ==> body[i] == body[i - k]
  }

  lemma {:induction false} ReadAheadShows(readAhead: string, body: string)
    requires readAhead <= body
    ensures (readAhead + body)[..|body|] == body <==> Repeats(body, |readAhead|)
  {
    var sent := (readAhead + body)[..|body|];
    assert forall i :: 0 <= i < |readAhead| ==> sent[i] == body[i];
    assert forall i :: |readAhead| <= i < |body| ==> sent[i] == body[i - |readAhead|];
    if sent == body {
      forall i | |readAhead| <= i < |body| ensures body[i] == body[i - |readAhead|] {
        assert sent[i] == body[i];
      }
    }
  }

  /** The right number of bytes always follows the header. They are the body exactly
      when it repeats itself at the distance of what the scan had read ahead. */
  lemma {:induction false} CgiBodyDelivered(header: string, readAhead: string, body: string, status: int, fd: int, ios: seq<Io>)
    requires header != "" && readAhead <= body
    ensures var p := Run(Pump(CgiReply(header, readAhead, body, status, fd), body, ""), ios);
            p.resp.state == SendingDone ==>
              && |p.wire| == |header| + |body|
              && (p.wire == header + body <==> Repeats(body, |readAhead|))
  {
    hide Run, Repeats;
    var all := header + readAhead + body;
    var goal := |header| + |body|;
    PumpDelivers(CgiReply(header, readAhead, body, status, fd), header, readAhead, body, ios);
    ReadAheadShows(readAhead, body);
    var sent := (readAhead + body)[..|body|];
    assert all == header + (readAhead + body);
    assert all[..goal] == header + sent;
    if header + sent == header + body {
      assert sent == (header + sent)[|header|..] == (header + body)[|header|..] == body;
    }
  }

  // ------------------------------------------------- an answer in one file

  /** A header with nothing after it, that the scan ends at. */
  predicate IsHeader(front: string) {
    var s := CgiFields(CGI_START, front);
    s.last == [CR] && s.left == "" && Complete(s.head)
  }

  /** How much of the body comes with the buffers that it takes to read the header. */
  function ReadAhead(front: string, body: string): (n: nat)
    ensures n <= |body|
  {
    if |body| < Up(|front|) - |front| then |body| else Up(|front|) - |front|
  }

  /** Whatever follows the header, its lines fit. */
  lemma {:induction false} FitsOver(h: CgiHead, front: string, body: string)
    requires CgiFields(h, front).last == [CR] && LinesFit(front)
    ensures LinesFit(front + body)
    decreases |front|
  {
    hide CgiField;
    LineGrows(front, body);
    if LineOf(front) != [CR] {
      FitsOver(CgiField(h, LineOf(front)), AfterLine(front), body);
    }
  }

  /** The answer of a program that has exited, header and body, read with full reads. */
  method ReadAnswer(front: string, body: string, taking: nat -> Io) returns (cgi: CgiResponse)
    requires IsHeader(front) && LinesFit(front) && |front| + |body| <= INT_MAX
    requires forall i: nat :: Full(taking(i))
    ensures cgi.storage.Valid() && cgi.storage.Unread() == body[..ReadAhead(front, body)]
    ensures cgi.Judged() == Given && cgi.parsingState == CgiParsingDone && cgi.bodySize == |body|
  {
    hide CgiFields, Complete, LinesFit, Up;
    var file := new File(front + body);
    cgi := new CgiResponse();
    assert file.Ahead() == front + body && cgi.Stream(file) == front + body;
    FieldsAreOver(CGI_START, front, body);
    FitsOver(CGI_START, front, body);
    HeaderEnds(CGI_START, front + body);
    assert "" + body == body && cgi.Paged(file);
    cgi.ParseRequest(file, Exited, taking);
    assert cgi.Judged() == Given;
    UpIsReached(cgi.storage.writePos, |front|, |front + body|);
  }

  lemma {:induction false} HeaderEnds(h: CgiHead, u: string)
    requires CgiFields(h, u).last == [CR]
    ensures !CgiFields(h, u).out
    decreases |u|
  {
    hide CgiField;
    if LineOf(u) != "" && LineOf(u) != [CR] {
      HeaderEnds(CgiField(h, LineOf(u)), AfterLine(u));
    }
  }

  // ------------------------------------------------- look after look

  /** A blank line of `u` finds the header complete, by the lines before it. */
  predicate Ends(h: CgiHead, u: string)
    decreases |u|
  {
    HasLine(u) && ((LineOf(u) == [CR] && Complete(h)) || Ends(CgiField(h, LineOf(u)), AfterLine(u)))
  }

  /** Every line up to there is shorter than a buffer. */
  predicate FitTillThere(h: CgiHead, u: string)
    decreases |u|
  {
    HasLine(u) ==>
      && |LineOf(u)| < READ_BUFFER_SIZE
      && ((LineOf(u) == [CR] && Complete(h)) || FitTillThere(CgiField(h, LineOf(u)), AfterLine(u)))
  }

  predicate Decides(s: CgiScan) {
    s.last == [CR] && Complete(s.head)
  }

  lemma BlankSaysNothing(h: CgiHead)
    ensures CgiField(h, "") == h && CgiField(h, [CR]) == h
  {
    assert SkipSpace([CR], 0) == 1;
  }

  /** One look gets as far as the first empty or blank line. */
  lemma {:induction false} LookSplits(h: CgiHead, u: string)
    ensures var s := CgiFields(h, u);
            && (Ends(h, u) <==> !s.out && (Decides(s) || Ends(s.head, s.left)))
            && (!s.out ==> |s.left| < |u|)
    decreases |u|
  {
    hide CgiField, Complete;
    if LineOf(u) == "" || LineOf(u) == [CR] {
      BlankSaysNothing(h);
    } else {
      LookSplits(CgiField(h, LineOf(u)), AfterLine(u));
    }
  }

  lemma {:induction false} LookFits(h: CgiHead, u: string)
    requires FitTillThere(h, u)
    ensures LinesFit(u)
    ensures var s := CgiFields(h, u); !s.out && !Decides(s) ==> FitTillThere(s.head, s.left)
    decreases |u|
  {
    hide CgiField, Complete;
    if LineOf(u) == "" || LineOf(u) == [CR] {
      BlankSaysNothing(h);
    } else {
      LookFits(CgiField(h, LineOf(u)), AfterLine(u));
    }
  }

  /** The answer of a program that has exited is looked at until it is decided, or until
      its file is at its end, unless a poll returns such a file too. The program is given
      its say only if a blank line ends a complete header; with full reads, and lines
      shorter than a buffer, once decided it is given its say exactly then. `early` looks
      have decided nothing. */
  method Watch(answer: string, taking: (nat, nat) -> Io, atEnd: bool) returns (cgi: CgiResponse, early: nat)
    requires |answer| <= INT_MAX
    ensures cgi.Judged() == Given ==> Ends(CGI_START, answer)
    ensures (forall i: nat, j: nat :: Full(taking(i, j))) && FitTillThere(CGI_START, answer) && cgi.Judged() != Early
            ==> (cgi.Judged() == Given <==> Ends(CGI_START, answer))
    ensures atEnd ==> cgi.Judged() != Early
    ensures answer != "" && CgiFields(CGI_START, answer).out ==> cgi.Judged() == Lacking
  {
    hide CgiFields, Ends, FitTillThere, Complete, LinesFit, ReadUpTo, Full, HasLine, LineOf, AfterLine;
    var file := new File(answer);
    cgi := new CgiResponse();
    early := 0;
    assert file.Ahead() == answer && cgi.Stream(file) == answer;
    while cgi.Judged() == Early && (atEnd || file.offset < |file.content|)
      invariant cgi.storage.Valid() && file.Valid() && fresh(cgi) && fresh(cgi.storage) && fresh(file)
      invariant cgi.Judged() == Early ==>
                  && cgi.Aligned(file) && cgi.storage.state != Closed
                  && Scans(cgi.parsingState, Exited)
                  && (Ends(CGI_START, answer) <==> Ends(cgi.head, cgi.Stream(file)))
                  && (FitTillThere(CGI_START, answer) ==> FitTillThere(cgi.head, cgi.Stream(file)))
      invariant cgi.Judged() == Given ==> Ends(CGI_START, answer)
      invariant (forall i: nat, j: nat :: Full(taking(i, j))) && FitTillThere(CGI_START, answer) && cgi.Judged() == Lacking
                ==> !Ends(CGI_START, answer)
      invariant file.content == answer
      invariant if early == 0 && cgi.Judged() == Early
                then cgi.head == CGI_START && cgi.Stream(file) == answer && file.offset == 0
                else CgiFields(CGI_START, answer).out ==> cgi.Judged() == Lacking
      decreases if cgi.Judged() == Early then 1 + |cgi.Stream(file)| else 0
    {
      LookSplits(cgi.head, cgi.Stream(file));
      if FitTillThere(cgi.head, cgi.Stream(file)) {
        LookFits(cgi.head, cgi.Stream(file));
      }
      var look := early;
      cgi.ParseRequest(file, Exited, (j: nat) => taking(look, j));
      if cgi.Judged() == Early {
        early := early + 1;
      }
    }
  }

  lemma {:induction false} ReplyFinishes(header: string, extra: string, body: string, status: int, ios: seq<Io>)
    requires header != "" && extra <= body
    requires |ios| > |header| + 2 * |body| && forall i :: 0 <= i < |ios| ==> ios[i].Moved? && ios[i].n > 0
    ensures Run(Pump(CgiReply(header, extra, body, status, -1), body, ""), ios).resp.state == SendingDone
  {
    hide Run;
    var all := header + extra + body;
    var r := CgiReply(header, extra, body, status, -1);
    assert "" + (r.Unread() + body) == all;
    PumpFinishes(Pump(r, body, ""), ios, all);
  }

  /** The main result, of header and body as the program wrote them. The client gets
      as many bytes as the body has; it gets the body exactly when the buffers that the
      header took have all of the answer, or the body repeats itself at the distance
      that they had reached into it. */
  method DeliverAnswer(front: string, body: string, header: string, taking: nat -> Io, ios: seq<Io>) returns (p: Pump)
    requires IsHeader(front) && LinesFit(front) && |front| + |body| <= INT_MAX
    requires header != "" && forall i: nat :: Full(taking(i))
    requires |ios| > |header| + 2 * |body| && forall i :: 0 <= i < |ios| ==> ios[i].Moved? && ios[i].n > 0
    ensures p.resp.state == SendingDone && |p.wire| == |header| + |body|
    ensures p.wire == header + body <==>
              |front| + |body| <= Up(|front|) || Repeats(body, Up(|front|) - |front|)
  {
    hide CgiFields, Complete, Run, LinesFit, Up;
    var cgi := ReadAnswer(front, body, taking);
    var extra := cgi.storage.cells[cgi.storage.readPos..cgi.storage.writePos];
    assert extra == cgi.storage.Unread() == body[..ReadAhead(front, body)];
    p := Run(Pump(CgiReply(header, extra, body, cgi.head.statusCode, -1), body, ""), ios);
    CgiBodyDelivered(header, extra, body, cgi.head.statusCode, -1, ios);
    ReplyFinishes(header, extra, body, cgi.head.statusCode, ios);
  }

  // ------------------------------------------- an answer that is spoilt

  const STATUS_LINE := "Status: 200 OK"
  const TYPE_LINE := "Content-Type: text/html"

  /** A header as CGI programs write it. */
  const PLAIN_HEADER := STATUS_LINE + CRLF + (TYPE_LINE + CRLF + ("" + CRLF + ""))

  lemma StatusIsRead(h: CgiHead)
    ensures CgiField(h, STATUS_LINE + [CR]) == h.(statusCode := 200, statusMessage := "OK")
  {
    var line := STATUS_LINE + [CR];
    assert line[0] == 'S' && line[1] == 't' && line[2] == 'a' && line[3] == 't' && line[4] == 'u' && line[5] == 's';
    assert line[6] == ':' && line[7] == ' ' && line[8] == '2' && line[9] == '0' && line[10] == '0' && line[11] == ' ';
    assert line[12] == 'O' && line[13] == 'K' && line[14] == CR;
    assert SkipSpace(line, 0) == 0 && WordEnd(line, 0) == 7 && SkipSpace(line, 7) == 8;
    assert DigitRun(line, 10, 8) == 11 && SkipSpace(line, 11) == 12 && WordEnd(line, 12) == 14;
    assert line[0..7] == "Status:" && line[12..14] == "OK";
    assert DecimalValue(line, 8, 8) == 0 && DecimalValue(line, 8, 9) == 2 && DecimalValue(line, 8, 10) == 20;
    assert DecimalValue(line, 8, 11) == 200 && SignedAt(line, 8) == 200;
  }

  lemma TypeIsRead(h: CgiHead)
    ensures CgiField(h, TYPE_LINE + [CR]) == h.(contentType := " text/html")
  {
    var line := TYPE_LINE + [CR];
    assert line[..13] == "Content-Type:" && line[13..] == " text/html" + [CR];
    assert forall k :: 0 <= k < 13 ==> line[k] == "Content-Type:"[k];
    assert forall k :: 0 <= k < 13 ==> !IsSpace("Content-Type:"[k]);
    assert line[13] == ' ';
    assert SkipSpace(line, 0) == 0 && WordEnd(line, 0) == 13 && line[0..13] == "Content-Type:";
    var rest := line[13..];
    assert forall k :: 0 <= k < 10 ==> rest[k] == " text/html"[k] && rest[k] != CR;
    assert rest[10] == CR && IndexOf(rest, CR) == 10;
  }

  lemma PlainHeaderIsComplete()
    ensures var s := CgiFields(CGI_START, PLAIN_HEADER);
            s.last == [CR] && s.left == "" && Complete(s.head)
    ensures LinesFit(PLAIN_HEADER) && 0 < |PLAIN_HEADER| < READ_BUFFER_SIZE
  {
    hide CgiField, LineOf, AfterLine, LinesFit;
    var h1, h2 := CgiField(CGI_START, STATUS_LINE + [CR]), CgiField(CgiField(CGI_START, STATUS_LINE + [CR]), TYPE_LINE + [CR]);
    StatusIsRead(CGI_START);
    TypeIsRead(h1);
    CrLfLine(STATUS_LINE, TYPE_LINE + CRLF + ("" + CRLF + ""));
    CrLfLine(TYPE_LINE, "" + CRLF + "");
    CrLfLine("", "");
    FieldsStep(CGI_START, PLAIN_HEADER);
    FieldsStep(h1, TYPE_LINE + CRLF + ("" + CRLF + ""));
    FieldsStep(h2, "" + CRLF + "");
    FitsFrom("" + CRLF + "");
    FitsFrom(TYPE_LINE + CRLF + ("" + CRLF + ""));
    FitsFrom(PLAIN_HEADER);
  }

  /** It does happen: a plain header and a body of one buffer, all alike but for one byte. */
  method ReadAheadIsRepeated(header: string, taking: nat -> Io, ios: seq<Io>) returns (body: string, p: Pump)
    requires header != "" && forall i: nat :: Full(taking(i))
    requires |ios| > |header| + 2 * READ_BUFFER_SIZE && forall i :: 0 <= i < |ios| ==> ios[i].Moved? && ios[i].n > 0
    ensures |body| == READ_BUFFER_SIZE
    ensures p.resp.state == SendingDone && |p.wire| == |header| + |body| && p.wire != header + body
  {
    hide CgiFields, LinesFit, Up;
    PlainHeaderIsComplete();
    UpToOne(|PLAIN_HEADER|);
    var k := READ_BUFFER_SIZE - |PLAIN_HEADER|;
    body := seq(READ_BUFFER_SIZE, i => if i == k then 'b' else 'a');
    assert !Repeats(body, k) by {
      assert body[k] != body[0];
    }
    p := DeliverAnswer(PLAIN_HEADER, body, header, taking, ios);
  }
}
