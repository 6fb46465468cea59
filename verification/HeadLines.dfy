/** Head lines as clients write them, and what the parser reads out of them. */
module HeadLines {
  import opened Text
  import opened RequestModel
  import opened Framing

  // ----------------------------------------------------------- start lines

  /** A word of a start line. */
  predicate Word(s: string) {
    ' ' !in s && CR !in s && LF !in s
  }

  function StartOf(verb: string, uri: string, version: string): string {
    verb + " " + (uri + " " + version)
  }

  lemma {:induction false} TwoSpaces(verb: string, uri: string, version: string)
    requires Word(verb) && Word(uri) && Word(version)
    ensures Count(StartOf(verb, uri, version) + [CR], ' ') == 2
  {
    var tail := version + [CR];
    CountNone(verb, ' ', |verb|);
    CountNone(uri, ' ', |uri|);
    CountNone(tail, ' ', |tail|);
    assert CountBefore(" ", ' ', 0) == 0;
    CountJoined(uri, " ", ' ');
    CountJoined(uri + " ", tail, ' ');
    CountJoined(verb, " ", ' ');
    CountJoined(verb + " ", uri + " " + tail, ' ');
    assert StartOf(verb, uri, version) + [CR] == verb + " " + (uri + " " + tail);
  }

  /** The method that a word of the standard names; any other word names none. */
  predicate Names(word: string, verb: Method) {
    match verb
    case GET => word == "GET"
    case HEAD => word == "HEAD"
    case POST => word == "POST"
    case PUT => word == "PUT"
    case DELETE => word == "DELETE"
    case NotImplemented => word != "GET" && word != "HEAD" && word != "POST" && word != "PUT" && word != "DELETE"
  }

  /** Whatever its words are, a start line is accepted and its words are read back. */
  lemma {:induction false} StartIsReadBack(h: Head, verb: string, uri: string, version: string)
    requires Word(verb) && Word(uri) && Word(version)
    ensures var line := StartOf(verb, uri, version);
            && LF !in line && WellFormedStart(line + [CR])
            && Names(verb, StartLine(h, line + [CR]).verb)
            && StartLine(h, line + [CR]) == h.(headerSize := h.headerSize + |line| + 2, verb := StartLine(h, line + [CR]).verb,
                                               uri := uri, httpVersion := version)
  {
    var line := StartOf(verb, uri, version);
    TwoSpaces(verb, uri, version);
    assert line + [CR] == verb + [' '] + (uri + [' '] + (version + [CR]));
    CutAt(verb, ' ', uri + [' '] + (version + [CR]));
    CutAt(uri, ' ', version + [CR]);
    assert version + [CR] == version + [CR] + [];
    CutAt(version, CR, []);
  }

  /** A start line is accepted exactly when it is three words with a space between, and
      a CR. */
  lemma {:induction false} StartIsAcceptedExactly(line: string)
    ensures WellFormedStart(line) <==>
            exists a: string, b: string, c: string ::
              ' ' !in a && ' ' !in b && ' ' !in c && line == a + " " + b + " " + c + [CR]
  {
    hide WellFormedStart;
    if WellFormedStart(line) {
      var a, b, c := WordsOf(line);
    }
    if a: string, b: string, c: string :|
      ' ' !in a && ' ' !in b && ' ' !in c && line == a + " " + b + " " + c + [CR]
    {
      ThreeWords(line, a, b, c);
    }
  }

  lemma {:induction false} WordsOf(line: string) returns (a: string, b: string, c: string)
    requires WellFormedStart(line)
    ensures ' ' !in a && ' ' !in b && ' ' !in c && line == a + " " + b + " " + c + [CR]
  {
    hide Before, Beyond, Count;
    CutOnce(line, ' ');
    a, b := Before(line, ' '), Beyond(line, ' ');
    var u := b;
    CutOnce(u, ' ');
    b := Before(u, ' ');
    var v := Beyond(u, ' ');
    NoneLeft(v, ' ');
    c := FrontOf(line, a + " " + b + " ", v);
  }

  lemma FrontOf(line: string, front: string, tail: string) returns (c: string)
    requires line == front + tail && front != "" && front[|front| - 1] == ' ' && line[|line| - 1] == CR
    ensures tail == c + [CR] && line == front + c + [CR]
  {
    assert tail != "";
    c := tail[..|tail| - 1];
  }

  lemma {:induction false} ThreeWords(line: string, a: string, b: string, c: string)
    requires ' ' !in a && ' ' !in b && ' ' !in c && line == a + " " + b + " " + c + [CR]
    ensures WellFormedStart(line)
  {
    var tail := c + [CR];
    CountNone(a, ' ', |a|);
    CountNone(b, ' ', |b|);
    CountNone(tail, ' ', |tail|);
    assert CountBefore(" ", ' ', 0) == 0;
    CountJoined(a, " ", ' ');
    CountJoined(a + " ", b, ' ');
    CountJoined(a + " " + b, " ", ' ');
    CountJoined(a + " " + b + " ", tail, ' ');
    assert line == (a + " " + b + " ") + tail;
  }

  // --------------------------------------------------------- header fields

  function FieldOf(name: string, value: string): string {
    name + " " + value
  }

  lemma {:induction false} FieldIsCut(name: string, value: string)
    requires ' ' !in name
    ensures var line := FieldOf(name, value) + [CR];
            Before(line, ' ') == name && Beyond(line, ' ') == value + [CR]
  {
    assert FieldOf(name, value) + [CR] == name + [' '] + (value + [CR]);
    CutAt(name, ' ', value + [CR]);
  }

  lemma {:induction false} ValueIsRead(value: string)
    requires CR !in value
    ensures Before(value + [CR], CR) == value
  {
    assert value + [CR] == value + [CR] + [];
    CutAt(value, CR, []);
  }

  lemma {:induction false} NumberIsRead(n: nat, previous: int)
    ensures StreamInt(Decimal(n) + [CR], previous) == if n <= INT_MAX then n else INT_MAX
  {
    var digits := Decimal(n);
    var rest := digits + [CR];
    assert forall i :: 0 <= i < |digits| ==> rest[i] == digits[i] && Digit(rest[i]) < 10;
    assert Digit(rest[0]) < 10 && !IsSpace(rest[0]) && rest[0] != '-' && rest[0] != '+';
    assert SkipSpace(rest, 0) == 0;
    assert Digit(rest[|digits|]) == 16 && DigitRun(rest, 10, 0) == |digits|;
    assert rest[0..0 + |digits|] == digits[..|digits|] by { assert rest[..|digits|] == digits; }
    DecimalValueOfPart(rest, 0, digits, |digits|);
  }

  const LENGTH_NAME := "Content-Length:"
  const CODING_NAME := "Transfer-Encoding:"
  const CONNECTION_NAME := "Connection:"

  /** The head after a field of `line`, before what the field sets. */
  function Sized(h: Head, line: string): Head {
    h.(headerSize := h.headerSize + |line| + 2)
  }

  /** A declared length is read back as the number that was written, up to the largest
      `int`. */
  lemma {:induction false} LengthIsReadBack(h: Head, n: nat)
    ensures var line := FieldOf(LENGTH_NAME, Decimal(n));
            Field(h, line + [CR]) == Sized(h, line).(contentLength := if n <= INT_MAX then n else INT_MAX, bodyExisted := true)
  {
    hide StreamInt, Before, Beyond;
    FieldIsCut(LENGTH_NAME, Decimal(n));
    NumberIsRead(n, h.contentLength);
    assert LENGTH_NAME[8] == 'L' && "Content-Type:"[8] == 'T';
  }

  /** A chunked coding is recognised, and no other. */
  lemma {:induction false} CodingIsReadBack(h: Head, value: string)
    requires CR !in value
    ensures var line := FieldOf(CODING_NAME, value);
            Field(h, line + [CR]) == if value == "chunked" then Sized(h, line).(chunked := true, bodyExisted := true)
                                     else Sized(h, line)
  {
    hide StreamInt, Before, Beyond;
    FieldIsCut(CODING_NAME, value);
    ValueIsRead(value);
    assert CODING_NAME[0] == 'T';
  }

  lemma {:induction false} TypeIsReadBack(h: Head, value: string)
    requires CR !in value
    ensures var line := FieldOf("Content-Type:", value);
            Field(h, line + [CR]) == Sized(h, line).(contentType := value)
  {
    hide StreamInt, Before, Beyond;
    FieldIsCut("Content-Type:", value);
    ValueIsRead(value);
  }

  lemma {:induction false} CookieIsReadBack(h: Head, value: string)
    requires CR !in value
    ensures var line := FieldOf("Cookie:", value);
            Field(h, line + [CR]) == Sized(h, line).(cookies := value)
  {
    hide StreamInt, Before, Beyond;
    FieldIsCut("Cookie:", value);
    ValueIsRead(value);
    assert "Cookie:"[2] == 'o' && "Content-Type:"[2] == 'n' && LENGTH_NAME[2] == 'n' && CONNECTION_NAME[2] == 'n';
    assert "Cookie:"[0] == 'C' && "Host:"[0] == 'H' && CODING_NAME[0] == 'T';
    assert "X-Secret-Header-For-Test:"[0] == 'X';
  }

  /** The host, and its port if there is one; else the default port. */
  lemma {:induction false} HostIsReadBack(h: Head, name: string, port: nat)
    requires CR !in name && ':' !in name && port <= INT_MAX
    ensures var line := FieldOf("Host:", name);
            Field(h, line + [CR]) == Sized(h, line).(hostPort := 4242, hostName := name)
    ensures var line := FieldOf("Host:", name + ":" + Decimal(port));
            Field(h, line + [CR]) == Sized(h, line).(hostPort := port, hostName := name)
  {
    hide StreamInt, Atoi, Before, Beyond;
    var value := name + ":" + Decimal(port);
    DigitsHaveNoCr(Decimal(port));
    FieldIsCut("Host:", name);
    FieldIsCut("Host:", value);
    ValueIsRead(name);
    ValueIsRead(value);
    assert IndexOf(name, ':') == |name|;
    assert value[|name|] == ':' && IndexOf(value, ':') < |value|;
    assert value == name + [':'] + Decimal(port);
    CutAt(name, ':', Decimal(port));
    PortIsRead(port);
    assert "Host:"[0] == 'H' && "Content-Type:"[0] == 'C' && LENGTH_NAME[0] == 'C';
  }

  lemma {:induction false} DigitsHaveNoCr(digits: string)
    requires Digits(digits, 10)
    ensures CR !in digits
  {
    assert forall i :: 0 <= i < |digits| ==> Digit(digits[i]) < 10;
  }

  lemma {:induction false} PortIsRead(n: nat)
    requires n <= INT_MAX
    ensures Atoi(Decimal(n)) == n
  {
    var digits := Decimal(n);
    assert forall i :: 0 <= i < |digits| ==> Digit(digits[i]) < 10;
    assert Digit(digits[0]) < 10 && !IsSpace(digits[0]) && digits[0] != '-' && digits[0] != '+';
    assert SkipSpace(digits, 0) == 0 && DigitRun(digits, 10, 0) == |digits|;
  }

  lemma {:induction false} SecretIsReadBack(h: Head, n: nat)
    ensures var line := FieldOf("X-Secret-Header-For-Test:", Decimal(n));
            Field(h, line + [CR]) == Sized(h, line).(secret := if n <= INT_MAX then n else INT_MAX)
  {
    hide StreamInt, Before, Beyond;
    FieldIsCut("X-Secret-Header-For-Test:", Decimal(n));
    NumberIsRead(n, h.secret);
    assert "X-Secret-Header-For-Test:"[0] == 'X';
  }

  /** What holds of a request whose head says nothing of it: it has no body, and its
      connection is kept. */
  lemma NothingSaid(start: string)
    ensures var h := HeadOf(FRESH_REQUEST.head, start, []);
            h.keepAlive && !h.chunked && h.contentLength == 0 && h.hostPort == 4242 && h.hostName == ""
  {
  }

  /** Any other field counts for the size of the head, and for nothing else. */
  lemma {:induction false} OtherIsIgnored(h: Head, name: string, value: string)
    requires ' ' !in name && CR !in value
    requires name != "Content-Type:" && name != "Content-Length:" && name != "Host:" && name != "Connection:"
    requires name != "Transfer-Encoding:" && name != "X-Secret-Header-For-Test:" && name != "Cookie:"
    ensures var line := FieldOf(name, value); Field(h, line + [CR]) == Sized(h, line)
  {
    hide StreamInt, Before, Beyond;
    FieldIsCut(name, value);
  }

  /** A head is refused for its size exactly when the start line counted before it and
      the lines of its fields together have more than 8192 bytes. */
  lemma {:induction false} HeadFitsExactly(h: Head, fields: seq<string>, body: string)
    requires forall i :: 0 <= i < |fields| ==> fields[i] != "" && LF !in fields[i]
    ensures Fields(h, Lines(fields) + (CRLF + body)).end
         == if fields == [] || h.headerSize + |Lines(fields)| <= 8192 then Blank else Malformed
    decreases |fields|
  {
    hide Field, MessageSetting, LineOf, AfterLine;
    if fields == [] {
      assert Lines(fields) + (CRLF + body) == "" + CRLF + body && "" + [CR] == [CR];
      CrLfLine("", body);
    } else {
      var line, rest := fields[0] + [CR], Lines(fields[1..]) + (CRLF + body);
      CrLfLine(fields[0], rest);
      assert Lines(fields) + (CRLF + body) == fields[0] + CRLF + rest;
      assert |line| > 1;
      FieldCounts(h, line);
      HeadFitsExactly(Field(h, line), fields[1..], body);
    }
  }

  lemma FieldCounts(h: Head, line: string)
    ensures Field(h, line).headerSize == h.headerSize + |line| + 1
  {
    hide MessageSetting;
  }

  /** Anything but "keep-alive" closes the connection after the response. */
  lemma {:induction false} ConnectionIsReadBack(h: Head, value: string)
    requires CR !in value
    ensures var line := FieldOf(CONNECTION_NAME, value);
            Field(h, line + [CR]) == Sized(h, line).(keepAlive := value == "keep-alive")
  {
    hide StreamInt, Before, Beyond;
    FieldIsCut(CONNECTION_NAME, value);
    ValueIsRead(value);
    assert CONNECTION_NAME[3] == 'n' && "Content-Type:"[3] == 't' && LENGTH_NAME[3] == 't';
    assert CONNECTION_NAME[0] == 'C' && "Host:"[0] == 'H';
  }

  // --------------------------------------------------------------- requests

  lemma {:induction false} OneField(h: Head, start: string, field: string)
    requires LF !in start && WellFormedStart(start + [CR])
    requires field != "" && LF !in field
    requires h.headerSize + |start| + |field| + 4 <= HTTP_MAX_HEADER_SIZE
    ensures AcceptableHead(h, start, [field])
    ensures HeadOf(h, start, [field]) == Field(StartLine(h, start + [CR]), field + [CR])
  {
    hide Field, WellFormedStart, Before, Beyond, MethodOf;
    var g := StartLine(h, start + [CR]);
    assert [field][0] == field && [field][1..] == [];
    assert Acceptable(Field(g, field + [CR]), []) && Reading(Field(g, field + [CR]), []) == Field(g, field + [CR]);
  }

  /** Requests with a chunked body are within what the parser accepts, whatever their
      method and URI, up to the limit on the size of a head. */
  lemma {:induction false} ChunkedIsAcceptable(h: Head, verb: string, uri: string)
    requires Word(verb) && Word(uri) && h.headerSize + |verb| + |uri| <= HTTP_MAX_HEADER_SIZE - 50
    ensures var start, fields := StartOf(verb, uri, "HTTP/1.1"), [FieldOf(CODING_NAME, "chunked")];
            && AcceptableHead(h, start, fields)
            && HeadOf(h, start, fields).chunked && Names(verb, HeadOf(h, start, fields).verb)
            && HeadOf(h, start, fields).uri == uri && HeadOf(h, start, fields).httpVersion == "HTTP/1.1"
  {
    hide Field, StartLine, WellFormedStart, AcceptableHead, HeadOf, MethodOf;
    var start := StartOf(verb, uri, "HTTP/1.1");
    StartIsReadBack(h, verb, uri, "HTTP/1.1");
    CodingIsReadBack(StartLine(h, start + [CR]), "chunked");
    OneField(h, start, FieldOf(CODING_NAME, "chunked"));
  }

  /** So are requests with a body of declared length, which is read back. */
  lemma {:induction false} MeasuredIsAcceptable(h: Head, verb: string, uri: string, n: nat)
    requires Word(verb) && Word(uri) && n <= INT_MAX && !h.chunked
    requires h.headerSize + |verb| + |uri| + |Decimal(n)| <= HTTP_MAX_HEADER_SIZE - 50
    ensures var start, fields := StartOf(verb, uri, "HTTP/1.1"), [FieldOf(LENGTH_NAME, Decimal(n))];
            && AcceptableHead(h, start, fields)
            && !HeadOf(h, start, fields).chunked && HeadOf(h, start, fields).contentLength == n
            && Names(verb, HeadOf(h, start, fields).verb) && HeadOf(h, start, fields).uri == uri
            && HeadOf(h, start, fields).httpVersion == "HTTP/1.1"
  {
    hide Field, StartLine, WellFormedStart, AcceptableHead, HeadOf, MethodOf;
    var start, digits := StartOf(verb, uri, "HTTP/1.1"), Decimal(n);
    assert LF !in digits by {
      assert forall i :: 0 <= i < |digits| ==> Digit(digits[i]) < 10;
    }
    StartIsReadBack(h, verb, uri, "HTTP/1.1");
    LengthIsReadBack(StartLine(h, start + [CR]), n);
    OneField(h, start, FieldOf(LENGTH_NAME, digits));
  }
}
