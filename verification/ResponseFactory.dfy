/** How responses are made: which kind, in which state, from which file, and with
    what declared length. */
module ResponseFactory {
  import opened Text
  import opened Storage
  import opened RequestModel
  import opened ResponseModel
  import opened CgiResponse
  import opened Config
  import Locations
  import opened FileManager
  import opened Kernel

  // ------------------------------------------------------------ the header

  /** The static fields a header is made from. */
  datatype Statics = Statics(
    httpVersion: string, statusCode: int, message: string, contentLength: nat,
    contentType: string, location: string, cookies: string)

  function SignedDecimal(n: int): string {
    if n < 0 then "-" + Decimal(-n) else Decimal(n)
  }

  function Optional(name: string, value: string): string {
    if value == "" then "" else name + value + CRLF
  }

  const LENGTH := "Content-Length: "
  const TYPE := "Content-Type: "
  const LOCATION := "Location: "
  const COOKIE := "Set-Cookie: "

  function StatusText(f: Statics): string {
    f.httpVersion + " " + SignedDecimal(f.statusCode) + " " + f.message
  }

  function Header(f: Statics): (h: string)
    ensures h != ""
  {
    StatusText(f) + CRLF
    + (LENGTH + Decimal(f.contentLength) + CRLF
       + (Optional(TYPE, f.contentType) + (Optional(LOCATION, f.location) + (Optional(COOKIE, f.cookies) + CRLF))))
  }

  /** What a client makes of a response. */
  datatype Understood = Understood(
    version: string, code: int, message: string, length: int,
    contentType: string, location: string, cookies: string, body: string)

  /** What is said with header fields `f` and these bytes after them. */
  function Saying(f: Statics, body: string): Understood {
    Understood(f.httpVersion, f.statusCode, f.message, f.contentLength, f.contentType, f.location, f.cookies, body)
  }

  // A reader of header lines that knows nothing of how the header was made.

  /** What stands after the colon and the space, up to the CR. */
  function ValueIn(line: string): string {
    var from := IndexOf(line, ':') + 2;
    if from < |line| then line[from..|line| - 1] else ""
  }

  function ReadField(c: Understood, line: string): Understood {
    var name, value := Before(line, ':'), ValueIn(line);
    if name == "Content-Length" then c.(length := DecimalValue(value, 0, |value|))
    else if name == "Content-Type" then c.(contentType := value)
    else if name == "Location" then c.(location := value)
    else if name == "Set-Cookie" then c.(cookies := value)
    else c
  }

  function ReadFields(u: string, c: Understood): Understood
    decreases |u|
  {
    if !HasLine(u) then c.(length := -1, body := u)
    else if LineOf(u) == [CR] then c.(body := AfterLine(u))
    else ReadFields(AfterLine(u), ReadField(c, LineOf(u)))
  }

  /** Version, code and message, with a space between. */
  function ReadStatus(line: string): Understood {
    var version, rest := Before(line, ' '), Beyond(line, ' ');
    var code, message := Before(rest, ' '), Beyond(rest, ' ');
    Understood(version, SignedAt(code, 0), if message == "" then "" else message[..|message| - 1], -1, "", "", "", "")
  }

  function ReadMessage(wire: string): Understood {
    ReadFields(AfterLine(wire), ReadStatus(LineOf(wire)))
  }

  predicate OneLine(f: Statics) {
    && LF !in f.httpVersion && LF !in f.message && LF !in f.contentType
    && LF !in f.location && LF !in f.cookies && ' ' !in f.httpVersion
  }

  lemma {:induction false} DigitsOnly(s: string)
    requires Digits(s, 10)
    ensures LF !in s && CR !in s && ' ' !in s
  {
    assert forall i :: 0 <= i < |s| ==> Digit(s[i]) < 10;
  }

  lemma {:induction false} FieldIsSplit(name: string, value: string)
    requires ':' !in name
    ensures var line := name + ": " + value + [CR]; Before(line, ':') == name && ValueIn(line) == value
  {
    var line := name + ": " + value + [CR];
    assert line[|name|] == ':' && forall k :: 0 <= k < |name| ==> line[k] == name[k];
    assert IndexOf(line, ':') == |name|;
    assert line[..|name|] == name && line[|name| + 2..|line| - 1] == value;
  }

  lemma {:induction false} OneFieldIsRead(name: string, value: string, rest: string, c: Understood)
    requires ':' !in name && LF !in name && LF !in value
    ensures var line := name + ": " + value + [CR];
            ReadFields(name + ": " + value + CRLF + rest, c) == ReadFields(rest, ReadField(c, line))
  {
    hide ReadField;
    var line := name + ": " + value;
    CrLfLine(line, rest);
    assert |line + [CR]| > 1;
  }

  /** A field that is written is read back, and one that is not leaves what was there. */
  lemma {:induction false} OptionalIsRead(name: string, value: string, rest: string, c: Understood)
    requires ':' !in name && LF !in name && LF !in value
    ensures var line := name + ": " + value + [CR];
            ReadFields(Optional(name + ": ", value) + rest, c) == ReadFields(rest, if value == "" then c else ReadField(c, line))
  {
    hide ReadField;
    if value == "" {
      assert Optional(name + ": ", value) + rest == rest;
    } else {
      OneFieldIsRead(name, value, rest, c);
    }
  }

  lemma {:induction false} LengthIsRead(n: nat, rest: string, c: Understood)
    ensures ReadFields(LENGTH + Decimal(n) + CRLF + rest, c) == ReadFields(rest, c.(length := n))
  {
    DigitsOnly(Decimal(n));
    assert LENGTH == "Content-Length" + ": ";
    OneFieldIsRead("Content-Length", Decimal(n), rest, c);
    FieldIsSplit("Content-Length", Decimal(n));
  }

  lemma {:induction false} BlankIsRead(body: string, c: Understood)
    ensures ReadFields(CRLF + body, c) == c.(body := body)
  {
    CrLfLine("", body);
    assert "" + CRLF + body == CRLF + body && "" + [CR] == [CR];
  }

  /** The three fields that may be missing, then the blank line. */
  lemma {:induction false} RestIsRead(f: Statics, body: string, c: Understood)
    requires OneLine(f) && c.contentType == "" && c.location == "" && c.cookies == ""
    ensures ReadFields(Optional(TYPE, f.contentType) + (Optional(LOCATION, f.location) + (Optional(COOKIE, f.cookies) + (CRLF + body))), c)
         == c.(contentType := f.contentType, location := f.location, cookies := f.cookies, body := body)
  {
    hide ReadFields, Optional, Before, ValueIn;
    var tail3 := CRLF + body;
    var tail2 := Optional(COOKIE, f.cookies) + tail3;
    var tail1 := Optional(LOCATION, f.location) + tail2;
    assert TYPE == "Content-Type" + ": " && LOCATION == "Location" + ": " && COOKIE == "Set-Cookie" + ": ";
    FieldIsSplit("Content-Type", f.contentType);
    FieldIsSplit("Location", f.location);
    FieldIsSplit("Set-Cookie", f.cookies);
    var c1 := c.(contentType := f.contentType);
    var c2 := c1.(location := f.location);
    var c3 := c2.(cookies := f.cookies);
    NamesDiffer();
    OptionalIsRead("Content-Type", f.contentType, tail1, c);
    OptionalIsRead("Location", f.location, tail2, c1);
    OptionalIsRead("Set-Cookie", f.cookies, tail3, c2);
    BlankIsRead(body, c3);
  }

  lemma NamesDiffer()
    ensures "Content-Type" != "Content-Length" && "Location" != "Content-Length" && "Location" != "Content-Type"
    ensures "Set-Cookie" != "Content-Length" && "Set-Cookie" != "Content-Type" && "Set-Cookie" != "Location"
  {
    assert "Content-Type"[8] == 'T' && "Content-Length"[8] == 'L' && "Location"[0] == 'L' && "Set-Cookie"[0] == 'S';
  }

  /** Digits from `from` to the end are read as the number they are. */
  lemma {:induction false} DigitsAreRead(text: string, from: nat, n: nat)
    requires from <= |text| && text[from..] == Decimal(n)
    ensures DigitRun(text, 10, from) == |text| && DecimalValue(text, from, |text|) == n
  {
    var digits := Decimal(n);
    assert forall k :: from <= k < |text| ==> text[k] == digits[k - from] && Digit(digits[k - from]) < 10;
    assert text[from..from + |digits|] == digits[..|digits|];
    DecimalValueOfPart(text, from, digits, |digits|);
  }

  lemma {:induction false} CodeIsRead(n: int)
    ensures SignedAt(SignedDecimal(n), 0) == n && ' ' !in SignedDecimal(n) && LF !in SignedDecimal(n)
  {
    hide Decimal, DigitRun, DecimalValue;
    var text := SignedDecimal(n);
    DigitsOnly(Decimal(if n < 0 then -n else n));
    if n < 0 {
      DigitsAreRead(text, 1, -n);
    } else {
      assert Digit(text[0]) < 10;
      DigitsAreRead(text, 0, n);
    }
  }

  lemma {:induction false} StatusIsTold(f: Statics)
    requires OneLine(f)
    ensures ReadStatus(StatusText(f) + [CR]) == Understood(f.httpVersion, f.statusCode, f.message, -1, "", "", "", "")
  {
    hide Before, Beyond, SignedAt, SignedDecimal;
    var code := SignedDecimal(f.statusCode);
    CodeIsRead(f.statusCode);
    assert StatusText(f) + [CR] == f.httpVersion + [' '] + (code + [' '] + (f.message + [CR]));
    CutAt(f.httpVersion, ' ', code + [' '] + (f.message + [CR]));
    CutAt(code, ' ', f.message + [CR]);
    assert (f.message + [CR])[..|f.message + [CR]| - 1] == f.message;
  }

  /** A header made here is read back as what it was made with. */
  lemma {:induction false} HeaderIsRead(f: Statics, body: string)
    requires OneLine(f)
    ensures ReadMessage(Header(f) + body) == Saying(f, body)
  {
    hide ReadFields, ReadStatus, StatusText, Optional;
    var tail0 := Optional(TYPE, f.contentType)
                 + (Optional(LOCATION, f.location) + (Optional(COOKIE, f.cookies) + (CRLF + body)));
    var status := StatusText(f);
    StatusIsOneLine(f);
    StatusIsTold(f);
    HeaderSplits(f, body, tail0);
    CrLfLine(status, LENGTH + Decimal(f.contentLength) + CRLF + tail0);
    LengthIsRead(f.contentLength, tail0, ReadStatus(status + [CR]));
    RestIsRead(f, body, ReadStatus(status + [CR]).(length := f.contentLength));
  }

  lemma {:induction false} StatusIsOneLine(f: Statics)
    requires OneLine(f)
    ensures LF !in StatusText(f)
  {
    CodeIsRead(f.statusCode);
  }

  lemma {:induction false} HeaderSplits(f: Statics, body: string, tail0: string)
    requires tail0 == Optional(TYPE, f.contentType)
                   + (Optional(LOCATION, f.location) + (Optional(COOKIE, f.cookies) + (CRLF + body)))
    ensures Header(f) + body == StatusText(f) + CRLF + (LENGTH + Decimal(f.contentLength) + CRLF + tail0)
  {
    var d := Optional(COOKIE, f.cookies);
    var c := Optional(LOCATION, f.location);
    var b := Optional(TYPE, f.contentType);
    assert (b + (c + (d + CRLF))) + body == tail0;
  }

  // ------------------------------------------------------------ responses

  /** A response, what it carries after its header in the store, and the bytes of
      the file it is to be completed from. */
  datatype Reply = Reply(resp: Response, extra: string, source: string)

  datatype Made = Made(reply: Reply) | Threw

  /** The reply was made with header fields `f`, which declare all that follows. */
  ghost predicate WellMade(reply: Reply, f: Statics) {
    && reply.resp == NewResponse(reply.resp.kind, reply.resp.state, Header(f) + reply.extra, "",
                                 f.statusCode, |reply.source|, reply.resp.fd)
    && f.contentLength == |reply.extra| + |reply.source|
    && (reply.resp.state.DownloadingInit? || (reply.resp.state.SendingStorage? && reply.source == ""))
  }

  /** The main result: when sending is done, a client reads in the header just what it
      was made with, the length among it being the number of bytes it is sent after the
      blank line, whatever the pattern of reads and sends was. */
  lemma {:induction false} DeclaredIsSent(reply: Reply, f: Statics, ios: seq<Io>)
    requires WellMade(reply, f) && OneLine(f)
    ensures var p := Run(Pump(reply.resp, reply.source, ""), ios);
            p.resp.state == SendingDone ==>
              && ReadMessage(p.wire) == Saying(f, reply.extra + reply.source)
              && ReadMessage(p.wire).length == |reply.extra + reply.source| && ReadMessage(p.wire).code == reply.resp.status
  {
    ToldOnWire(f, reply.extra, reply.source);
    SentWhole(reply.resp, Header(f) + reply.extra, reply.source, ios);
  }

  lemma {:induction false} SentWhole(r: Response, header: string, source: string, ios: seq<Io>)
    requires Fresh(r, header, "", source)
    ensures var p := Run(Pump(r, source, ""), ios);
            p.resp.state == SendingDone ==> p.wire == header + source
  {
    FileIsDelivered(r, header, source, ios);
  }

  lemma {:induction false} ToldOnWire(f: Statics, extra: string, source: string)
    requires OneLine(f) && f.contentLength == |extra| + |source|
    ensures ReadMessage(Header(f) + extra + source) == Saying(f, extra + source)
  {
    hide Header, ReadMessage, OneLine;
    HeaderIsRead(f, extra + source);
    assert Header(f) + extra + source == Header(f) + (extra + source);
  }

  /** The same for the answer of a CGI program: its declared length is kept, whether or
      not what is sent is its body. */
  lemma {:induction false} CgiDeclaredIsSent(f: Statics, readAhead: string, body: string, fd: int, ios: seq<Io>)
    requires OneLine(f) && f.contentLength == |body| && readAhead <= body
    ensures var p := Run(Pump(CgiReply(Header(f), readAhead, body, f.statusCode, fd), body, ""), ios);
            p.resp.state == SendingDone ==>
              && ReadMessage(p.wire) == Saying(f, ReadMessage(p.wire).body)
              && ReadMessage(p.wire).length == |ReadMessage(p.wire).body| == |body|
              && (ReadMessage(p.wire).body == body <==> Repeats(body, |readAhead|))
  {
    hide Header, ReadMessage, Run;
    var sent := (readAhead + body)[..|body|];
    HeaderIsRead(f, sent);
    PumpDelivers(CgiReply(Header(f), readAhead, body, f.statusCode, fd), Header(f), readAhead, body, ios);
    assert (Header(f) + readAhead + body)[..|Header(f)| + |body|] == Header(f) + sent;
    ReadAheadShows(readAhead, body);
  }

  /** What kind and state a response may have, by the method of its request. */
  predicate Suits(verb: Method, r: Response) {
    match r.kind
    case TypePost => (verb.POST? || verb.PUT?) && r.state.SendingStorage? && r.fd >= 0
    case TypeGet => !verb.POST? && !verb.PUT? && !verb.HEAD? && r.state.DownloadingInit? && r.fd >= 0
    case TypeDel => !verb.POST? && r.state.SendingStorage? && r.fd == -1
    case TypeFlush => verb.POST? && r.state.SendingStorage? && r.fd == -1
    case TypeFlushErr => (verb.POST? || verb.PUT?) && r.state.DownloadingInit? && r.fd >= 0
    case TypeCgi => false
  }

  /** What an error response is, which replaces one already made. */
  predicate SuitsError(verb: Method, r: Response) {
    Suits(verb, r) && !r.kind.TypePost? && !r.kind.TypeFlush? && (r.kind.TypeDel? ==> verb.HEAD?)
  }

  /** The first objection to a request, before its method is looked at; 0 for none. */
  function Objection(req: Request, loc: Location): int
    requires req.pos <= |req.held|
  {
    if req.state == BadRequest then 400
    else if req.head.httpVersion != "HTTP/1.1" then 505
    else if req.head.verb == NotImplemented then 501
    else if VerbName(req.head.verb) !in loc.allowedMethods then 405
    else if !req.head.chunked && Int32(|req.Unread()|) > loc.maxBodySize then 413
    else 0
  }

  /** What each objection is to; an earlier one goes before a later one. */
  lemma ObjectionsAre(req: Request, loc: Location)
    requires req.pos <= |req.held|
    ensures var code := Objection(req, loc);
            var known := !req.state.BadRequest? && req.head.httpVersion == "HTTP/1.1" && !req.head.verb.NotImplemented?;
            var allowed := VerbName(req.head.verb) in loc.allowedMethods;
            var fits := req.head.chunked || |req.Unread()| <= loc.maxBodySize || |req.Unread()| > INT_MAX;
            && (code == 400 <==> req.state.BadRequest?)
            && (code == 505 <==> !req.state.BadRequest? && req.head.httpVersion != "HTTP/1.1")
            && (code == 501 <==> !req.state.BadRequest? && req.head.httpVersion == "HTTP/1.1" && req.head.verb.NotImplemented?)
            && (code == 405 <==> known && !allowed)
            && (code == 413 && |req.Unread()| <= INT_MAX <==> known && allowed && !fits)
            && (known && allowed && |req.Unread()| <= INT_MAX ==> (code == 0 <==> fits))
  {
  }

  /** A location that was not configured allows no method, and has no error pages. */
  lemma UnconfiguredIsObjectedTo(req: Request)
    requires req.pos <= |req.held|
    ensures Objection(req, Locations.Unconfigured()) != 0 && HasPlace(Locations.Unconfigured(), Objection(req, Locations.Unconfigured()))
  {
  }

  function VerbName(verb: Method): string {
    match verb
    case GET => "GET"
    case HEAD => "HEAD"
    case POST => "POST"
    case PUT => "PUT"
    case DELETE => "DELETE"
    case NotImplemented => ""
  }

  /** A directory is answered with a listing, or with its index page. */
  predicate Listed(nodes: map<string, Node>, path: string, loc: Location) {
    IsDirectoryAt(nodes, path) && loc.indexPage == "" && loc.autoIndex
  }

  function Indexed(nodes: map<string, Node>, path: string, loc: Location): (indexed: string)
    requires path != ""
    ensures |path| <= |indexed|
  {
    if Listed(nodes, path, loc) || !IsDirectoryAt(nodes, path) then path
    else Joined(path, if loc.indexPage == "" then "index.html" else loc.indexPage)
  }

  /** A directory that is not listed stands for the index page in it, "index.html" if none
      is configured; any other path for itself. */
  lemma {:induction false} IndexedExactly(nodes: map<string, Node>, path: string, loc: Location)
    requires path != ""
    ensures var page := if loc.indexPage == "" then "index.html" else loc.indexPage;
            Indexed(nodes, path, loc) ==
              if !IsDirectoryAt(nodes, path) || (loc.indexPage == "" && loc.autoIndex) then path
              else WithoutTrailingSlash(path) + "/" + WithoutLeadingSlash(page)
  {
    JoinedBySlash(path, if loc.indexPage == "" then "index.html" else loc.indexPage);
  }

  datatype Page = Page(content: string) | NoPage

  function DefaultPage(code: int): string {
    "error_pages/" + SignedDecimal(code) + ".html"
  }

  /** The root is looked at for a configured error page only. */
  predicate HasPlace(loc: Location, code: int) {
    code in loc.errorPages ==> loc.root != ""
  }

  /** The error page configured for the location if it is there, else the default one. */
  function ErrorPage(nodes: map<string, Node>, code: int, loc: Location): Page
    requires HasPlace(loc, code)
  {
    if code in loc.errorPages && IsFileAt(nodes, Joined(loc.root, loc.errorPages[code])) then
      Page(nodes[Joined(loc.root, loc.errorPages[code])].content)
    else if IsFileAt(nodes, DefaultPage(code)) then Page(nodes[DefaultPage(code)].content)
    else NoPage
  }

  /** A page that is configured and there goes before the one of the same number among
      the error pages. */
  lemma {:induction false} ErrorPageExactly(nodes: map<string, Node>, code: int, loc: Location)
    requires HasPlace(loc, code)
    ensures code in loc.errorPages ==>
              var path := WithoutTrailingSlash(loc.root) + "/" + WithoutLeadingSlash(loc.errorPages[code]);
              IsFileAt(nodes, path) ==> ErrorPage(nodes, code, loc) == Page(nodes[path].content)
    ensures var path := "error_pages/" + SignedDecimal(code) + ".html";
            code !in loc.errorPages ==>
              ErrorPage(nodes, code, loc) == if IsFileAt(nodes, path) then Page(nodes[path].content) else NoPage
  {
    if code in loc.errorPages {
      JoinedBySlash(loc.root, loc.errorPages[code]);
    }
  }

  /** An error is answered with its page, which a HEAD is only told of. */
  predicate AnswersError(made: Made, nodes: map<string, Node>, code: int, verb: Method, loc: Location)
    requires HasPlace(loc, code)
  {
    match ErrorPage(nodes, code, loc)
    case NoPage => made.Threw?
    case Page(content) => made.Made? && made.reply.resp.status == code && Carries(made.reply, "", if verb.HEAD? then "" else content)
  }

  /** A client that is sent the reply reads the fields it was made with. */
  lemma {:induction false} ReplyIsRead(made: Made, f: Statics)
    requires made.Made? ==> WellMade(made.reply, f)
    ensures made.Made? && OneLine(f) ==>
              && ReadMessage(made.reply.resp.held + made.reply.source) == Saying(f, made.reply.extra + made.reply.source)
              && f.contentLength == |made.reply.extra + made.reply.source| && f.statusCode == made.reply.resp.status
  {
    hide Header, ReadMessage;
    if made.Made? && OneLine(f) {
      ToldOnWire(f, made.reply.extra, made.reply.source);
      var all := Header(f) + made.reply.extra;
      assert all + "" == all && made.reply.resp.held == all;
    }
  }

  /** What follows the header: first from the store, then from the file. */
  predicate Carries(reply: Reply, extra: string, source: string) {
    reply.extra == extra && reply.source == source
  }

  /** An answer without a body. */
  predicate AnswersPlainly(made: Made, code: int) {
    made.Made? && made.reply.resp.status == code && Carries(made.reply, "", "")
  }

  function Entry(link: string, name: string): string {
    "<pre><a href = \"" + link + (if link != "" && link[|link| - 1] == '/' then "" else "/")
    + name + "\">" + name + "/</a></pre>\n"
  }

  /** An empty name stands for the end of the directory. */
  function Shown(names: seq<string>, from: nat): (n: nat)
    requires from <= |names|
    ensures n <= |names|
    decreases |names| - from
  {
    if from == |names| || names[from] == "" then from else Shown(names, from + 1)
  }

  /** The lines for the first `to` names. */
  function Entries(link: string, names: seq<string>, to: nat): string
    requires to <= |names|
  {
    if to == 0 then ""
    else if names[to - 1] == "." then Entries(link, names, to - 1)
    else Entries(link, names, to - 1) + Entry(link, names[to - 1])
  }

  /** Every name up to the end of the directory has its line, but the directory itself. */
  lemma {:induction false} NameIsListed(link: string, names: seq<string>, to: nat, k: nat) returns (before: string, after: string)
    requires k < to <= |names| && names[k] != "."
    ensures Entries(link, names, to) == before + Entry(link, names[k]) + after
  {
    hide Entry;
    if k == to - 1 {
      before, after := Entries(link, names, to - 1), "";
    } else {
      before, after := NameIsListed(link, names, to - 1, k);
      if names[to - 1] != "." {
        after := after + Entry(link, names[to - 1]);
      }
    }
  }

  function Listing(path: string, link: string, names: seq<string>): string {
    "<html><head><title> Index of / " + path + " / </title></head>\n"
    + "<body><h1> Index of / " + path + " / </h1><hr>\n"
    + Entries(link, names, Shown(names, 0)) + "<hr></body></html>"
  }

  predicate AnswersListing(made: Made, path: string, loc: Location, names: seq<string>)
    requires |loc.root| <= |path|
  {
    && made.Made? && made.reply.resp.status == 200
    && Carries(made.reply, Listing(path, path[|loc.root|..], names), "")
  }

  predicate AnswersFile(made: Made, nodes: map<string, Node>, content: string, loc: Location)
    requires loc.root != ""
  {
    if |content| > SizeT(loc.maxBodySize) then AnswersError(made, nodes, 413, GET, loc)
    else made.Made? && made.reply.resp.status == 200 && Carries(made.reply, "", content)
  }

  /** Opening a directory to send it is not modelled: it counts as a throw. */
  predicate AnswersGet(made: Made, nodes: map<string, Node>, path: string, loc: Location, names: seq<string>)
    requires loc.root != "" && |loc.root| <= |path|
  {
    var indexed := Indexed(nodes, path, loc);
    if Listed(nodes, path, loc) then AnswersListing(made, path, loc, names)
    else if indexed !in nodes then AnswersError(made, nodes, 404, GET, loc)
    else if nodes[indexed].Directory? then made.Threw?
    else AnswersFile(made, nodes, nodes[indexed].content, loc)
  }

  predicate AnswersHead(made: Made, nodes: map<string, Node>, path: string, loc: Location, names: seq<string>)
    requires loc.root != "" && |loc.root| <= |path|
  {
    if Listed(nodes, path, loc) then AnswersListing(made, path, loc, names)
    else if Indexed(nodes, path, loc) !in nodes then AnswersError(made, nodes, 404, HEAD, loc)
    else AnswersPlainly(made, 200)
  }

  /** On an orderly tree a file is either made, in directories made for it, or in
      conflict with another file; then nothing is made. */
  ghost predicate AnswersNew(made: Made, before: map<string, Node>, after: map<string, Node>, path: string,
                             verb: Method, loc: Location)
    requires loc.root != ""
  {
    if TreeClosed(before) && Plain(path) && '/' in path then
      if Blocked(before, path) then after == before && AnswersError(made, before, 409, verb, loc)
      else AnswersPlainly(made, 201) && made.reply.resp.kind == TypePost && Created(before, after, path)
    else
      made.Made? && made.reply.resp.kind == TypePost ==>
        AnswersPlainly(made, 201) && path in after && after[path] == Regular("")
  }

  ghost predicate Created(before: map<string, Node>, after: map<string, Node>, path: string) {
    path in after && after[path] == Regular("") && DirectoriesMade(before, after - {path}, path)
  }

  ghost predicate AnswersPost(made: Made, before: map<string, Node>, after: map<string, Node>, path: string, loc: Location)
    requires loc.root != ""
  {
    if path in before then after == before && AnswersPlainly(made, 301)
    else AnswersNew(made, before, after, path, POST, loc)
  }

  ghost predicate AnswersPut(made: Made, before: map<string, Node>, after: map<string, Node>, path: string, loc: Location)
    requires loc.root != ""
  {
    if path !in before then AnswersNew(made, before, after, path, PUT, loc)
    else if before[path].Directory? then after == before && made.Threw?
    else after == before[path := Regular("")] && AnswersPlainly(made, 200) && made.reply.resp.kind == TypePost
  }

  /** What becomes of a directory that is deleted is not modelled. */
  predicate AnswersDelete(made: Made, before: map<string, Node>, after: map<string, Node>, path: string, loc: Location)
    requires loc.root != ""
  {
    if path !in before then after == before && AnswersError(made, before, 404, DELETE, loc)
    else AnswersPlainly(made, 200) && (before[path].Directory? || after == before - {path})
  }

  /** Such a request is redirected, thrown at, or looked up under the root. */
  predicate HasRoot(uri: string, loc: Location) {
    loc.redirStatus == -1 && |loc.id| <= |uri| ==> loc.root != ""
  }

  /** Where a POST to what exists is sent on to: what is left of its URI below the
      location, else where the location redirects to. */
  function LeadsOn(nodes: map<string, Node>, uri: string, loc: Location): string
    requires |loc.id| <= |uri| && loc.root != ""
  {
    if Located(uri, loc) !in nodes then ""
    else if uri[|loc.id|..] != "" then uri[|loc.id|..]
    else if loc.redirPath != "" then loc.redirPath
    else "index.html"
  }

  /** Where a request that nothing is wrong with as such is sent on to, if it is. */
  function LocationTold(nodes: map<string, Node>, h: Head, loc: Location): string
    requires HasRoot(h.uri, loc)
  {
    if loc.redirStatus != -1 then if loc.redirPath != "" then loc.redirPath else "index.html"
    else if h.verb.POST? && |loc.id| <= |h.uri| then LeadsOn(nodes, h.uri, loc)
    else ""
  }

  function TypeOfGet(nodes: map<string, Node>, path: string, loc: Location, typeOf: string -> string): string
    requires path != ""
  {
    var indexed := Indexed(nodes, path, loc);
    if IsFileAt(nodes, indexed) && |nodes[indexed].content| > SizeT(loc.maxBodySize) then ""
    else TypeOfHead(nodes, path, loc, typeOf)
  }

  function TypeOfHead(nodes: map<string, Node>, path: string, loc: Location, typeOf: string -> string): string
    requires path != ""
  {
    if Listed(nodes, path, loc) || Indexed(nodes, path, loc) !in nodes then "" else typeOf(Indexed(nodes, path, loc))
  }

  /** Only what is sent from a file that is there has a type. */
  function TypeTold(nodes: map<string, Node>, h: Head, loc: Location, typeOf: string -> string): string
    requires HasRoot(h.uri, loc)
  {
    if loc.redirStatus != -1 || |loc.id| > |h.uri| then ""
    else if h.verb.GET? then TypeOfGet(nodes, Located(h.uri, loc), loc, typeOf)
    else if h.verb.HEAD? then TypeOfHead(nodes, Located(h.uri, loc), loc, typeOf)
    else ""
  }

  /** The answer to a request that nothing is wrong with as such. */
  ghost predicate Answers(made: Made, before: map<string, Node>, after: map<string, Node>, verb: Method, uri: string,
                          loc: Location, names: seq<string>)
    requires HasRoot(uri, loc)
  {
    if loc.redirStatus != -1 then after == before && AnswersPlainly(made, loc.redirStatus)
    else if |loc.id| > |uri| then after == before && made.Threw?
    else
      var path := Located(uri, loc);
      match verb
      case GET => after == before && AnswersGet(made, before, path, loc, names)
      case HEAD => after == before && AnswersHead(made, before, path, loc, names)
      case POST => AnswersPost(made, before, after, path, loc)
      case PUT => AnswersPut(made, before, after, path, loc)
      case DELETE => AnswersDelete(made, before, after, path, loc)
      case NotImplemented => true
  }

  /** Descriptors opened on the way: they are new, and nothing else is put to close. */
  predicate AddsNew(wasOpen: set<int>, wasClosing: set<int>, open: set<int>, closing: set<int>) {
    && wasOpen <= open
    && wasClosing <= closing
    && (forall fd :: fd in closing && fd !in wasClosing ==> fd in open && fd !in wasOpen)
  }

  predicate IsAdded(fd: int, wasOpen: set<int>, wasClosing: set<int>, open: set<int>, closing: set<int>) {
    fd in open && fd !in wasOpen && (fd in closing ==> fd in wasClosing)
  }

  twostate predicate OnlyNew(d: Descriptors)
    reads d
  {
    AddsNew(old(d.open), old(d.closing), d.open, d.closing)
  }

  /** The descriptor of a response, if it has one, was opened for it and stays open. */
  twostate predicate OwnsNew(d: Descriptors, fd: int)
    reads d
  {
    fd == -1 || IsAdded(fd, old(d.open), old(d.closing), d.open, d.closing)
  }

  class ResponseFactory {
    const fs: FileSystem
    const d: Descriptors
    const messageOf: int -> string
    const contentTypeOf: string -> string

    var httpVersion: string
    var statusCode: int
    var message: string
    var contentLength: nat
    var contentType: string
    var location: string
    var cookies: string

    ghost function View(): Statics
      reads this
    {
      Statics(httpVersion, statusCode, message, contentLength, contentType, location, cookies)
    }

    constructor (fs: FileSystem, d: Descriptors, messageOf: int -> string, contentTypeOf: string -> string)
      ensures this.fs == fs && this.d == d && this.messageOf == messageOf && this.contentTypeOf == contentTypeOf
    {
      this.fs, this.d, this.messageOf, this.contentTypeOf := fs, d, messageOf, contentTypeOf;
      httpVersion, statusCode, message, contentLength := "", 200, "", 0;
      contentType, location, cookies := "", "", "";
    }

    /** What a client will read in the header, apart from the length. */
    ghost predicate Says(made: Made, version: string, contentType: string, location: string)
      reads this
    {
      made.Made? ==>
        var code := made.reply.resp.status;
        View() == Statics(version, code, messageOf(code), View().contentLength, contentType, location, "")
    }

    method Initialize()
      modifies this
      ensures View() == Statics("", 200, "", 0, "", "", "")
    {
      httpVersion, statusCode, message, contentLength := "", 200, "", 0;
      contentType, location, cookies := "", "", "";
    }

    method MakeHeader() returns (h: string)
      ensures h == Header(View())
    {
      h := httpVersion + " " + SignedDecimal(statusCode) + " " + message + CRLF;
      var fields := LENGTH + Decimal(contentLength) + CRLF;
      var rest := "";
      if contentType != "" {
        rest := rest + (TYPE + contentType + CRLF);
      }
      assert rest == Optional(TYPE, contentType);
      var more := "";
      if location != "" {
        more := more + (LOCATION + location + CRLF);
      }
      assert more == Optional(LOCATION, location);
      var last := "";
      if cookies != "" {
        last := last + (COOKIE + cookies + CRLF);
      }
      assert last == Optional(COOKIE, cookies);
      last := last + CRLF;
      h := h + (fields + (rest + (more + last)));
    }

    /** A response that is its header, and perhaps a file. */
    method NewReply(kind: ResponseType, state: SendingState, extra: string, source: string, fd: int) returns (reply: Reply)
      requires contentLength == |extra| + |source|
      requires state.DownloadingInit? || (state.SendingStorage? && source == "")
      ensures WellMade(reply, View()) && reply.extra == extra && reply.source == source
      ensures reply.resp.kind == kind && reply.resp.state == state && reply.resp.fd == fd
      ensures reply.resp.status == statusCode
    {
      var header := MakeHeader();
      reply := Reply(NewResponse(kind, state, header + extra, "", statusCode, |source|, fd), extra, source);
    }

    /** The configured error page if it can be opened, else the default one. */
    method OpenErrorPage(code: int, loc: Location) returns (fd: int, page: string)
      requires HasPlace(loc, code)
      modifies d`open
      ensures fd >= 0 ==> fd !in old(d.open) && d.open == old(d.open) + {fd} && ErrorPage(fs.nodes, code, loc) == Page(page)
      ensures fd < 0 ==> fd == -1 && d.open == old(d.open) && ErrorPage(fs.nodes, code, loc) == NoPage
    {
      if code in loc.errorPages {
        var path := Joined(loc.root, loc.errorPages[code]);
        if IsFileAt(fs.nodes, path) {
          fd := d.Open();
          return fd, fs.nodes[path].content;
        }
      }
      var path := DefaultPage(code);
      if IsFileAt(fs.nodes, path) {
        fd := d.Open();
        return fd, fs.nodes[path].content;
      }
      return -1, "";
    }

    method ErrorResponse(code: int, verb: Method, version: string, loc: Location) returns (made: Made)
      requires HasPlace(loc, code)
      modifies this, d
      ensures OnlyNew(d)
      ensures AnswersError(made, fs.nodes, code, verb, loc) && Says(made, version, "", "")
      ensures made.Made? ==> WellMade(made.reply, View()) && SuitsError(verb, made.reply.resp)
                             && OwnsNew(d, made.reply.resp.fd) && made.reply.resp.status == code
    {
      hide WellMade, Joined, ErrorPage;
      Initialize();
      var kind := if verb.POST? || verb.PUT? then TypeFlushErr else TypeGet;
      var state := DownloadingInit;
      var fd, page := OpenErrorPage(code, loc);
      if fd == -1 {
        return Threw;
      }
      if verb.HEAD? {
        d.RegisterToClose(fd);
        kind, state, fd, page := TypeDel, SendingStorage, -1, "";
      }
      httpVersion := version;
      statusCode := code;
      message := messageOf(statusCode);
      if fd != -1 {
        contentLength := |page|;
      }
      var reply := NewReply(kind, state, "", page, fd);
      return Made(reply);
    }

    method RedirResponse(code: int, verb: Method, version: string, loc: Location, field: string) returns (made: Made)
      requires View() == Statics("", 200, "", 0, "", "", "")
      modifies this
      ensures AnswersPlainly(made, code) && WellMade(made.reply, View()) && Suits(verb, made.reply.resp)
      ensures made.reply.resp.fd == -1
      ensures made.reply.resp.kind == if verb.POST? then TypeFlush else TypeDel
      ensures Says(made, version, "", if field != "" then field else if loc.redirPath != "" then loc.redirPath else "index.html")
    {
      var kind := TypeDel;
      httpVersion := version;
      statusCode := code;
      message := messageOf(statusCode);
      if field == "" {
        location := if loc.redirPath == "" then "index.html" else loc.redirPath;
      } else {
        location := field;
      }
      if verb.POST? {
        kind := TypeFlush;
      }
      var reply := NewReply(kind, SendingStorage, "", "", -1);
      return Made(reply);
    }

    /** The page listing a directory rides in the header string. */
    method AutoIndexResponse(verb: Method, version: string, loc: Location, path: string, names: seq<string>) returns (made: Made)
      requires verb.GET? || verb.HEAD?
      requires View() == Statics("", 200, "", 0, "", "", "") && |loc.root| <= |path|
      modifies this
      ensures AnswersListing(made, path, loc, names) && Says(made, version, "", "")
      ensures WellMade(made.reply, View()) && Suits(verb, made.reply.resp) && made.reply.resp.fd == -1
    {
      hide WellMade, Entries, Shown;
      var body := "<html><head><title> Index of / " + path + " / </title></head>\n";
      body := body + ("<body><h1> Index of / " + path + " / </h1><hr>\n");
      var entries := ListEntries(path[|loc.root|..], names);
      body := body + entries + "<hr></body></html>";
      httpVersion := version;
      statusCode := 200;
      message := messageOf(statusCode);
      contentLength := |body|;
      var reply := NewReply(TypeDel, SendingStorage, body, "", -1);
      return Made(reply);
    }

    method ListEntries(link: string, names: seq<string>) returns (entries: string)
      ensures entries == Entries(link, names, Shown(names, 0))
    {
      entries := "";
      var i := 0;
      while i < |names| && names[i] != ""
        invariant i <= |names|
        invariant Shown(names, i) == Shown(names, 0) && entries == Entries(link, names, i)
      {
        hide Entry;
        if names[i] != "." {
          var entry := MakeEntry(link, names[i]);
          entries := entries + entry;
        }
        i := i + 1;
      }
    }

    method MakeEntry(link: string, name: string) returns (entry: string)
      ensures entry == Entry(link, name)
    {
      entry := "<pre><a href = \"" + link;
      if entry[|entry| - 1] != '/' {
        entry := entry + "/";
      }
      entry := entry + name + "\">" + name + "/</a></pre>\n";
    }

    /** The path a GET or HEAD is answered from, or the sign that a listing is due. */
    method IndexedPath(fm: FileManager, loc: Location) returns (listing: bool)
      requires fm.fs == fs && fm.absolutePath != "" && fm.Informed()
      modifies fm
      ensures fm.Informed()
      ensures listing == Listed(fs.nodes, old(fm.absolutePath), loc)
      ensures fm.absolutePath == Indexed(fs.nodes, old(fm.absolutePath), loc)
    {
      listing := false;
      if fm.isExist && fm.isDirectory {
        if loc.indexPage == "" && loc.autoIndex {
          return true;
        } else if loc.indexPage == "" {
          fm.AppendToPath("index.html");
        } else {
          fm.AppendToPath(loc.indexPage);
        }
      }
    }

    /** Where the configuration points a URI. */
    ghost predicate Resolves(uri: string, loc: Location) {
      |loc.id| <= |uri| && loc.root != ""
    }

    method GetResponse(uri: string, version: string, loc: Location, names: seq<string>) returns (made: Made)
      requires Resolves(uri, loc) && View() == Statics("", 200, "", 0, "", "", "")
      modifies this, d
      ensures OnlyNew(d)
      ensures AnswersGet(made, fs.nodes, Located(uri, loc), loc, names)
      ensures Says(made, version, TypeOfGet(fs.nodes, Located(uri, loc), loc, contentTypeOf), "")
      ensures made.Made? ==> WellMade(made.reply, View()) && Suits(GET, made.reply.resp)
                             && OwnsNew(d, made.reply.resp.fd)
    {
      hide WellMade, Joined;
      var fm := new FileManager(fs, uri, loc);
      var listing := IndexedPath(fm, loc);
      if listing {
        made := AutoIndexResponse(GET, version, loc, fm.absolutePath, names);
        return;
      }
      if !fm.isExist {
        made := ErrorResponse(404, GET, version, loc);
        return;
      }
      if fm.isDirectory {
        return Threw;
      }
      made := FileResponse(fm.absolutePath, fs.nodes[fm.absolutePath].content, version, loc);
    }

    /** The rest of `_getResponse`, for a file that has been found. */
    method FileResponse(path: string, content: string, version: string, loc: Location) returns (made: Made)
      requires loc.root != "" && View() == Statics("", 200, "", 0, "", "", "")
      modifies this, d
      ensures OnlyNew(d)
      ensures AnswersFile(made, fs.nodes, content, loc)
      ensures Says(made, version, if |content| > SizeT(loc.maxBodySize) then "" else contentTypeOf(path), "")
      ensures made.Made? ==> WellMade(made.reply, View()) && Suits(GET, made.reply.resp)
                             && OwnsNew(d, made.reply.resp.fd)
    {
      hide WellMade;
      var kind, state, page := TypeGet, DownloadingInit, content;
      var fd := d.Open();
      contentLength := |page|;
      if contentLength > SizeT(loc.maxBodySize) {
        made := ErrorResponse(413, GET, version, loc);
        return;
      } else if contentLength == 0 {
        d.RegisterToClose(fd);
        kind, state, fd := TypeDel, SendingStorage, -1;
      }
      httpVersion := version;
      statusCode := 200;
      message := messageOf(statusCode);
      contentType := contentTypeOf(path);
      var reply := NewReply(kind, state, "", page, fd);
      return Made(reply);
    }

    method HeadResponse(uri: string, version: string, loc: Location, names: seq<string>) returns (made: Made)
      requires Resolves(uri, loc) && View() == Statics("", 200, "", 0, "", "", "")
      modifies this, d
      ensures OnlyNew(d)
      ensures AnswersHead(made, fs.nodes, Located(uri, loc), loc, names)
      ensures Says(made, version, TypeOfHead(fs.nodes, Located(uri, loc), loc, contentTypeOf), "")
      ensures made.Made? ==> WellMade(made.reply, View()) && Suits(HEAD, made.reply.resp)
                             && OwnsNew(d, made.reply.resp.fd)
    {
      hide WellMade, Joined;
      var fm := new FileManager(fs, uri, loc);
      var listing := IndexedPath(fm, loc);
      if listing {
        made := AutoIndexResponse(HEAD, version, loc, fm.absolutePath, names);
        return;
      }
      if !fm.isExist {
        made := ErrorResponse(404, HEAD, version, loc);
        return;
      }
      httpVersion := version;
      statusCode := 200;
      message := messageOf(statusCode);
      contentType := contentTypeOf(fm.absolutePath);
      var reply := NewReply(TypeDel, SendingStorage, "", "", -1);
      return Made(reply);
    }

    method PostResponse(uri: string, version: string, loc: Location) returns (made: Made)
      requires Resolves(uri, loc) && View() == Statics("", 200, "", 0, "", "", "")
      modifies this, d, fs
      ensures OnlyNew(d)
      ensures AnswersPost(made, old(fs.nodes), fs.nodes, Located(uri, loc), loc)
      ensures Says(made, version, "", LeadsOn(old(fs.nodes), uri, loc))
      ensures made.Made? ==> WellMade(made.reply, View()) && Suits(POST, made.reply.resp)
                             && OwnsNew(d, made.reply.resp.fd)
    {
      hide WellMade, Joined, AnswersNew;
      var fm := new FileManager(fs, uri, loc);
      if fm.isExist {
        made := RedirResponse(301, POST, version, loc, uri[|loc.id|..]);
        return;
      }
      made := NewFileResponse(fm, POST, version, loc);
    }

    /** The part of `_postResponse` and `_putResponse` for a file that is not there. */
    method NewFileResponse(fm: FileManager, verb: Method, version: string, loc: Location) returns (made: Made)
      requires fm.fs == fs && fm.absolutePath !in fs.nodes && loc.root != "" && (verb.POST? || verb.PUT?)
      requires View() == Statics("", 200, "", 0, "", "", "")
      modifies this, d, fs, fm`conflict
      ensures OnlyNew(d)
      ensures AnswersNew(made, old(fs.nodes), fs.nodes, fm.absolutePath, verb, loc) && Says(made, version, "", "")
      ensures made.Made? ==> WellMade(made.reply, View()) && Suits(verb, made.reply.resp)
                             && OwnsNew(d, made.reply.resp.fd)
    {
      hide WellMade, Blocked, DirectoriesMade, TreeClosed, Plain;
      var conflict := fm.IsConflict();
      if conflict {
        made := ErrorResponse(409, verb, version, loc);
        return;
      }
      ghost var cleared := fs.nodes;
      NewIsFree(old(fs.nodes), cleared, fm.absolutePath);
      if fm.absolutePath in fs.nodes || !ParentIsDirectory(fs.nodes, fm.absolutePath) {
        return Threw;
      }
      var fd := d.Open();
      fs.nodes := fs.nodes[fm.absolutePath := Regular("")];
      assert fs.nodes - {fm.absolutePath} == cleared;
      httpVersion := version;
      statusCode := 201;
      message := messageOf(statusCode);
      var reply := NewReply(TypePost, SendingStorage, "", "", fd);
      return Made(reply);
    }

    method PutResponse(uri: string, version: string, loc: Location) returns (made: Made)
      requires Resolves(uri, loc) && View() == Statics("", 200, "", 0, "", "", "")
      modifies this, d, fs
      ensures OnlyNew(d)
      ensures AnswersPut(made, old(fs.nodes), fs.nodes, Located(uri, loc), loc) && Says(made, version, "", "")
      ensures made.Made? ==> WellMade(made.reply, View()) && Suits(PUT, made.reply.resp)
                             && OwnsNew(d, made.reply.resp.fd)
    {
      hide WellMade, Joined, AnswersNew;
      var fm := new FileManager(fs, uri, loc);
      if !fm.isExist {
        made := NewFileResponse(fm, PUT, version, loc);
        return;
      }
      if fm.isDirectory {
        return Threw;
      }
      var fd := d.Open();
      fs.nodes := fs.nodes[fm.absolutePath := Regular("")];
      statusCode := 200;
      httpVersion := version;
      message := messageOf(statusCode);
      var reply := NewReply(TypePost, SendingStorage, "", "", fd);
      return Made(reply);
    }

    method DeleteResponse(uri: string, version: string, loc: Location) returns (made: Made)
      requires Resolves(uri, loc) && View() == Statics("", 200, "", 0, "", "", "")
      modifies this, d, fs
      ensures OnlyNew(d)
      ensures AnswersDelete(made, old(fs.nodes), fs.nodes, Located(uri, loc), loc) && Says(made, version, "", "")
      ensures made.Made? ==> WellMade(made.reply, View()) && Suits(DELETE, made.reply.resp)
                             && OwnsNew(d, made.reply.resp.fd)
    {
      hide WellMade, Joined;
      var fm := new FileManager(fs, uri, loc);
      if !fm.isExist {
        made := ErrorResponse(404, DELETE, version, loc);
        return;
      }
      if !fm.isDirectory {
        fs.nodes := fs.nodes - {fm.absolutePath};
      }
      httpVersion := version;
      statusCode := 200;
      message := messageOf(statusCode);
      var reply := NewReply(TypeDel, SendingStorage, "", "", -1);
      return Made(reply);
    }

    /** The response to a parsed request. */
    method MakeResponse(req: Request, loc: Location, names: seq<string>) returns (made: Made)
      requires req.pos <= |req.held|
      requires if Objection(req, loc) == 0 then HasRoot(req.head.uri, loc) else HasPlace(loc, Objection(req, loc))
      modifies this, d, fs
      ensures OnlyNew(d)
      ensures made.Made? ==> WellMade(made.reply, View()) && Suits(req.head.verb, made.reply.resp)
                             && OwnsNew(d, made.reply.resp.fd)
      ensures if Objection(req, loc) == 0 then Answers(made, old(fs.nodes), fs.nodes, req.head.verb, req.head.uri, loc, names)
              else fs.nodes == old(fs.nodes) && AnswersError(made, fs.nodes, Objection(req, loc), req.head.verb, loc)
      ensures made.Made? && Objection(req, loc) != 0 ==> SuitsError(req.head.verb, made.reply.resp)
      // What a client reads, once it has been sent this.
      ensures made.Made? && OneLine(View()) ==>
                var c := ReadMessage(made.reply.resp.held + made.reply.source);
                && c.version == req.head.httpVersion && c.code == made.reply.resp.status && c.message == messageOf(c.code)
                && c.length == |c.body| && c.cookies == ""
                && (Objection(req, loc) != 0 ==> c.code == Objection(req, loc) && c.location == "" && c.contentType == "")
                && (Objection(req, loc) == 0 ==> c.location == LocationTold(old(fs.nodes), req.head, loc)
                                                 && c.contentType == TypeTold(old(fs.nodes), req.head, loc, contentTypeOf))
    {
      hide WellMade, Answers, AnswersError, OneLine, ReadMessage, LocationTold, TypeTold;
      var verb, uri, version := req.head.verb, req.head.uri, req.head.httpVersion;
      Initialize();
      if req.state == BadRequest {
        made := ErrorResponse(400, verb, version, loc);
        ReplyIsRead(made, View());
        return;
      }
      if version != "HTTP/1.1" {
        made := ErrorResponse(505, verb, version, loc);
        ReplyIsRead(made, View());
        return;
      }
      if verb == NotImplemented {
        made := ErrorResponse(501, verb, version, loc);
        ReplyIsRead(made, View());
        return;
      }
      if VerbName(verb) !in loc.allowedMethods {
        made := ErrorResponse(405, verb, version, loc);
        ReplyIsRead(made, View());
        return;
      }
      if !req.head.chunked && Int32(|req.held| - req.pos) > loc.maxBodySize {
        made := ErrorResponse(413, verb, version, loc);
        ReplyIsRead(made, View());
        return;
      }
      made := AcceptedResponse(req, loc, names);
      ReplyIsRead(made, View());
    }

    /** The response to what a CGI program answered; `bodySize` bytes are to follow. */
    method MakeCgiResponse(cgi: CgiResponse, verb: Method, version: string, loc: Location) returns (made: Made)
      requires cgi.storage.Valid() && cgi.bodySize >= 0
      requires if cgi.parsingState == CgiError then HasPlace(loc, 500) else version != "HTTP/1.1" ==> HasPlace(loc, 505)
      modifies this, d
      ensures OnlyNew(d)
      ensures
        if cgi.parsingState == CgiError then AnswersError(made, fs.nodes, 500, verb, loc)
        else if version != "HTTP/1.1" then AnswersError(made, fs.nodes, 505, verb, loc)
        else
          && View() == Statics(version, cgi.head.statusCode, cgi.head.statusMessage, cgi.bodySize,
                               cgi.head.contentType, "", cgi.head.cookies)
          && made.Made?
          && forall body: string :: |body| == cgi.bodySize ==>
               made.reply.resp == CgiReply(Header(View()), cgi.storage.Unread(), body, cgi.head.statusCode, -1)
    {
      hide Header, Joined;
      Initialize();
      var state := DownloadingInit;
      if cgi.parsingState == CgiError {
        made := ErrorResponse(500, verb, version, loc);
        return;
      }
      if version != "HTTP/1.1" {
        made := ErrorResponse(505, verb, version, loc);
        return;
      }
      httpVersion := version;
      statusCode := cgi.head.statusCode;
      message := cgi.head.statusMessage;
      contentLength := cgi.bodySize;
      contentType := cgi.head.contentType;
      cookies := cgi.head.cookies;
      if contentLength == 0 {
        state := SendingStorage;
      }
      var header := MakeHeader();
      var extra := cgi.storage.cells[cgi.storage.readPos..cgi.storage.writePos];
      assert extra == cgi.storage.Unread();
      return Made(Reply(NewResponse(TypeCgi, state, header, extra, statusCode, contentLength, -1), extra, ""));
    }

    /** The rest of `makeResponse`, once nothing is wrong with the request as such. */
    method AcceptedResponse(req: Request, loc: Location, names: seq<string>) returns (made: Made)
      requires HasRoot(req.head.uri, loc) && View() == Statics("", 200, "", 0, "", "", "")
      requires req.head.verb != NotImplemented
      modifies this, d, fs
      ensures OnlyNew(d)
      ensures made.Made? ==> WellMade(made.reply, View()) && Suits(req.head.verb, made.reply.resp)
                             && OwnsNew(d, made.reply.resp.fd)
      ensures Answers(made, old(fs.nodes), fs.nodes, req.head.verb, req.head.uri, loc, names)
      ensures Says(made, req.head.httpVersion, TypeTold(old(fs.nodes), req.head, loc, contentTypeOf),
                   LocationTold(old(fs.nodes), req.head, loc))
    {
      hide WellMade, AnswersGet, AnswersHead, AnswersPost, AnswersPut, AnswersDelete, Located;
      var verb, uri, version := req.head.verb, req.head.uri, req.head.httpVersion;
      if loc.redirStatus != -1 {
        made := RedirResponse(loc.redirStatus, verb, version, loc, "");
        return;
      }
      if |loc.id| > |uri| {
        // `substr` beyond the end, in the path built first by each of the five.
        return Threw;
      }
      match verb {
        case GET => made := GetResponse(uri, version, loc, names);
        case HEAD => made := HeadResponse(uri, version, loc, names);
        case POST => made := PostResponse(uri, version, loc);
        case PUT => made := PutResponse(uri, version, loc);
        case DELETE => made := DeleteResponse(uri, version, loc);
      }
    }
  }

  /** Once its directories are there, and it is not, a path can be made a file. */
  lemma {:induction false} NewIsFree(before: map<string, Node>, nodes: map<string, Node>, path: string)
    requires path !in before
    ensures Plain(path) && '/' in path && DirectoriesMade(before, nodes, path) ==>
              path !in nodes && ParentIsDirectory(nodes, path)
  {
    if Plain(path) && '/' in path && DirectoriesMade(before, nodes, path) {
      var cut := LastIndexOf(path, '/');
      assert cut >= 0 && path[cut] == '/';
    }
  }
}
