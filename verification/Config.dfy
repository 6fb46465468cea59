/** The configuration file: servers, their locations, and the map from location
    paths to locations that requests are resolved with. */
module Config {
  import opened Text
  import RequestModel

  const DEFAULT_MAX_BODY_SIZE := INT_MAX
  const PORT_MAX := 65535
  const TAB := '\t'

  datatype Location = Location(
    id: string, maxBodySize: int, root: string, errorPages: map<int, string>, allowedMethods: seq<string>,
    cgiExtension: string, indexPage: string, autoIndex: bool, redirStatus: int, redirPath: string)

  datatype Server = Server(
    port: int, name: string, root: string, maxBodySize: int, errorPages: map<int, string>, locations: map<string, Location>)

  datatype Result<T> = Parsed(value: T) | Refused

  /** What the other settings mean: whether a value is accepted, and what it does. */
  datatype Settings = Settings(
    accepts: (string, string) -> bool,
    atServer: (Server, string, string) -> Server,
    atLocation: (Location, string, string) -> Location)

  // -------------------------------------------------------------- splitting

  function Join(pieces: seq<string>, c: char): string {
    if pieces == [] then ""
    else if |pieces| == 1 then pieces[0]
    else Join(pieces[..|pieces| - 1], c) + [c] + pieces[|pieces| - 1]
  }

  lemma {:induction false} JoinMore(pieces: seq<string>, piece: string, c: char)
    requires pieces != []
    ensures Join(pieces + [piece], c) == Join(pieces, c) + [c] + piece
  {
    assert (pieces + [piece])[..|pieces|] == pieces;
  }

  lemma {:induction false} JoinReaches(pieces: seq<string>, c: char, s: string, from: nat, to: nat)
    requires from <= to <= |s|
    requires if pieces == [] then from == 0 else Join(pieces, c) + [c] == s[..from]
    ensures Join(pieces + [s[from..to]], c) == s[..to]
  {
    if pieces == [] {
      assert pieces + [s[from..to]] == [s[..to]];
    } else {
      JoinMore(pieces, s[from..to], c);
      assert s[..from] + s[from..to] == s[..to];
    }
  }

  /** `_split` by a one-character delimiter, undone by `Join`. */
  method Split(s: string, c: char) returns (pieces: seq<string>)
    ensures pieces != [] && Join(pieces, c) == s
    ensures forall i :: 0 <= i < |pieces| ==> c !in pieces[i]
  {
    pieces := [];
    var from := 0;
    var at := IndexFrom(s, c, from);
    while at < |s|
      invariant from <= at <= |s| && at == IndexFrom(s, c, from)
      invariant pieces == [] ==> from == 0
      invariant pieces != [] ==> from > 0 && Join(pieces, c) + [c] == s[..from]
      invariant forall i :: 0 <= i < |pieces| ==> c !in pieces[i]
      decreases |s| - from
    {
      JoinReaches(pieces, c, s, from, at);
      pieces := pieces + [s[from..at]];
      assert s[..at] + [c] == s[..at + 1];
      from := at + 1;
      at := IndexFrom(s, c, from);
    }
    JoinReaches(pieces, c, s, from, |s|);
    assert s[..|s|] == s && s[from..] == s[from..|s|];
    pieces := pieces + [s[from..]];
  }

  function TabCount(s: string): (n: nat)
    ensures n <= |s|
  {
    TabsFrom(s, 0)
  }

  function TabsFrom(s: string, from: nat): (n: nat)
    requires from <= |s|
    ensures from <= n <= |s|
    decreases |s| - from
  {
    if from < |s| && s[from] == TAB then TabsFrom(s, from + 1) else from
  }

  function TrimLeft(s: string): string {
    s[BlanksFrom(s, 0)..]
  }

  function BlanksFrom(s: string, from: nat): (n: nat)
    requires from <= |s|
    ensures from <= n <= |s|
    decreases |s| - from
  {
    if from < |s| && (s[from] == TAB || s[from] == ' ') then BlanksFrom(s, from + 1) else from
  }

  // ---------------------------------------------------------------- parsing

  function DefaultLocation(server: Server): Location {
    Location("/", server.maxBodySize, server.root, server.errorPages, ["GET", "POST", "HEAD", "PUT", "DELETE"],
             "", "", false, -1, "")
  }

  /** Every location is stored under its own id. */
  ghost predicate KeysAreIds(locations: map<string, Location>) {
    forall key :: key in locations ==> locations[key].id == key
  }

  /** The other settings change neither what a location is the location of, nor the
      port and the locations of a server. */
  ghost predicate KeepsId(settings: Settings) {
    && (forall l, id, v :: settings.atLocation(l, id, v).id == l.id)
    && (forall s, id, v :: settings.atServer(s, id, v).locations == s.locations && settings.atServer(s, id, v).port == s.port)
  }

  predicate EndsBlock(line: string) {
    line == "server" || line == "\n"
  }

  predicate SameBlock(lines: seq<string>, at: nat, next: nat) {
    at <= next <= |lines| && forall i :: at <= i < next ==> !EndsBlock(lines[i])
  }

  /** How many blocks the first `to` lines begin. */
  function Blocks(lines: seq<string>, to: nat): nat
    requires to <= |lines|
  {
    if to == 0 then 0 else Blocks(lines, to - 1) + (if lines[to - 1] == "server" then 1 else 0)
  }

  lemma {:induction false} NoBlocksWithin(lines: seq<string>, at: nat, next: nat)
    requires SameBlock(lines, at, next)
    ensures Blocks(lines, next) == Blocks(lines, at)
    decreases next - at
  {
    if at < next {
      NoBlocksWithin(lines, at, next - 1);
    }
  }

  // ------------------------------------------------- what a block says

  /** What was read, and the line where the reading stopped. */
  datatype Read<T> = Read(result: Result<T>, next: nat)

  function AtLocation(loc: Location, line: string, settings: Settings): Result<Location> {
    var delim := IndexOf(line, ':');
    if delim == |line| then if line == "autoindex" then Parsed(loc.(autoIndex := true)) else Refused
    else
      var identifier, value := line[..delim], TrimLeft(line[delim + 1..]);
      if identifier == "root" then Parsed(loc.(root := value))
      else if settings.accepts(identifier, value) then Parsed(settings.atLocation(loc, identifier, value))
      else Refused
  }

  function LocationFrom(lines: seq<string>, at: nat, loc: Location, settings: Settings): (r: Read<Location>)
    requires at <= |lines|
    ensures at <= r.next <= |lines|
    decreases |lines| - at
  {
    if at == |lines| || EndsBlock(lines[at]) || TabCount(lines[at]) != 2 then Read(Parsed(loc), at)
    else
      var after := AtLocation(loc, lines[at][2..], settings);
      if after.Refused? then Read(Refused, at) else LocationFrom(lines, at + 1, after.value, settings)
  }

  function StartOfLocation(server: Server, id: string): Location {
    DefaultLocation(server).(id := id, root := server.root + id)
  }

  function AtServer(info: Server, identifier: string, value: string, settings: Settings): Result<Server> {
    if identifier == "root" then Parsed(info.(root := value))
    else if identifier == "port" then
      var port := StreamInt(value, 0);
      if port < 1 || port > PORT_MAX then Refused else Parsed(info.(port := port))
    else if identifier == "server_name" then Parsed(info.(name := value))
    else if settings.accepts(identifier, value) then Parsed(settings.atServer(info, identifier, value))
    else Refused
  }

  function ServerFrom(lines: seq<string>, at: nat, info: Server, settings: Settings): (r: Read<Server>)
    requires at <= |lines|
    ensures at <= r.next <= |lines|
    decreases |lines| - at
  {
    if at == |lines| || EndsBlock(lines[at]) then Read(Parsed(info), at)
    else
      var line := lines[at][TabCount(lines[at])..];
      var identifier, value := Before(line, ':'), TrimLeft(Beyond(line, ':'));
      if Count(line, ':') != 1 then Read(Refused, at)
      else if identifier == "location" then
        var r := LocationFrom(lines, at + 1, StartOfLocation(info, value), settings);
        if r.result.Refused? then Read(Refused, r.next)
        else ServerFrom(lines, r.next, info.(locations := info.locations[value := r.result.value]), settings)
      else
        var after := AtServer(info, identifier, value, settings);
        if after.Refused? then Read(Refused, at) else ServerFrom(lines, at + 1, after.value, settings)
  }

  function BlocksFrom(lines: seq<string>, at: nat, settings: Settings): Result<seq<Server>>
    requires at <= |lines|
    decreases |lines| - at
  {
    if at == |lines| then Parsed([])
    else if lines[at] != "server" then Refused
    else
      var r := ServerFrom(lines, at + 1, INITIAL, settings);
      if r.result.Refused? then Refused
      else
        Prefixed([Completed(r.result.value)], BlocksFrom(lines, r.next, settings))
  }

  predicate PortsDiffer(infos: seq<Server>) {
    forall i, j :: 0 <= i < j < |infos| ==> infos[i].port != infos[j].port
  }

  const ERROR_CODES := [400, 402, 404, 405, 413, 500, 501, 502, 503, 504, 505]

  /** Each of these codes has a page below the root. */
  function InitialPages(): map<int, string> {
    map code: nat | code in ERROR_CODES :: code := "/error_pages/" + Decimal(code) + ".html"
  }

  const INITIAL := Server(RequestModel.HTTP_DEFAULT_PORT, "", "", DEFAULT_MAX_BODY_SIZE, InitialPages(), map[])

  /** A server without a location is given one. */
  function Completed(info: Server): Server {
    if info.locations == map[] then info.(locations := map["/" := DefaultLocation(info)]) else info
  }

  lemma {:induction false} PiecesAreCounted(pieces: seq<string>, c: char)
    requires pieces != [] && forall i :: 0 <= i < |pieces| ==> c !in pieces[i]
    ensures Count(Join(pieces, c), c) == |pieces| - 1
  {
    if |pieces| == 1 {
      CountNone(pieces[0], c, |pieces[0]|);
    } else {
      var front, last := pieces[..|pieces| - 1], pieces[|pieces| - 1];
      PiecesAreCounted(front, c);
      CountNone(last, c, |last|);
      assert CountBefore([c], c, 0) == 0;
      CountJoined(Join(front, c), [c], c);
      CountJoined(Join(front, c) + [c], last, c);
    }
  }

  /** Two pieces are what is before the delimiter and what is after it. */
  lemma {:induction false} TwoPieces(s: string, pieces: seq<string>, c: char)
    requires pieces != [] && Join(pieces, c) == s && forall i :: 0 <= i < |pieces| ==> c !in pieces[i]
    ensures |pieces| == 2 <==> Count(s, c) == 1
    ensures |pieces| == 2 ==> pieces[0] == Before(s, c) && pieces[1] == Beyond(s, c)
  {
    PiecesAreCounted(pieces, c);
    if |pieces| == 2 {
      assert pieces[..1] == [pieces[0]];
      CutAt(pieces[0], c, pieces[1]);
    }
  }

  method ParseLocation(lines: seq<string>, at: nat, server: Server, id: string, settings: Settings)
    returns (location: Result<Location>, next: nat)
    requires at <= |lines| && KeepsId(settings)
    ensures Read(location, next) == LocationFrom(lines, at, StartOfLocation(server, id), settings)
    ensures SameBlock(lines, at, next)
    ensures location.Parsed? ==> location.value.id == id
    ensures location.Parsed? && next < |lines| ==> EndsBlock(lines[next]) || TabCount(lines[next]) != 2
  {
    next := at;
    var loc := DefaultLocation(server).(id := id, root := server.root + id);
    while next < |lines| && !EndsBlock(lines[next])
      invariant SameBlock(lines, at, next) && loc.id == id
      invariant LocationFrom(lines, at, StartOfLocation(server, id), settings) == LocationFrom(lines, next, loc, settings)
    {
      var tabs := TabCount(lines[next]);
      if tabs != 2 {
        break;
      }
      var line := lines[next][tabs..];
      var delim := IndexOf(line, ':');
      if delim == |line| {
        if line != "autoindex" {
          return Refused, next;
        }
        loc := loc.(autoIndex := true);
      } else {
        var identifier, value := line[..delim], TrimLeft(line[delim + 1..]);
        if identifier == "root" {
          loc := loc.(root := value);
        } else if settings.accepts(identifier, value) {
          loc := settings.atLocation(loc, identifier, value);
        } else {
          return Refused, next;
        }
      }
      next := next + 1;
    }
    return Parsed(loc), next;
  }

  /** One setting of a server. */
  method SetAtServer(server: Server, identifier: string, value: string, settings: Settings) returns (info: Result<Server>)
    requires KeepsId(settings) && 1 <= server.port <= PORT_MAX
    ensures info == AtServer(server, identifier, value, settings)
    ensures info.Parsed? ==> info.value.locations == server.locations && 1 <= info.value.port <= PORT_MAX
  {
    if identifier == "root" {
      return Parsed(server.(root := value));
    } else if identifier == "port" {
      var port := StreamInt(value, 0);
      if port < 1 || port > PORT_MAX {
        return Refused;
      }
      return Parsed(server.(port := port));
    } else if identifier == "server_name" {
      return Parsed(server.(name := value));
    } else if settings.accepts(identifier, value) {
      return Parsed(settings.atServer(server, identifier, value));
    }
    return Refused;
  }

  method ParseServer(lines: seq<string>, at: nat, settings: Settings)
    returns (server: Result<Server>, next: nat)
    requires at <= |lines| && KeepsId(settings)
    ensures var r := ServerFrom(lines, at, INITIAL, settings);
            next == r.next && server == if r.result.Parsed? then Parsed(Completed(r.result.value)) else Refused
    ensures SameBlock(lines, at, next)
    ensures server.Parsed? ==> KeysAreIds(server.value.locations) && server.value.locations != map[]
    ensures server.Parsed? ==> 1 <= server.value.port <= PORT_MAX && (next == |lines| || EndsBlock(lines[next]))
  {
    hide Count, Join, Before, Beyond, LocationFrom, AtServer, StreamInt, TrimLeft;
    next := at;
    var info := INITIAL;
    while next < |lines| && !EndsBlock(lines[next])
      invariant SameBlock(lines, at, next) && KeysAreIds(info.locations) && 1 <= info.port <= PORT_MAX
      invariant ServerFrom(lines, at, INITIAL, settings) == ServerFrom(lines, next, info, settings)
      decreases |lines| - next
    {
      ghost var line := lines[next][TabCount(lines[next])..];
      var pieces := Split(lines[next][TabCount(lines[next])..], ':');
      TwoPieces(line, pieces, ':');
      if |pieces| != 2 {
        return Refused, next;
      }
      var identifier, value := pieces[0], TrimLeft(pieces[1]);
      if identifier == "location" {
        var location;
        location, next := ParseLocation(lines, next + 1, info, value, settings);
        if location.Refused? {
          return Refused, next;
        }
        info := info.(locations := info.locations[value := location.value]);
      } else {
        var changed := SetAtServer(info, identifier, value, settings);
        if changed.Refused? {
          return Refused, next;
        }
        info := changed.value;
        next := next + 1;
      }
    }
    if info.locations == map[] {
      info := info.(locations := map["/" := DefaultLocation(info)]);
      assert "/" in info.locations;
    }
    return Parsed(info), next;
  }

  // ------------------------------------------------- blocks as they are written

  /** A location that has its root from its server, or one of its own. */
  datatype Place = Inherits(id: string) | Rooted(id: string, root: string)

  /** A value that is read as it stands. */
  predicate PlainValue(s: string) {
    ':' !in s && (s != "" ==> s[0] != TAB && s[0] != ' ')
  }

  function SettingLine(tabs: string, name: string, value: string): string {
    tabs + (name + ":" + value)
  }

  predicate Writable(p: Place) {
    PlainValue(p.id) && (p.Rooted? ==> PlainValue(p.root))
  }

  function PlaceLines(p: Place): seq<string> {
    if p.Inherits? then [SettingLine("\t", "location", p.id)]
    else [SettingLine("\t", "location", p.id), SettingLine("\t\t", "root", p.root)]
  }

  function PlacesLines(places: seq<Place>): seq<string> {
    if places == [] then [] else PlaceLines(places[0]) + PlacesLines(places[1..])
  }

  /** A server block: its port, name and root, then its locations. */
  function Block(port: nat, name: string, root: string, places: seq<Place>): seq<string> {
    [SettingLine("\t", "port", Decimal(port)), SettingLine("\t", "server_name", name), SettingLine("\t", "root", root)]
    + PlacesLines(places)
  }

  /** The locations by their ids; of two with one id, the later one. */
  function Placed(before: map<string, Location>, places: seq<Place>, root: string): map<string, Location>
    decreases |places|
  {
    if places == [] then before
    else
      var p := places[0];
      var location := Location(p.id, INT_MAX, if p.Rooted? then p.root else root + p.id, InitialPages(),
                               ["GET", "POST", "HEAD", "PUT", "DELETE"], "", "", false, -1, "");
      Placed(before[p.id := location], places[1..], root)
  }

  lemma {:induction false} SettingIsCut(tabs: string, name: string, value: string)
    requires (tabs == "\t" || tabs == "\t\t") && name != "" && name[0] != TAB && ':' !in name && PlainValue(value)
    ensures var line := SettingLine(tabs, name, value);
            && TabCount(line) == |tabs| && line[|tabs|..] == name + ":" + value && !EndsBlock(line)
            && Before(name + ":" + value, ':') == name && TrimLeft(Beyond(name + ":" + value, ':')) == value
            && Count(name + ":" + value, ':') == 1
  {
    var line := SettingLine(tabs, name, value);
    assert line[|tabs|..] == name + ":" + value && line[|tabs|] == name[0] && line[0] == TAB;
    assert TabsFrom(line, |tabs|) == |tabs|;
    if |tabs| == 2 {
      assert line[1] == tabs[1] == TAB;
      assert TabsFrom(line, 1) == 2;
    }
    assert TabsFrom(line, 0) == |tabs|;
    CutAt(name, ':', value);
    assert BlanksFrom(value, 0) == 0;
    CountNone(name, ':', |name|);
    CountNone(value, ':', |value|);
    assert CountBefore(":", ':', 0) == 0;
    CountJoined(name, ":", ':');
    CountJoined(name + ":", value, ':');
  }

  lemma {:induction false} PortIsSet(port: nat, info: Server, settings: Settings)
    requires 1 <= port <= PORT_MAX
    ensures PlainValue(Decimal(port)) && AtServer(info, "port", Decimal(port), settings) == Parsed(info.(port := port))
  {
    var digits := Decimal(port);
    assert forall i :: 0 <= i < |digits| ==> Digit(digits[i]) < 10;
    assert Digit(digits[0]) < 10 && SkipSpace(digits, 0) == 0 && DigitRun(digits, 10, 0) == |digits|;
  }

  lemma {:induction false} ServerStep(lines: seq<string>, at: nat, info: Server, settings: Settings,
                                      name: string, value: string, after: Server)
    requires at < |lines| && lines[at] == SettingLine("\t", name, value) && PlainValue(value)
    requires name == "port" || name == "server_name" || name == "root"
    requires AtServer(info, name, value, settings) == Parsed(after)
    ensures ServerFrom(lines, at, info, settings) == ServerFrom(lines, at + 1, after, settings)
  {
    hide AtServer, Count, Before, Beyond, TrimLeft, TabCount, SettingLine, EndsBlock;
    SettingIsCut("\t", name, value);
  }

  lemma {:induction false} NextIsNoDetail(places: seq<Place>)
    requires (forall i :: 0 <= i < |places| ==> Writable(places[i])) && places != []
    ensures PlacesLines(places) != [] && TabCount(PlacesLines(places)[0]) == 1
  {
    SettingIsCut("\t", "location", places[0].id);
  }

  lemma {:induction false} PlaceIsRead(lines: seq<string>, at: nat, loc: Location, p: Place, settings: Settings)
    requires at < |lines| && Writable(p) && PlaceLines(p) <= lines[at..]
    requires var next := at + |PlaceLines(p)|; next < |lines| ==> TabCount(lines[next]) != 2
    ensures LocationFrom(lines, at + 1, loc, settings)
         == Read(Parsed(if p.Rooted? then loc.(root := p.root) else loc), at + |PlaceLines(p)|)
  {
    hide TabCount, TrimLeft, AtLocation, EndsBlock;
    if p.Rooted? {
      SettingIsCut("\t\t", "root", p.root);
      assert lines[at + 1] == lines[at..][1] == SettingLine("\t\t", "root", p.root);
      RootIsSet(loc, p.root, settings);
    }
  }

  lemma {:induction false} RootIsSet(loc: Location, root: string, settings: Settings)
    requires PlainValue(root)
    ensures AtLocation(loc, "root" + ":" + root, settings) == Parsed(loc.(root := root))
  {
    var line := "root" + ":" + root;
    SettingIsCut("\t\t", "root", root);
    assert line[4] == ':' && forall k :: 0 <= k < 4 ==> line[k] == "root"[k];
    assert IndexOf(line, ':') == 4 && line[..4] == "root" && line[5..] == root;
  }

  lemma {:induction false} LocationStep(lines: seq<string>, at: nat, info: Server, settings: Settings, id: string, r: Read<Location>)
    requires at < |lines| && lines[at] == SettingLine("\t", "location", id) && PlainValue(id)
    requires r == LocationFrom(lines, at + 1, StartOfLocation(info, id), settings) && r.result.Parsed?
    ensures ServerFrom(lines, at, info, settings)
         == ServerFrom(lines, r.next, info.(locations := info.locations[id := r.result.value]), settings)
  {
    hide AtServer, Count, Before, Beyond, TrimLeft, TabCount, SettingLine, EndsBlock, LocationFrom;
    SettingIsCut("\t", "location", id);
  }

  lemma PlaceBegins(p: Place)
    ensures PlaceLines(p) != [] && PlaceLines(p)[0] == SettingLine("\t", "location", p.id)
  {
    hide SettingLine;
  }

  lemma ServerHasNoTabs()
    ensures TabCount("server") == 0
  {
    assert "server"[0] == 's';
  }

  /** The settings that its locations have from a server are as they were at first. */
  predicate IsPlain(info: Server) {
    info.maxBodySize == INT_MAX && info.errorPages == InitialPages()
  }

  lemma {:induction false} OnePlace(lines: seq<string>, at: nat, info: Server, p: Place, settings: Settings)
    requires at < |lines| && Writable(p) && PlaceLines(p) <= lines[at..] && IsPlain(info)
    requires var next := at + |PlaceLines(p)|; next < |lines| ==> TabCount(lines[next]) != 2
    ensures at + |PlaceLines(p)| <= |lines|
    ensures ServerFrom(lines, at, info, settings)
         == ServerFrom(lines, at + |PlaceLines(p)|, info.(locations := Placed(info.locations, [p], info.root)), settings)
  {
    hide LocationFrom, TabCount, SettingLine, ServerFrom, InitialPages;
    PlaceBegins(p);
    assert lines[at] == lines[at..][0];
    var start := StartOfLocation(info, p.id);
    PlaceIsRead(lines, at, start, p, settings);
    LocationStep(lines, at, info, settings, p.id, LocationFrom(lines, at + 1, start, settings));
    var loc := if p.Rooted? then start.(root := p.root) else start;
    assert [p][1..] == [] && Placed(info.locations, [p], info.root) == info.locations[p.id := loc];
  }

  lemma {:induction false} PlacesAreRead(lines: seq<string>, at: nat, info: Server, places: seq<Place>, more: seq<string>,
                                         settings: Settings)
    requires at <= |lines| && lines[at..] == PlacesLines(places) + more && IsPlain(info)
    requires (forall i :: 0 <= i < |places| ==> Writable(places[i])) && (more != [] ==> more[0] == "server")
    ensures ServerFrom(lines, at, info, settings)
         == Read(Parsed(info.(locations := Placed(info.locations, places, info.root))), |lines| - |more|)
    decreases |places|
  {
    hide LocationFrom, TabCount, SettingLine, PlaceLines, ServerFrom, InitialPages, Placed;
    if places == [] {
      assert PlacesLines(places) + more == more;
      BlockIsOver(lines, at, info, more, settings);
    } else {
      PlainStays(info, Placed(info.locations, [places[0]], info.root));
      var p, n, tail := places[0], |PlaceLines(places[0])|, PlacesLines(places[1..]) + more;
      PlaceBegins(p);
      assert lines[at..] == PlaceLines(p) + tail;
      assert lines[at + n..] == lines[at..][n..] == tail;
      NextIsOther(places[1..], more);
      assert tail != [] ==> lines[at + n] == lines[at + n..][0] == tail[0];
      OnePlace(lines, at, info, p, settings);
      OneThenOthers(info.locations, places, info.root);
      PlacesAreRead(lines, at + n, info.(locations := Placed(info.locations, [p], info.root)), places[1..], more, settings);
    }
  }

  lemma PlainStays(info: Server, locations: map<string, Location>)
    requires IsPlain(info)
    ensures IsPlain(info.(locations := locations))
  {
  }

  lemma BlockIsOver(lines: seq<string>, at: nat, info: Server, more: seq<string>, settings: Settings)
    requires at <= |lines| && lines[at..] == more && (more != [] ==> more[0] == "server")
    ensures ServerFrom(lines, at, info, settings)
         == Read(Parsed(info.(locations := Placed(info.locations, [], info.root))), |lines| - |more|)
  {
    assert more != [] ==> lines[at] == more[0];
  }

  lemma OneThenOthers(before: map<string, Location>, places: seq<Place>, root: string)
    requires places != []
    ensures Placed(before, places, root) == Placed(Placed(before, [places[0]], root), places[1..], root)
  {
    assert [places[0]][1..] == [];
  }

  lemma {:induction false} NextIsOther(places: seq<Place>, more: seq<string>)
    requires (forall i :: 0 <= i < |places| ==> Writable(places[i])) && (more != [] ==> more[0] == "server")
    ensures var tail := PlacesLines(places) + more; tail != [] ==> TabCount(tail[0]) != 2
  {
    hide TabCount, PlaceLines;
    ServerHasNoTabs();
    if places != [] {
      NextIsNoDetail(places);
    }
  }

  /** What a block is written from. */
  datatype Sketch = Sketch(port: nat, name: string, root: string, places: seq<Place>)

  predicate IsWritable(w: Sketch) {
    1 <= w.port <= PORT_MAX && PlainValue(w.name) && PlainValue(w.root) && forall i :: 0 <= i < |w.places| ==> Writable(w.places[i])
  }

  function SketchedServer(w: Sketch): Server {
    Server(w.port, w.name, w.root, INT_MAX, InitialPages(), Placed(map[], w.places, w.root))
  }

  function ConfigText(ws: seq<Sketch>): seq<string> {
    if ws == [] then []
    else ["server"] + (Block(ws[0].port, ws[0].name, ws[0].root, ws[0].places) + ConfigText(ws[1..]))
  }

  function SketchedServers(ws: seq<Sketch>): seq<Server> {
    if ws == [] then [] else [Completed(SketchedServer(ws[0]))] + SketchedServers(ws[1..])
  }

  lemma {:induction false} ServersInOrder(ws: seq<Sketch>)
    ensures |SketchedServers(ws)| == |ws| && forall i :: 0 <= i < |ws| ==> SketchedServers(ws)[i] == Completed(SketchedServer(ws[i]))
  {
    hide Completed, SketchedServer;
    if ws != [] {
      ServersInOrder(ws[1..]);
    }
  }

  /** A block is read back as the port, the name, the root and the locations that it was
      written with, whatever the other settings are. */
  lemma {:induction false} BlockIsRead(lines: seq<string>, at: nat, w: Sketch, more: seq<string>, settings: Settings)
    requires IsWritable(w) && (more != [] ==> more[0] == "server")
    requires at <= |lines| && lines[at..] == Block(w.port, w.name, w.root, w.places) + more
    ensures ServerFrom(lines, at, INITIAL, settings) == Read(Parsed(SketchedServer(w)), |lines| - |more|)
  {
    hide ServerFrom, SettingLine, AtServer, Placed;
    var s1 := INITIAL.(port := w.port);
    var s2 := s1.(name := w.name);
    var s3 := s2.(root := w.root);
    PortIsSet(w.port, INITIAL, settings);
    NameAndRootAreSet(s1, w.name, s2, w.root, settings);
    var tail := lines[at..];
    assert lines[at] == tail[0] && lines[at + 1] == tail[1] && lines[at + 2] == tail[2];
    ServerStep(lines, at, INITIAL, settings, "port", Decimal(w.port), s1);
    ServerStep(lines, at + 1, s1, settings, "server_name", w.name, s2);
    ServerStep(lines, at + 2, s2, settings, "root", w.root, s3);
    assert lines[at + 3..] == tail[3..] == PlacesLines(w.places) + more;
    PlacesAreRead(lines, at + 3, s3, w.places, more, settings);
  }

  lemma {:induction false} BlockThenMore(lines: seq<string>, at: nat, ws: seq<Sketch>, settings: Settings)
    requires at <= |lines| && lines[at..] == ConfigText(ws) && forall i :: 0 <= i < |ws| ==> IsWritable(ws[i])
    ensures BlocksFrom(lines, at, settings) == Parsed(SketchedServers(ws))
    decreases |ws|
  {
    hide ServerFrom, Block, SketchedServer, Completed;
    if ws != [] {
      var w, more := ws[0], ConfigText(ws[1..]);
      assert lines[at] == lines[at..][0];
      assert lines[at + 1..] == lines[at..][1..] == Block(w.port, w.name, w.root, w.places) + more;
      assert ws[1..] != [] ==> more[0] == "server";
      BlockIsRead(lines, at + 1, w, more, settings);
      var next := |lines| - |more|;
      assert lines[next..] == lines[at..][|lines[at..]| - |more|..] == more;
      BlockThenMore(lines, next, ws[1..], settings);
    }
  }

  /** A file of blocks is read back as the servers that they were written from. */
  lemma {:induction false} FileIsRead(ws: seq<Sketch>, settings: Settings)
    requires forall i :: 0 <= i < |ws| ==> IsWritable(ws[i])
    ensures var read := BlocksFrom(ConfigText(ws), 0, settings);
            && read.Parsed? && |read.value| == |ws|
            && forall i :: 0 <= i < |ws| ==> read.value[i] == Completed(SketchedServer(ws[i]))
  {
    hide BlocksFrom, ConfigText;
    ServersInOrder(ws);
    assert ConfigText(ws)[0..] == ConfigText(ws);
    BlockThenMore(ConfigText(ws), 0, ws, settings);
  }

  lemma NameAndRootAreSet(s1: Server, name: string, s2: Server, root: string, settings: Settings)
    ensures AtServer(s1, "server_name", name, settings) == Parsed(s1.(name := name))
    ensures AtServer(s2, "root", root, settings) == Parsed(s2.(root := root))
  {
  }

  /** `_startParse`, and `_setPorts` after it. */
  method Parse(lines: seq<string>, settings: Settings) returns (servers: Result<seq<Server>>)
    requires KeepsId(settings)
    ensures servers == if lines == [] then Parsed([Completed(INITIAL)])
                       else var read := BlocksFrom(lines, 0, settings);
                            if read.Parsed? && PortsDiffer(read.value) then read else Refused
    ensures servers.Parsed? ==>
              && |servers.value| == (if lines == [] then 1 else Blocks(lines, |lines|))
              && (forall i :: 0 <= i < |servers.value| ==> KeysAreIds(servers.value[i].locations))
              && (forall i, j :: 0 <= i < j < |servers.value| ==> servers.value[i].port != servers.value[j].port)
  {
    hide BlocksFrom;
    var read := ReadBlocks(lines, settings);
    if read.Refused? {
      return Refused;
    }
    var infos := read.value;
    if lines == [] {
      infos := [INITIAL.(locations := map["/" := DefaultLocation(INITIAL)])];
    }
    var ports: set<int> := {};
    for k := 0 to |infos|
      invariant ports == set i | 0 <= i < k :: infos[i].port
      invariant PortsDiffer(infos[..k])
    {
      assert infos[..k + 1] == infos[..k] + [infos[k]];
      if infos[k].port in ports {
        ghost var i :| 0 <= i < k && infos[i].port == infos[k].port;
        assert !PortsDiffer(infos) && |infos| > 1;
        return Refused;
      }
      ports := ports + {infos[k].port};
    }
    assert infos[..|infos|] == infos;
    return Parsed(infos);
  }

  /** `_startParse`. */
  method ReadBlocks(lines: seq<string>, settings: Settings) returns (servers: Result<seq<Server>>)
    requires KeepsId(settings)
    ensures servers == BlocksFrom(lines, 0, settings)
    ensures if lines == [] then servers == Parsed([]) else servers.Parsed? ==> servers.value != []
    ensures servers.Parsed? ==>
              && |servers.value| == Blocks(lines, |lines|)
              && forall i :: 0 <= i < |servers.value| ==> KeysAreIds(servers.value[i].locations)
  {
    hide ServerFrom, KeysAreIds;
    var infos: seq<Server> := [];
    var next := 0;
    NothingBefore(BlocksFrom(lines, 0, settings));
    while next < |lines|
      invariant next <= |lines| && |infos| == Blocks(lines, next) && (next > 0 <==> infos != [])
      invariant forall i :: 0 <= i < |infos| ==> KeysAreIds(infos[i].locations)
      invariant BlocksFrom(lines, 0, settings) == Prefixed(infos, BlocksFrom(lines, next, settings))
    {
      if lines[next] != "server" {
        return Refused;
      }
      var server;
      ghost var begin := next + 1;
      server, next := ParseServer(lines, next + 1, settings);
      NoBlocksWithin(lines, begin, next);
      if server.Refused? {
        return Refused;
      }
      OneMore(infos, server.value, BlocksFrom(lines, next, settings));
      infos := infos + [server.value];
    }
    assert infos + [] == infos;
    return Parsed(infos);
  }

  /** The servers read so far, then the others. */
  function Prefixed(infos: seq<Server>, rest: Result<seq<Server>>): Result<seq<Server>> {
    if rest.Parsed? then Parsed(infos + rest.value) else Refused
  }

  lemma NothingBefore(rest: Result<seq<Server>>)
    ensures Prefixed([], rest) == rest
  {
    if rest.Parsed? {
      assert [] + rest.value == rest.value;
    }
  }

  lemma OneMore(infos: seq<Server>, info: Server, rest: Result<seq<Server>>)
    ensures Prefixed(infos, Prefixed([info], rest)) == Prefixed(infos + [info], rest)
  {
    if rest.Parsed? {
      assert infos + ([info] + rest.value) == infos + [info] + rest.value;
    }
  }
}
