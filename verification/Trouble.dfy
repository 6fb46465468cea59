/** The first place where a stream is not what the parser is built for, read off its
    bytes: a line that is empty even without its CR, or a size line that is no number. */
module Trouble {
  import opened Text
  import opened RequestModel
  import opened Segmentation

  /** What comes after the line that is the trouble, if there is one. */
  datatype Trouble = Smooth | Bare(rest: string) | Refused(rest: string)

  function InChunks(u: string, chunkSize: int): (t: Trouble)
    requires chunkSize >= -1
    decreases |u|, 1
  {
    var line, rest := LineOf(u), AfterLine(u);
    if chunkSize != -1 then InData(u, chunkSize)
    else if line == "" then if HasLine(u) then Bare(rest) else Smooth
    else if ChunkSize(line) == -1 then Refused(rest)
    else InData(rest, ChunkSize(line))
  }

  function InData(u: string, chunkSize: int): (t: Trouble)
    requires chunkSize >= 0
    decreases |u|, 0
  {
    if chunkSize == 0 then if HasLine(u) && LineOf(u) == "" then Bare(AfterLine(u)) else Smooth
    else if |u| > chunkSize + 2 then InChunks(u[chunkSize + 2..], -1)
    else Smooth
  }

  function InBody(h: Head, u: string, chunkSize: int): (t: Trouble)
    requires chunkSize >= -1
  {
    if h.chunked then InChunks(u, chunkSize) else Smooth
  }

  function InFields(h: Head, u: string, chunkSize: int): (t: Trouble)
    requires chunkSize >= -1
    decreases |u|
  {
    var line, rest := LineOf(u), AfterLine(u);
    if line == "" then if HasLine(u) then Bare(rest) else Smooth
    else if line == [CR] then InBody(h, rest, chunkSize)
    else if !WellFormedField(h, line) then Smooth
    else InFields(Field(h, line), rest, chunkSize)
  }

  function InStart(h: Head, u: string, chunkSize: int): (t: Trouble)
    requires chunkSize >= -1
  {
    var line, rest := LineOf(u), AfterLine(u);
    if line == "" then if HasLine(u) then Bare(rest) else Smooth
    else if !WellFormedStart(line) then Smooth
    else InFields(StartLine(h, line), rest, chunkSize)
  }

  function InScan(state: ParsingState, h: Head, u: string, chunkSize: int): (t: Trouble)
    requires chunkSize >= -1 && StillParsing(state)
  {
    if state.ParsingInit? then InStart(h, u, chunkSize)
    else if state.ParsingHeader? then InFields(h, u, chunkSize)
    else InBody(h, u, chunkSize)
  }

  function Of(r: Request): (t: Trouble)
    requires r.Valid()
  {
    if StillParsing(r.state) then InScan(r.state, r.head, r.Unread(), r.chunkSize) else Smooth
  }

  /** The same trouble with more bytes after it. */
  function Followed(t: Trouble, more: string): Trouble {
    match t
    case Smooth => Smooth
    case Bare(rest) => Bare(rest + more)
    case Refused(rest) => Refused(rest + more)
  }

  /** Trouble that comes too late to matter: no line follows the empty one, or too little
      follows the refused size for the walk to step on. */
  predicate Harmless(t: Trouble) {
    match t
    case Smooth => true
    case Bare(rest) => LF !in rest
    case Refused(rest) => |rest| <= 1
  }

  // -------------------------------------------- what the parser makes of it

  /** Where the walk stops, by the trouble it meets. */
  predicate WalkStops(w: Walked, t: Trouble) {
    match t
    case Smooth => !Odd(w)
    case Bare(rest) => w.bare && !w.bad && !w.found && w.left == rest && w.chunkSize <= 0
    case Refused(rest) =>
      && w.bad && |w.left| <= |rest|
      && (|rest| <= 1 ==> w == Walked(false, -1, rest, true, false))
      && (|rest| == 2 ==> !w.found && |w.left| < |rest|)
  }

  lemma {:induction false} WalkMeets(u: string, chunkSize: int)
    requires chunkSize >= -1 && |u| <= INT_MAX
    ensures WalkStops(Walk(u, chunkSize, false), InChunks(u, chunkSize))
    decreases |u|, 1
  {
    if chunkSize != -1 {
      DataMeets(u, chunkSize);
    } else if LineOf(u) != "" {
      var size, rest := ChunkSize(LineOf(u)), AfterLine(u);
      if size == -1 {
        RefusedWalksOn(rest);
      } else {
        DataMeets(rest, size);
      }
    }
  }

  lemma {:induction false} DataMeets(u: string, chunkSize: int)
    requires chunkSize >= 0 && |u| <= INT_MAX
    ensures WalkStops(WalkData(u, chunkSize, false), InData(u, chunkSize))
    decreases |u|, 0
  {
    if chunkSize != 0 && |u| > chunkSize + 2 {
      WalkMeets(u[chunkSize + 2..], -1);
    }
  }

  /** After a refused size the walk steps one byte on, if two are there, and goes on. */
  lemma {:induction false} RefusedWalksOn(rest: string)
    requires |rest| <= INT_MAX
    ensures WalkStops(WalkData(rest, -1, true), Refused(rest))
  {
    BadStays(rest, -1);
    if |rest| > 1 {
      var next := rest[1..];
      if |rest| == 2 && HasLine(next) {
        assert next == [LF] && LineOf(next) == "";
      }
    }
  }

  /** A pass that meets trouble. */
  predicate Stops(o: Outcome, t: Trouble) {
    match t
    case Smooth => !o.odd
    case Bare(rest) =>
      && o.odd && StillParsing(o.state) && o.left == rest
      && (o.state.ParsingBody? ==> o.head.chunked && o.chunkSize <= 0)
    case Refused(rest) =>
      && o.odd && |o.left| <= |rest|
      && (|rest| <= 1 ==> o.state.BadRequest? && o.left == rest)
      && (|rest| == 2 ==> o.state.BadRequest? && |o.left| < |rest|)
  }

  lemma {:induction false} BodyMeets(h: Head, u: string, chunkSize: int)
    requires chunkSize >= -1 && |u| <= INT_MAX
    ensures Stops(ScanBody(h, u, chunkSize), InBody(h, u, chunkSize))
  {
    hide Walk, InChunks;
    WalkMeets(u, chunkSize);
  }

  lemma {:induction false} FieldsMeet(h: Head, u: string, chunkSize: int)
    requires chunkSize >= -1
    ensures var s := Fields(h, u);
            InFields(h, u, chunkSize) == match s.end
                                         case NoLine => Smooth
                                         case BareLine => Bare(s.left)
                                         case Malformed => Smooth
                                         case Blank => InBody(s.head, s.left, chunkSize)
    decreases |u|
  {
    hide InBody, Field, WellFormedField;
    var line, rest := LineOf(u), AfterLine(u);
    if line != "" && line != [CR] && WellFormedField(h, line) {
      FieldsMeet(Field(h, line), rest, chunkSize);
    }
  }

  lemma {:induction false} HeadMeets(h: Head, u: string, chunkSize: int)
    requires chunkSize >= -1 && |u| <= INT_MAX
    ensures Stops(ScanHead(h, u, chunkSize), InFields(h, u, chunkSize))
  {
    hide Fields, InFields, InBody, ScanBody;
    var s := Fields(h, u);
    FieldsMeet(h, u, chunkSize);
    BodyMeets(s.head, s.left, chunkSize);
  }

  lemma {:induction false} ScanMeets(state: ParsingState, h: Head, u: string, chunkSize: int)
    requires chunkSize >= -1 && StillParsing(state) && |u| <= INT_MAX
    ensures Stops(Scan(state, h, u, chunkSize), InScan(state, h, u, chunkSize))
  {
    hide ScanHead, InFields, ScanBody, InBody, WellFormedStart, StartLine;
    if state.ParsingInit? {
      if LineOf(u) != "" && WellFormedStart(LineOf(u)) {
        HeadMeets(StartLine(h, LineOf(u)), AfterLine(u), chunkSize);
      }
    } else if state.ParsingHeader? {
      HeadMeets(h, u, chunkSize);
    } else {
      BodyMeets(h, u, chunkSize);
    }
  }

  // --------------------------------------------------- trouble and more bytes

  /** Trouble that more bytes do not take the walk past. */
  predicate Stuck(t: Trouble, more: string) {
    t.Bare? || (t.Refused? && |t.rest + more| <= 1)
  }

  lemma {:induction false} ChunksGrow(u: string, more: string, chunkSize: int)
    requires chunkSize >= -1 && |u + more| <= INT_MAX
    ensures var t, t', w := InChunks(u, chunkSize), InChunks(u + more, chunkSize), Walk(u, chunkSize, false);
            && (t != Smooth ==> t' == Followed(t, more))
            && (t == Smooth ==> t' == if w.found then Smooth else InChunks(w.left + more, w.chunkSize))
            && (Stuck(t, more) ==> Walk(u + more, chunkSize, false) == w.(left := w.left + more))
    decreases |u|, 1
  {
    if chunkSize != -1 {
      DataGrow(u, more, chunkSize);
    } else if HasLine(u) {
      LineGrows(u, more);
      var size := ChunkSize(LineOf(u));
      if LineOf(u) != "" && size != -1 {
        DataGrow(AfterLine(u), more, size);
      }
    }
  }

  lemma {:induction false} DataGrow(u: string, more: string, chunkSize: int)
    requires chunkSize >= 0 && |u + more| <= INT_MAX
    ensures var t, t', w := InData(u, chunkSize), InData(u + more, chunkSize), WalkData(u, chunkSize, false);
            && (t != Smooth ==> t' == Followed(t, more))
            && (t == Smooth ==> t' == if w.found then Smooth else InChunks(w.left + more, w.chunkSize))
            && (Stuck(t, more) ==> WalkData(u + more, chunkSize, false) == w.(left := w.left + more))
    decreases |u|, 0
  {
    if chunkSize == 0 {
      if HasLine(u) { LineGrows(u, more); }
    } else if |u| > chunkSize + 2 {
      assert (u + more)[chunkSize + 2..] == u[chunkSize + 2..] + more;
      ChunksGrow(u[chunkSize + 2..], more, -1);
    }
  }

  /** `t'` is the trouble of more bytes than `t` is of, of which `o` is made. */
  predicate Grown(t: Trouble, o: Outcome, more: string, t': Trouble)
    requires StillParsing(o.state) ==> o.chunkSize >= -1
  {
    if t != Smooth then t' == Followed(t, more)
    else if StillParsing(o.state) then t' == InScan(o.state, o.head, o.left + more, o.chunkSize)
    else t' == Smooth
  }

  /** The pass over more bytes stops where it did. */
  predicate Stays(o: Outcome, more: string, o': Outcome) {
    o' == o.(left := o.left + more, body := if o.began then o.body + more else "")
  }

  lemma {:induction false} BodyTrouble(h: Head, u: string, more: string, chunkSize: int)
    requires chunkSize >= -1 && |u + more| <= INT_MAX
    ensures var t, o := InBody(h, u, chunkSize), ScanBody(h, u, chunkSize);
            && Grown(t, o, more, InBody(h, u + more, chunkSize))
            && (Stuck(t, more) ==> Stays(o, more, ScanBody(h, u + more, chunkSize)))
  {
    hide Walk, InChunks;
    ChunksGrow(u, more, chunkSize);
    WalkMeets(u, chunkSize);
  }

  lemma {:induction false} FieldsTrouble(h: Head, u: string, more: string, chunkSize: int)
    requires chunkSize >= -1 && |u + more| <= INT_MAX
    ensures var t, o := InFields(h, u, chunkSize), ScanHead(h, u, chunkSize);
            && Grown(t, o, more, InFields(h, u + more, chunkSize))
            && (Stuck(t, more) ==> Stays(o, more, ScanHead(h, u + more, chunkSize)))
  {
    hide Fields, InFields, ScanBody, InBody;
    FieldsGrow(h, u, more);
    FieldsMeet(h, u, chunkSize);
    FieldsMeet(h, u + more, chunkSize);
    var s := Fields(h, u);
    if s.end == NoLine {
      FieldsMeet(s.head, s.left + more, chunkSize);
    } else if s.end == Blank {
      BodyTrouble(s.head, s.left, more, chunkSize);
    }
  }

  lemma {:induction false} ScanTrouble(state: ParsingState, h: Head, u: string, more: string, chunkSize: int)
    requires chunkSize >= -1 && StillParsing(state) && |u + more| <= INT_MAX
    ensures var t, o := InScan(state, h, u, chunkSize), Scan(state, h, u, chunkSize);
            && Grown(t, o, more, InScan(state, h, u + more, chunkSize))
            && (Stuck(t, more) ==> Stays(o, more, Scan(state, h, u + more, chunkSize)))
  {
    hide ScanHead, InFields, ScanBody, InBody, WellFormedStart, StartLine;
    if state.ParsingInit? {
      if HasLine(u) {
        LineGrows(u, more);
        if WellFormedStart(LineOf(u)) {
          FieldsTrouble(StartLine(h, LineOf(u)), AfterLine(u), more, chunkSize);
        }
      }
    } else if state.ParsingHeader? {
      FieldsTrouble(h, u, more, chunkSize);
    } else {
      BodyTrouble(h, u, more, chunkSize);
    }
  }

  // ------------------------------------------------------ where trouble ends

  /** The bytes up to and including the line that is the trouble. */
  function UpTo(u: string, t: Trouble): string
    requires t != Smooth && |t.rest| <= |u|
  {
    u[..|u| - |t.rest|]
  }

  function Bareness(t: Trouble): Trouble
    requires t != Smooth
  {
    if t.Bare? then Bare("") else Refused("")
  }

  predicate EndsAt(t: Trouble, u: string, early: Trouble)
    requires t != Smooth && |t.rest| <= |u|
  {
    IsTail(t.rest, u) && |t.rest| < |u| && early == Bareness(t)
  }

  lemma {:induction false} FirstLineCut(u: string, rest: string)
    requires HasLine(u) && IsTail(rest, AfterLine(u))
    ensures var v := AfterLine(u);
            && IsTail(rest, u) && |rest| < |u| && |rest| <= |v|
            && HasLine(u[..|u| - |rest|]) && LineOf(u[..|u| - |rest|]) == LineOf(u)
            && AfterLine(u[..|u| - |rest|]) == v[..|v| - |rest|]
  {
    var v, line := AfterLine(u), LineOf(u);
    LineSplits(u);
    TailOfTail(rest, v, u);
    assert u[..|u| - |rest|] == line + [LF] + v[..|v| - |rest|];
    LineAt(line, v[..|v| - |rest|]);
  }

  lemma {:induction false} ChunksEnd(u: string, chunkSize: int)
    requires chunkSize >= -1 && InChunks(u, chunkSize) != Smooth
    ensures var t := InChunks(u, chunkSize);
            |t.rest| <= |u| && EndsAt(t, u, InChunks(UpTo(u, t), chunkSize))
    decreases |u|, 1
  {
    hide LineOf, AfterLine, ChunkSize, InData;
    var t := InChunks(u, chunkSize);
    if chunkSize != -1 {
      DataEnd(u, chunkSize);
    } else {
      var v, size := AfterLine(u), ChunkSize(LineOf(u));
      assert v[|v| - |v|..] == v;
      if LineOf(u) != "" && size != -1 {
        DataEnd(v, size);
      }
      FirstLineCut(u, t.rest);
    }
  }

  lemma {:induction false} DataEnd(u: string, chunkSize: int)
    requires chunkSize >= 0 && InData(u, chunkSize) != Smooth
    ensures var t := InData(u, chunkSize);
            |t.rest| <= |u| && EndsAt(t, u, InData(UpTo(u, t), chunkSize))
    decreases |u|, 0
  {
    var t := InData(u, chunkSize);
    if chunkSize == 0 {
      FirstLineCut(u, t.rest);
    } else {
      var v := u[chunkSize + 2..];
      ChunksEnd(v, -1);
      TailOfTail(t.rest, v, u);
      assert UpTo(u, t)[chunkSize + 2..] == UpTo(v, t);
      assert InChunks("", -1) == Smooth;
    }
  }

  lemma {:induction false} BodyEnds(h: Head, u: string, chunkSize: int)
    requires chunkSize >= -1 && InBody(h, u, chunkSize) != Smooth
    ensures var t := InBody(h, u, chunkSize);
            |t.rest| <= |u| && EndsAt(t, u, InBody(h, UpTo(u, t), chunkSize))
  {
    ChunksEnd(u, chunkSize);
  }

  lemma {:induction false} FieldsEnd(h: Head, u: string, chunkSize: int)
    requires chunkSize >= -1 && InFields(h, u, chunkSize) != Smooth
    ensures var t := InFields(h, u, chunkSize);
            |t.rest| <= |u| && EndsAt(t, u, InFields(h, UpTo(u, t), chunkSize))
    decreases |u|
  {
    hide InBody, Field, WellFormedField, LineOf, AfterLine;
    var t, line, v := InFields(h, u, chunkSize), LineOf(u), AfterLine(u);
    assert v[|v| - |v|..] == v;
    if line == [CR] {
      BodyEnds(h, v, chunkSize);
    } else if line != "" {
      FieldsEnd(Field(h, line), v, chunkSize);
    }
    FirstLineCut(u, t.rest);
  }

  lemma {:induction false} StartEnds(h: Head, u: string, chunkSize: int)
    requires chunkSize >= -1 && InStart(h, u, chunkSize) != Smooth
    ensures var t := InStart(h, u, chunkSize);
            |t.rest| <= |u| && EndsAt(t, u, InStart(h, UpTo(u, t), chunkSize))
  {
    hide InFields, WellFormedStart, StartLine;
    var t, line := InStart(h, u, chunkSize), LineOf(u);
    if line != "" {
      FieldsEnd(StartLine(h, line), AfterLine(u), chunkSize);
    }
    FirstLineCut(u, t.rest);
  }
}
