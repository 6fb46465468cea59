/** Byte strings as the server reads them: lines ended by LF, numerals, and the
    32-bit and 64-bit integers the C++ code squeezes sizes into.
    A byte is a `char`; nothing below depends on how many values a byte has. */
module Text {

  const CR := '\r'
  const LF := '\n'
  const CRLF := "\r\n"

  const INT_MAX := 0x7fff_ffff
  const LONG_MAX := 0x7fff_ffff_ffff_ffff

  /** The value an `int` holds after being given `n`: it wraps around. */
  function Int32(n: int): (r: int)
    ensures -INT_MAX - 1 <= r <= INT_MAX
    ensures -INT_MAX - 1 <= n <= INT_MAX ==> r == n
    ensures 0 <= n ==> r <= n
    decreases if -INT_MAX - 1 <= n <= INT_MAX then 0 else if n < 0 then -n else n
  {
    if n > INT_MAX then Int32(n - 0x1_0000_0000)
    else if n < -INT_MAX - 1 then Int32(n + 0x1_0000_0000)
    else n
  }

  /** The value a 64-bit `size_t` holds after being given the `ssize_t` `n`. */
  function SizeT(n: int): (r: nat)
    ensures 0 <= n ==> r == n
    decreases if n < 0 then -n else 0
  {
    if n < 0 then SizeT(n + 0x1_0000_0000_0000_0000) else n
  }

  /** Position of the first `c` in `s[from..]`, or `|s|` when there is none. */
  function IndexFrom(s: string, c: char, from: nat): (i: nat)
    requires from <= |s|
    ensures from <= i <= |s|
    ensures i < |s| ==> s[i] == c
    ensures forall k :: from <= k < i ==> s[k] != c
    decreases |s| - from
  {
    if from == |s| || s[from] == c then from else IndexFrom(s, c, from + 1)
  }

  /** Position of the first `c` in `s`, or `|s|` when there is none. */
  function IndexOf(s: string, c: char): (i: nat)
    ensures i <= |s|
    ensures i < |s| ==> s[i] == c
    ensures forall k :: 0 <= k < i ==> s[k] != c
  {
    IndexFrom(s, c, 0)
  }

  function LastIndexBefore(s: string, c: char, to: nat): (i: int)
    requires to <= |s|
    ensures -1 <= i < to
    ensures 0 <= i ==> s[i] == c
    ensures forall k :: i < k < to ==> s[k] != c
  {
    if to == 0 then -1 else if s[to - 1] == c then to - 1 else LastIndexBefore(s, c, to - 1)
  }

  /** Position of the last `c` in `s`, or -1 when there is none. */
  function LastIndexOf(s: string, c: char): (i: int)
    ensures -1 <= i < |s|
    ensures 0 <= i ==> s[i] == c
    ensures forall k :: i < k < |s| ==> s[k] != c
  {
    LastIndexBefore(s, c, |s|)
  }

  /** What `std::getline(ss, word, c)` extracts from `s`, and what it leaves. */
  function Before(s: string, c: char): string {
    s[..IndexOf(s, c)]
  }

  function Beyond(s: string, c: char): string {
    if IndexOf(s, c) < |s| then s[IndexOf(s, c) + 1..] else ""
  }

  lemma {:induction false} CutAt(s: string, c: char, t: string)
    requires c !in s
    ensures var u := s + [c] + t; Before(u, c) == s && Beyond(u, c) == t
  {
    var u := s + [c] + t;
    assert u[|s|] == c && forall k :: 0 <= k < |s| ==> u[k] == s[k];
    assert IndexOf(u, c) == |s|;
  }

  function Count(s: string, c: char): nat {
    CountBefore(s, c, |s|)
  }

  function CountBefore(s: string, c: char, to: nat): nat
    requires to <= |s|
  {
    if to == 0 then 0 else CountBefore(s, c, to - 1) + (if s[to - 1] == c then 1 else 0)
  }

  lemma {:induction false} CountOfPart(s: string, t: string, c: char, to: nat)
    requires to <= |s| && to <= |t| && s[..to] == t[..to]
    ensures CountBefore(s, c, to) == CountBefore(t, c, to)
  {
    if to > 0 {
      assert s[to - 1] == s[..to][to - 1] == t[..to][to - 1] == t[to - 1];
      assert s[..to - 1] == s[..to][..to - 1] == t[..to][..to - 1] == t[..to - 1];
      CountOfPart(s, t, c, to - 1);
    }
  }

  lemma {:induction false} CountNone(s: string, c: char, to: nat)
    requires c !in s && to <= |s|
    ensures CountBefore(s, c, to) == 0
  {
    if to > 0 {
      CountNone(s, c, to - 1);
    }
  }

  lemma {:induction false} CountJoined(s: string, t: string, c: char)
    ensures Count(s + t, c) == Count(s, c) + Count(t, c)
    decreases |t|
  {
    if t == [] {
      assert s + t == s;
    } else {
      var front := t[..|t| - 1];
      CountJoined(s, front, c);
      assert (s + t)[..|s + front|] == s + front == (s + front)[..|s + front|];
      CountOfPart(s + t, s + front, c, |s + front|);
      assert t[..|front|] == front == front[..|front|];
      CountOfPart(t, front, c, |front|);
    }
  }

  lemma {:induction false} CountSome(s: string, c: char, to: nat)
    requires to <= |s|
    ensures CountBefore(s, c, to) >= 0
    ensures CountBefore(s, c, to) == 0 ==> c !in s[..to]
  {
    if to > 0 {
      CountSome(s, c, to - 1);
      assert s[..to] == s[..to - 1] + [s[to - 1]];
    }
  }

  /** What is before the first `c`, and what is after it. */
  lemma {:induction false} CutOnce(s: string, c: char)
    requires Count(s, c) > 0
    ensures s == Before(s, c) + [c] + Beyond(s, c) && c !in Before(s, c)
    ensures Count(Beyond(s, c), c) == Count(s, c) - 1
  {
    CountSome(s, c, |s|);
    if IndexOf(s, c) == |s| {
      CountNone(s, c, |s|);
    }
    var a, b := Before(s, c), Beyond(s, c);
    assert s == a + [c] + b;
    CountNone(a, c, |a|);
    assert CountBefore([c], c, 0) == 0;
    CountJoined(a, [c], c);
    CountJoined(a + [c], b, c);
  }

  lemma NoneLeft(s: string, c: char)
    requires Count(s, c) == 0
    ensures c !in s
  {
    CountSome(s, c, |s|);
    assert s[..|s|] == s;
  }

  /** `t` is the end of `u`: what a reader of `u` has left. */
  predicate IsTail(t: string, u: string) {
    |t| <= |u| && u[|u| - |t|..] == t
  }

  // ---------------------------------------------------------------- lines

  predicate HasLine(u: string) {
    IndexOf(u, LF) < |u|
  }

  /** The line at the front of `u`; "" stands both for an empty line and for
      "no complete line yet", as it does for the callers of `getLine`. */
  function LineOf(u: string): (line: string)
    ensures |line| <= |u|
    ensures !HasLine(u) ==> line == ""
    ensures line != "" ==> HasLine(u)
  {
    if HasLine(u) then u[..IndexOf(u, LF)] else ""
  }

  /** What is left of `u` once its front line, if it has one, is taken. */
  function AfterLine(u: string): (rest: string)
    ensures HasLine(u) ==> |rest| < |u|
    ensures !HasLine(u) ==> rest == u
    ensures |rest| <= |u|
  {
    if HasLine(u) then u[IndexOf(u, LF) + 1..] else u
  }

  lemma {:induction false} AfterLineIsTail(u: string)
    ensures IsTail(AfterLine(u), u)
  {
  }

  /** The front line and what is left make up the whole, and the line ends there. */
  lemma LineSplits(u: string)
    ensures if HasLine(u) then u == LineOf(u) + [LF] + AfterLine(u) && LF !in LineOf(u)
            else LF !in u && LineOf(u) == "" && AfterLine(u) == u
  {
    if HasLine(u) {
      assert u == u[..IndexOf(u, LF)] + [LF] + u[IndexOf(u, LF) + 1..];
    }
  }

  lemma LineAt(line: string, rest: string)
    requires LF !in line
    ensures HasLine(line + [LF] + rest)
    ensures LineOf(line + [LF] + rest) == line
    ensures AfterLine(line + [LF] + rest) == rest
  {
    var u := line + [LF] + rest;
    assert u[|line|] == LF;
    assert forall k :: 0 <= k < |line| ==> u[k] == line[k];
    assert IndexOf(u, LF) == |line|;
  }

  /** A line sent with CRLF is read with its CR. */
  lemma CrLfLine(line: string, rest: string)
    requires LF !in line
    ensures var u := line + CRLF + rest;
            HasLine(u) && LineOf(u) == line + [CR] && AfterLine(u) == rest
  {
    LineAt(line + [CR], rest);
    assert line + CRLF + rest == line + [CR] + [LF] + rest;
  }

  lemma LineGrows(u: string, more: string)
    requires HasLine(u)
    ensures HasLine(u + more)
    ensures LineOf(u + more) == LineOf(u)
    ensures AfterLine(u + more) == AfterLine(u) + more
  {
    var i := IndexOf(u, LF);
    assert (u + more)[i] == LF;
    assert forall k :: 0 <= k < i ==> (u + more)[k] == u[k];
    assert IndexOf(u + more, LF) == i;
  }

  // ------------------------------------------------------------- numerals

  /** The value of a digit in any base up to 16; 16 for every other byte. */
  function Digit(c: char): (d: nat)
    ensures d <= 16
  {
    if '0' <= c <= '9' then c as int - '0' as int
    else if 'a' <= c <= 'f' then c as int - 'a' as int + 10
    else if 'A' <= c <= 'F' then c as int - 'A' as int + 10
    else 16
  }

  predicate Digits(s: string, base: nat) {
    forall i :: 0 <= i < |s| ==> Digit(s[i]) < base
  }

  /** Where the base-`base` digits that start at `from` end. */
  function DigitRun(s: string, base: nat, from: nat): (n: nat)
    requires from <= |s|
    ensures from <= n <= |s|
    ensures forall k :: from <= k < n ==> Digit(s[k]) < base
    ensures n < |s| ==> Digit(s[n]) >= base
    decreases |s| - from
  {
    if from == |s| || Digit(s[from]) >= base then from else DigitRun(s, base, from + 1)
  }

  /** The value of `s[from..to]` as a hexadecimal or a decimal numeral. */
  function HexValue(s: string, to: nat): nat
    requires to <= |s|
  {
    if to == 0 then 0 else HexValue(s, to - 1) * 16 + Digit(s[to - 1])
  }

  function DecimalValue(s: string, from: nat, to: nat): nat
    requires from <= to <= |s|
  {
    if to == from then 0 else DecimalValue(s, from, to - 1) * 10 + Digit(s[to - 1])
  }

  lemma {:induction false} HexValueOfPart(s: string, t: string, to: nat)
    requires to <= |s| && to <= |t| && s[..to] == t[..to]
    ensures HexValue(s, to) == HexValue(t, to)
  {
    if to > 0 {
      assert s[to - 1] == s[..to][to - 1] == t[..to][to - 1] == t[to - 1];
      assert s[..to - 1] == s[..to][..to - 1] == t[..to][..to - 1] == t[..to - 1];
      HexValueOfPart(s, t, to - 1);
    }
  }

  lemma {:induction false} DecimalValueOfPart(s: string, at: nat, t: string, to: nat)
    requires at + to <= |s| && to <= |t| && s[at..at + to] == t[..to]
    ensures DecimalValue(s, at, at + to) == DecimalValue(t, 0, to)
  {
    if to > 0 {
      assert s[at + to - 1] == s[at..at + to][to - 1] == t[..to][to - 1] == t[to - 1];
      assert s[at..at + to - 1] == s[at..at + to][..to - 1] == t[..to][..to - 1] == t[..to - 1];
      DecimalValueOfPart(s, at, t, to - 1);
    }
  }

  function DigitChar(d: nat): (c: char)
    requires d < 10
    ensures Digit(c) == d && c != CR && c != LF
  {
    ('0' as int + d) as char
  }

  /** `operator<<` on an unsigned number. */
  function Decimal(n: nat): (s: string)
    ensures s != "" && Digits(s, 10) && DecimalValue(s, 0, |s|) == n
  {
    if n < 10 then
      assert DecimalValue([DigitChar(n)], 0, 0) == 0;
      [DigitChar(n)]
    else
      var front := Decimal(n / 10);
      var s := front + [DigitChar(n % 10)];
      assert s[0..0 + |front|] == front[..|front|] by { assert s[..|front|] == front; }
      DecimalValueOfPart(s, 0, front, |front|);
      s
  }

  predicate IsSpace(c: char) {
    c == ' ' || 9 as char <= c <= 13 as char
  }

  function SkipSpace(s: string, from: nat): (i: nat)
    requires from <= |s|
    ensures from <= i <= |s|
    ensures forall k :: from <= k < i ==> IsSpace(s[k])
    ensures i < |s| ==> !IsSpace(s[i])
    decreases |s| - from
  {
    if from < |s| && IsSpace(s[from]) then SkipSpace(s, from + 1) else from
  }

  /** The signed decimal number that starts at `from`, 0 when there is none. */
  function SignedAt(s: string, from: nat): int
    requires from <= |s|
  {
    if from < |s| && (s[from] == '-' || s[from] == '+') then
      var n: int := DecimalValue(s, from + 1, DigitRun(s, 10, from + 1));
      if s[from] == '-' then -n else n
    else DecimalValue(s, from, DigitRun(s, 10, from))
  }

  /** `ss >> number`: nothing but space leaves the number alone, a word that is
      no number stores 0, and a number out of range stores the nearest `int`. */
  function StreamInt(s: string, previous: int): int {
    var from := SkipSpace(s, 0);
    if from == |s| then previous
    else
      var n := SignedAt(s, from);
      if n > INT_MAX then INT_MAX else if n < -INT_MAX - 1 then -INT_MAX - 1 else n
  }

  /** `std::atoi`. */
  function Atoi(s: string): int {
    var n := SignedAt(s, SkipSpace(s, 0));
    Int32(if n > LONG_MAX then LONG_MAX else if n < -LONG_MAX - 1 then -LONG_MAX - 1 else n)
  }
}
