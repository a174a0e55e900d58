/** Python's str.splitlines, with and without the line ends, and joining lines again. */
module TextLines {

  // The characters that end a line.
  predicate IsBreak(c: char) {
    var n := c as int;
    10 <= n <= 13 || 28 <= n <= 30 || n == 0x85 || n == 0x2028 || n == 0x2029
  }

  // Length of the line end s starts with; a carriage return and a line feed are one.
  function EolLen(s: string): (n: nat)
    ensures n <= |s|
    ensures n > 0 <==> s != "" && IsBreak(s[0])
  {
    if |s| >= 2 && s[0] == '\r' && s[1] == '\n' then 2
    else if s != "" && IsBreak(s[0]) then 1
    else 0
  }

  // Length of the text before the first line end.
  function BodyEnd(s: string): (n: nat)
    ensures n <= |s| && (n < |s| ==> IsBreak(s[n]))
    ensures forall i :: 0 <= i < n ==> !IsBreak(s[i])
  {
    if s == "" || IsBreak(s[0]) then 0 else 1 + BodyEnd(s[1..])
  }

  function LineEnd(s: string): (n: nat)
    ensures n <= |s| && (s != "" ==> n > 0)
  {
    BodyEnd(s) + EolLen(s[BodyEnd(s)..])
  }

  // splitlines(keepends=True)
  function SplitKeep(s: string): seq<string> {
    if s == "" then [] else [s[..LineEnd(s)]] + SplitKeep(s[LineEnd(s)..])
  }

  function Body(line: string): string { line[..BodyEnd(line)] }

  function Bodies(lines: seq<string>): (r: seq<string>)
    ensures |r| == |lines|
  {
    seq(|lines|, i requires 0 <= i < |lines| => Body(lines[i]))
  }

  // splitlines()
  function Split(s: string): seq<string> { Bodies(SplitKeep(s)) }

  function Join(lines: seq<string>): string {
    if lines == [] then "" else lines[0] + Join(lines[1..])
  }

  /* ---- lines that splitting gives back ---- */

  predicate IsLine(line: string) { line != "" && LineEnd(line) == |line| }

  predicate Ended(line: string) { BodyEnd(line) < |line| }

  // The next line may follow: this one has an end, and no line end forms across the seam.
  predicate Meets(line: string, next: string) {
    Ended(line) && !(line[|line| - 1] == '\r' && next != "" && next[0] == '\n')
  }

  predicate AreLines(lines: seq<string>) {
    && (forall i :: 0 <= i < |lines| ==> IsLine(lines[i]))
    && (forall i :: 0 <= i < |lines| - 1 ==> Meets(lines[i], lines[i + 1]))
  }

  lemma {:induction false} BodyEndIs(s: string, n: nat)
    requires n <= |s| && (n < |s| ==> IsBreak(s[n])) && forall i :: 0 <= i < n ==> !IsBreak(s[i])
    ensures BodyEnd(s) == n
  {}

  // A line in front of a rest it meets ends where it did.
  lemma {:induction false} LineInFront(line: string, rest: string)
    requires IsLine(line) && (rest == "" || Meets(line, rest))
    ensures LineEnd(line + rest) == |line|
  {
    var n := BodyEnd(line);
    BodyEndIs(line + rest, n);
    if rest == "" {
      assert line + rest == line;
    } else {
      assert (line + rest)[n..] == line[n..] + rest;
      assert |line[n..]| == EolLen(line[n..]);
    }
  }

  lemma {:induction false} FirstOfJoin(lines: seq<string>)
    requires lines != [] && AreLines(lines)
    ensures Join(lines) != "" && Join(lines)[0] == lines[0][0]
  {}

  lemma {:induction false} TailAreLines(lines: seq<string>)
    requires lines != [] && AreLines(lines)
    ensures IsLine(lines[0]) && AreLines(lines[1..])
    ensures lines[1..] != [] ==> Meets(lines[0], lines[1])
  {}

  lemma {:induction false} SplitOfJoin(lines: seq<string>)
    requires AreLines(lines)
    ensures SplitKeep(Join(lines)) == lines
  {
    hide AreLines, IsLine, LineEnd;
    if lines != [] {
      TailAreLines(lines);
      SplitOfJoin(lines[1..]);
      var rest := Join(lines[1..]);
      if lines[1..] != [] { FirstOfJoin(lines[1..]); }
      FirstIsSolid(lines[0]);
      LineInFront(lines[0], rest);
      assert (lines[0] + rest)[..|lines[0]|] == lines[0] && (lines[0] + rest)[|lines[0]|..] == rest;
    }
  }

  lemma {:induction false} FirstIsSolid(line: string)
    requires IsLine(line)
    ensures line != ""
  {}

  lemma {:induction false} JoinOfSplit(s: string)
    ensures Join(SplitKeep(s)) == s
  {
    if s != "" { JoinOfSplit(s[LineEnd(s)..]); }
  }

  lemma {:induction false} Reassociate(a: string, b: string, c: string)
    ensures a + (b + c) == (a + b) + c
  {}

  lemma {:induction false} JoinConcat(a: seq<string>, b: seq<string>)
    ensures Join(a + b) == Join(a) + Join(b)
  {
    if a == [] {
      assert a + b == b;
    } else {
      JoinConcat(a[1..], b);
      assert (a + b)[1..] == a[1..] + b;
      Reassociate(a[0], Join(a[1..]), Join(b));
    }
  }

  // The first line of a text is a line and meets what follows it.
  lemma {:induction false} FirstSplit(s: string)
    requires s != ""
    ensures IsLine(s[..LineEnd(s)])
    ensures s[LineEnd(s)..] != "" ==> Meets(s[..LineEnd(s)], s[LineEnd(s)..])
  {}

  lemma {:induction false} SplitAreLines(s: string)
    ensures AreLines(SplitKeep(s))
  {
    if s != "" {
      var n := LineEnd(s);
      FirstSplit(s);
      SplitAreLines(s[n..]);
      var rest := SplitKeep(s[n..]);
      if s[n..] != "" { assert rest[0] == s[n..][..LineEnd(s[n..])]; }
      var all := [s[..n]] + rest;
      forall i | 0 <= i < |all| - 1 ensures Meets(all[i], all[i + 1]) {
        if i > 0 { assert all[i] == rest[i - 1] && all[i + 1] == rest[i]; }
      }
    }
  }

  /* ---- lines as they are written ---- */

  // The line ends of str.splitlines.
  const LINE_ENDS: set<string> :=
    {"\n", "\r\n", "\r", "\U{0B}", "\U{0C}", "\U{1C}", "\U{1D}", "\U{1E}", "\U{85}", "\U{2028}", "\U{2029}"}

  datatype RawLine = RawLine(body: string, end: string)

  function LineTexts(ls: seq<RawLine>): seq<string> { seq(|ls|, i requires 0 <= i < |ls| => ls[i].body + ls[i].end) }

  function LineBodies(ls: seq<RawLine>): seq<string> { seq(|ls|, i requires 0 <= i < |ls| => ls[i].body) }

  predicate HasNoEnd(body: string) { forall i :: 0 <= i < |body| ==> [body[i]] !in LINE_ENDS }

  // Every line has an end, but for the last, which has some text then; no carriage return runs into a line feed.
  predicate Separated(ls: seq<RawLine>) {
    && (forall i :: 0 <= i < |ls| ==> HasNoEnd(ls[i].body))
    && (forall i :: 0 <= i < |ls| ==> ls[i].end in LINE_ENDS || (i == |ls| - 1 && ls[i].end == "" && ls[i].body != ""))
    && (forall i :: 0 <= i < |ls| - 1 ==> !(ls[i].end == "\r" && ls[i + 1] == RawLine("", "\n")))
  }

  lemma {:induction false} EndsAreBreaks(c: char)
    ensures [c] in LINE_ENDS <==> IsBreak(c)
  {
    assert "\U{0B}"[0] as int == 11 && "\U{0C}"[0] as int == 12 && "\U{85}"[0] as int == 0x85;
  }

  lemma {:induction false} EndIsEnd(end: string)
    requires end in LINE_ENDS
    ensures end != "" && IsBreak(end[0]) && EolLen(end) == |end| && (|end| == 1 || end == "\r\n")
  {}

  lemma {:induction false} WrittenLine(l: RawLine)
    requires HasNoEnd(l.body) && (l.end in LINE_ENDS || (l.end == "" && l.body != ""))
    ensures IsLine(l.body + l.end) && Body(l.body + l.end) == l.body && (Ended(l.body + l.end) <==> l.end != "")
  {
    hide EolLen, IsBreak;
    forall i | 0 <= i < |l.body| ensures !IsBreak(l.body[i]) { EndsAreBreaks(l.body[i]); }
    var s, n := l.body + l.end, |l.body|;
    if l.end != "" { EndIsEnd(l.end); }
    BodyEndIs(s, n);
    assert s[n..] == l.end;
    if l.end == "" { NoEnd(); }
  }

  lemma {:induction false} NoEnd()
    ensures EolLen("") == 0
  {}

  lemma {:induction false} WrittenMeets(l: RawLine, next: RawLine)
    requires HasNoEnd(l.body) && l.end in LINE_ENDS && HasNoEnd(next.body)
    requires next.end in LINE_ENDS || (next.end == "" && next.body != "")
    requires !(l.end == "\r" && next == RawLine("", "\n"))
    ensures Meets(l.body + l.end, next.body + next.end)
  {
    hide IsBreak, Ended;
    WrittenLine(l);
    EndIsEnd(l.end);
    if next.body != "" { EndsAreBreaks(next.body[0]); assert [next.body[0]] !in LINE_ENDS; LineFeedEnds(); }
    if next.end != "" { EndIsEnd(next.end); }
  }

  lemma {:induction false} LineFeedEnds()
    ensures ['\n'] in LINE_ENDS
  {
    assert ['\n'] == "\n";
  }

  // Splitting gives back exactly the lines that were written, with any of the line ends.
  lemma {:induction false} WrittenIsSplit(ls: seq<RawLine>)
    requires Separated(ls)
    ensures SplitKeep(Join(LineTexts(ls))) == LineTexts(ls) && Split(Join(LineTexts(ls))) == LineBodies(ls)
  {
    hide IsLine, Body, Meets, Join, SplitKeep;
    var lines := LineTexts(ls);
    forall i | 0 <= i < |ls| ensures IsLine(lines[i]) && Body(lines[i]) == ls[i].body { WrittenLine(ls[i]); }
    forall i | 0 <= i < |lines| - 1 ensures Meets(lines[i], lines[i + 1]) { WrittenMeets(ls[i], ls[i + 1]); }
    SplitOfJoin(lines);
    assert Bodies(lines) == LineBodies(ls);
  }
}
