/** Whatever is annotated is suppressed: what the annotator writes, the reader finds. */
module RoundTrip {
  import opened TextLines
  import opened Blocks
  import opened Annotations
  import opened Annotator
  import opened Insertion
  import Lexical

  predicate Unbroken(s: string) { forall i :: 0 <= i < |s| ==> !IsBreak(s[i]) }

  // On one line, and without a block marker.
  predicate Unmarked(s: string) { Unbroken(s) && !Contains(s, BLOCK_BEGIN) && !Contains(s, BLOCK_END) }

  predicate NonBlank(line: string) { exists i :: 0 <= i < BodyEnd(line) && !Lexical.IsSpace(line[i]) }

  /* ---- the lines of the new text ---- */

  // The indentation of a blank line takes its line end along.
  predicate Carries(first: string) { Ended(first) && !NonBlank(first) }

  // An inserted marker, as lines.
  function MarkerLines(first: string, text: string): (r: seq<string>)
    ensures |r| == if Carries(first) then 2 else 1
  {
    if Carries(first) then [first, text + "\n"] else [Indentation(first) + text + "\n"]
  }

  // Lines and what follows them; what follows runs on in the last line when that has no end of its own.
  function Glue(lines: seq<string>, more: seq<string>): (r: seq<string>)
    requires lines != [] && more != []
    ensures |r| >= |lines|
  {
    var last := |lines| - 1;
    if Meets(lines[last], more[0]) then lines + more else lines[..last] + [lines[last] + more[0]] + more[1..]
  }

  function BeginText(ann: Annotation, prefix: string): string { prefix + " " + BLOCK_BEGIN + " " + TypeText(ann.types) }

  function EndText(prefix: string): string { prefix + " " + BLOCK_END }

  // The lines b to t of a block with its end marker.
  function ShownEnd(lines: seq<string>, b: nat, t: nat, prefix: string): (r: seq<string>)
    requires b < t <= |lines|
    ensures |r| >= t - b
  {
    Glue(lines[b..t], MarkerLines(lines[b], EndText(prefix)))
  }

  // The lines an annotation is about, as the new text shows them.
  function ShownLines(lines: seq<string>, ann: Annotation, prefix: string): seq<string>
    requires Fits(ann, |lines|)
  {
    match ann
    case Inline(line, _) => [MarkedLine(lines[line - 1], ann, prefix).Text()]
    case Block(_, _, start, end) =>
      MarkerLines(lines[start - 1], BeginText(ann, prefix)) + ShownEnd(lines, start - 1, end, prefix)
  }

  // All lines of the new text.
  function Shown(lines: seq<string>, anns: seq<Annotation>, prefix: string): seq<string>
    requires Descending(anns, |lines|)
    decreases |anns|
  {
    if anns == [] then lines
    else
      RestDescends(anns, |lines|);
      Shown(lines[..Bottom(anns[0]) - 1], anns[1..], prefix) + ShownLines(lines, anns[0], prefix) + lines[Top(anns[0])..]
  }

  // How many lines of its begin marker stand in front of an annotation's lines.
  function Lead(lines: seq<string>, ann: Annotation, prefix: string): nat
    requires Fits(ann, |lines|)
  {
    if ann.Block? then |MarkerLines(lines[ann.start - 1], BeginText(ann, prefix))| else 0
  }

  // Where line i is in the new text.
  function Moved(lines: seq<string>, anns: seq<Annotation>, prefix: string, i: nat): nat
    requires Descending(anns, |lines|) && i < |lines|
    decreases |anns|
  {
    if anns == [] then i
    else
      RestDescends(anns, |lines|);
      var b, t := Bottom(anns[0]) - 1, Top(anns[0]);
      if i < b then Moved(lines[..b], anns[1..], prefix, i)
      else
        |Shown(lines[..b], anns[1..], prefix)|
        + if i < t then Lead(lines, anns[0], prefix) + (i - b) else |ShownLines(lines, anns[0], prefix)| + (i - t)
  }

  // The lines an annotation is for can take it. Inline: the line ends in carriage returns and line feeds only,
  // and has no block marker. Block: from the first line of the range to the line the end marker is shown on no
  // line has a block marker under any alias, and that line does not read as a begin.
  predicate Takes(lines: seq<string>, ann: Annotation, prefix: string, a: Aliases)
    requires Fits(ann, |lines|)
  {
    match ann
    case Inline(line, _) =>
      StrippedLen(lines[line - 1]) == BodyEnd(lines[line - 1]) && Unmarked(Body(lines[line - 1]))
    case Block(_, _, start, end) =>
      var shown := Bodies(ShownEnd(lines, start - 1, end, prefix));
      && (forall j :: 0 <= j < |shown| - 1 ==> MarkOf(shown[j], a).Plain?)
      && !IsBlockBegin(shown[|shown| - 1], a)
  }

  predicate Sound(ann: Annotation) { forall t :: t in ann.types ==> Unmarked(t) }

  predicate Writable(lines: seq<string>, anns: seq<Annotation>, prefix: string, a: Aliases)
    requires forall k :: 0 <= k < |anns| ==> Fits(anns[k], |lines|)
  {
    Unmarked(prefix) && forall k :: 0 <= k < |anns| ==> Takes(lines, anns[k], prefix, a) && Sound(anns[k])
  }

  /* ---- markers in lines ---- */

  lemma {:induction false} ContainsMiddle(x: string, part: string, y: string)
    ensures Contains(x + part + y, part)
  {
    assert OccursAt(x + part + y, part, |x|);
  }

  lemma {:induction false} OccurrenceHas(line: string, part: string, i: nat, k: nat)
    requires OccursAt(line, part, i) && i <= k < i + |part|
    ensures line[k] in part
  {}

  // A part without c does not span a c.
  lemma {:induction false} Seam(x: string, c: char, y: string, part: string)
    requires c !in part
    ensures Contains(x + [c] + y, part) ==> Contains(x, part) || Contains(y, part)
  {
    var all := x + [c] + y;
    if Contains(all, part) {
      var i :| 0 <= i <= |all| && OccursAt(all, part, i);
      if i + |part| <= |x| {
        OccursWithin("", x, [c] + y, part, i);
        assert "" + x + ([c] + y) == all;
      } else if i > |x| {
        OccursWithin(x + [c], y, "", part, i);
        assert x + [c] + y + "" == all;
      } else {
        OccurrenceHas(all, part, i, |x|);
      }
    }
  }

  lemma {:induction false} OccursWithin(before: string, s: string, after: string, part: string, i: nat)
    requires |before| <= i && i + |part| <= |before| + |s| && OccursAt(before + s + after, part, i)
    ensures Contains(s, part)
  {
    var k := i - |before|;
    assert (before + s + after)[i..i + |part|] == s[k..k + |part|];
    assert OccursAt(s, part, k);
  }

  lemma {:induction false} SeamUnmarked(x: string, c: char, y: string)
    requires Unmarked(x) && Unmarked(y) && (c == ' ' || c == ',')
    ensures Unmarked(x + [c] + y)
  {
    hide Contains;
    Seam(x, c, y, BLOCK_BEGIN);
    Seam(x, c, y, BLOCK_END);
  }

  lemma {:induction false} ShortUnmarked(s: string)
    requires Unbroken(s) && |s| < |BLOCK_END|
    ensures Unmarked(s)
  {}

  lemma {:induction false} TypesUnmarked(types: seq<string>)
    requires forall t :: t in types ==> Unmarked(t)
    ensures Unmarked(TypeText(types))
  {
    hide Unmarked;
    if types == [] {
      ShortUnmarked("");
    } else if |types| > 1 {
      TypesUnmarked(types[1..]);
      SeamUnmarked(types[0], ',', TypeText(types[1..]));
    } else {
      assert types[0] in types;
    }
  }

  // An annotated line is on one line, has the inline marker, and has no block marker if it had none.
  lemma {:induction false} MarkerReads(stripped: string, ann: Annotation, prefix: string)
    requires Unmarked(stripped) && Unmarked(prefix) && Sound(ann)
    ensures Unmarked(stripped + Marker(ann, prefix)) && Unbroken(Marker(ann, prefix))
    ensures Contains(stripped + Marker(ann, prefix), INLINE)
  {
    hide Contains, Unmarked, TypeText;
    var types := TypeText(ann.types);
    TypesUnmarked(ann.types);
    ShortUnmarked(INLINE);
    ShortUnmarked("");
    SeamUnmarked(INLINE, ' ', types);
    SeamUnmarked(prefix, ' ', INLINE + [' '] + types);
    SeamUnmarked("", ' ', prefix + [' '] + (INLINE + [' '] + types));
    var rest := "" + [' '] + (prefix + [' '] + (INLINE + [' '] + types));
    SeamUnmarked(stripped, ' ', rest);
    assert stripped + Marker(ann, prefix) == stripped + [' '] + rest;
    UnbrokenEnd(stripped, Marker(ann, prefix));
    MarkerAllows(stripped, ann, prefix);
  }

  lemma {:induction false} MarkerAllows(stripped: string, ann: Annotation, prefix: string)
    ensures Contains(stripped + Marker(ann, prefix), INLINE)
  {
    hide Contains, TypeText;
    var types := TypeText(ann.types);
    ContainsMiddle(stripped + "  " + prefix + " ", INLINE, " " + types);
    assert stripped + Marker(ann, prefix) == stripped + "  " + prefix + " " + INLINE + (" " + types);
  }

  lemma {:induction false} UnbrokenEnd(x: string, y: string)
    requires Unmarked(x + y)
    ensures Unbroken(y)
  {
    forall i | 0 <= i < |y| ensures !IsBreak(y[i]) { assert (x + y)[|x| + i] == y[i]; }
  }

  lemma {:induction false} IndentationIsBlank(line: string)
    ensures var n := |Indentation(line)|;
      && n <= |line| && Indentation(line) == line[..n]
      && (forall i :: 0 <= i < n ==> Lexical.IsSpace(line[i])) && (n < |line| ==> !Lexical.IsSpace(line[n]))
  {
    if line != "" && Lexical.IsSpace(line[0]) { IndentationIsBlank(line[1..]); }
  }

  lemma {:induction false} IndentationUnmarked(line: string)
    requires NonBlank(line)
    ensures Unmarked(Indentation(line))
  {
    hide Indentation;
    IndentationIsBlank(line);
    var indent := Indentation(line);
    var i :| 0 <= i < BodyEnd(line) && !Lexical.IsSpace(line[i]);
    assert |indent| <= i;
    BlankUnmarked(indent, BLOCK_BEGIN);
    BlankUnmarked(indent, BLOCK_END);
  }

  lemma {:induction false} BlankUnmarked(s: string, part: string)
    requires part != "" && !Lexical.IsSpace(part[0]) && forall i :: 0 <= i < |s| ==> Lexical.IsSpace(s[i])
    ensures !Contains(s, part)
  {}

  lemma {:induction false} SpacesInFront(indent: string, s: string, part: string)
    requires part != "" && (forall c :: c in part ==> !Lexical.IsSpace(c)) && forall i :: 0 <= i < |indent| ==> Lexical.IsSpace(indent[i])
    ensures Contains(indent + s, part) ==> Contains(s, part)
  {
    if indent == "" {
      assert indent + s == s;
    } else {
      assert indent + s == "" + [indent[0]] + (indent[1..] + s);
      Seam("", indent[0], indent[1..] + s, part);
      SpacesInFront(indent[1..], s, part);
    }
  }

  function Opening(first: string, ann: Annotation, prefix: string): string {
    Indentation(first) + prefix + " " + BLOCK_BEGIN + " " + TypeText(ann.types)
  }

  function Closing(first: string, prefix: string): string { Indentation(first) + prefix + " " + BLOCK_END }

  // The begin line reads as a begin
  lemma {:induction false} OpeningReads(first: string, ann: Annotation, prefix: string, a: Aliases)
    requires NonBlank(first) && Unmarked(prefix) && Sound(ann)
    ensures Unbroken(Opening(first, ann, prefix)) && MarkOf(Opening(first, ann, prefix), a).Begin?
  {
    hide Contains, ContainsAny, Indentation, TypeText, NonBlank;
    TypesUnmarked(ann.types);
    IndentationUnmarked(first);
    ContainsMiddle(Indentation(first) + prefix + " ", BLOCK_BEGIN, " " + TypeText(ann.types));
    assert Opening(first, ann, prefix) == Indentation(first) + prefix + " " + BLOCK_BEGIN + (" " + TypeText(ann.types));
  }

  // and the end line as an end.
  lemma {:induction false} ClosingReads(first: string, prefix: string, a: Aliases)
    requires NonBlank(first) && Unmarked(prefix) && !ContainsAny(Closing(first, prefix), a.begin)
    ensures Unbroken(Closing(first, prefix)) && MarkOf(Closing(first, prefix), a).End?
  {
    hide Contains, ContainsAny, Indentation, NonBlank;
    IndentationIsBlank(first);
    IndentationUnmarked(first);
    ContainsMiddle(Indentation(first) + prefix + " ", BLOCK_END, "");
    assert Closing(first, prefix) == Indentation(first) + prefix + " " + BLOCK_END + "";
    assert Closing(first, prefix) == Indentation(first) + (prefix + [' '] + BLOCK_END);
    SpacesInFront(Indentation(first), prefix + [' '] + BLOCK_END, BLOCK_BEGIN);
    Seam(prefix, ' ', BLOCK_END, BLOCK_BEGIN);
    EndIsNoBegin();
  }

  lemma {:induction false} EndIsNoBegin()
    ensures !Contains(BLOCK_END, BLOCK_BEGIN)
  {}

  /* ---- the lines of the result ---- */

  // s and a line feed are one line.
  lemma {:induction false} FeedLine(s: string)
    requires Unbroken(s) && s != ""
    ensures IsLine(s + "\n") && Ended(s + "\n") && Body(s + "\n") == s
  {
    BodyEndIs(s + "\n", |s|);
    assert (s + "\n")[|s|..] == "\n";
  }

  // b ends as a does, as far as a next line can tell.
  predicate EndsLike(a: string, b: string) {
    && a != "" && b != "" && (Ended(a) ==> Ended(b))
    && (b[|b| - 1] == '\r' ==> a[|a| - 1] == '\r')
  }

  lemma {:induction false} MarkedIsLine(line: string, ann: Annotation, prefix: string)
    requires IsLine(line) && StrippedLen(line) == BodyEnd(line) && Unbroken(Marker(ann, prefix))
    ensures var text := MarkedLine(line, ann, prefix).Text();
      StartsLine(text) && EndsLike(line, text) && Body(text) == Body(line) + Marker(ann, prefix)
  {
    hide Marker;
    var n, marker := BodyEnd(line), Marker(ann, prefix);
    var text := line[..n] + marker + line[n..];
    assert |marker| > 0 && marker[0] == ' ' by { MarkerStarts(ann, prefix); }
    BodyEndIs(text, n + |marker|);
    assert text[n + |marker|..] == line[n..];
    assert text[..n + |marker|] == line[..n] + marker;
  }

  lemma {:induction false} MarkerStarts(ann: Annotation, prefix: string)
    ensures |Marker(ann, prefix)| > 0 && Marker(ann, prefix)[0] == ' '
  {}

  // The marker stands on the annotated line exactly when that ends in carriage returns and line feeds only: behind
  // any other line end it is on a line of its own.
  lemma {:induction false} MarkerStaysOnLine(line: string, ann: Annotation, prefix: string)
    requires IsLine(line) && Unbroken(Marker(ann, prefix))
    ensures Body(MarkedLine(line, ann, prefix).Text()) == Body(line) + Marker(ann, prefix) <==> StrippedLen(line) == BodyEnd(line)
  {
    hide Marker;
    MarkerStarts(ann, prefix);
    if StrippedLen(line) == BodyEnd(line) {
      MarkedIsLine(line, ann, prefix);
    } else {
      var n, text := BodyEnd(line), MarkedLine(line, ann, prefix).Text();
      StripStops(line);
      assert forall i :: 0 <= i < StrippedLen(line) ==> text[i] == line[i];
      BodyEndIs(text, n);
      assert |Body(text)| == |Body(line)|;
    }
  }

  lemma {:induction false} StripStops(line: string)
    ensures StrippedLen(line) >= BodyEnd(line)
  {
    if line != "" && (line[|line| - 1] == '\n' || line[|line| - 1] == '\r') {
      var most := line[..|line| - 1];
      StripStops(most);
      BodyEndIs(most, BodyEnd(line));
    }
  }

  // The begin line is one line exactly when the block's first line has text: the indentation of a blank line takes
  // its line end along.
  lemma {:induction false} BeginLineIsOneLine(first: string, ann: Annotation, prefix: string)
    requires IsLine(first) && Ended(first) && Unmarked(prefix) && Sound(ann)
    ensures IsLine(BeginLine(first, ann, prefix)) <==> NonBlank(first)
  {
    hide Unmarked, TypeText, Indentation;
    var rest := prefix + " " + BLOCK_BEGIN + " " + TypeText(ann.types) + "\n";
    IndentationIsBlank(first);
    if NonBlank(first) {
      OpeningReads(first, ann, prefix, Aliases([], [], [], []));
      FeedLine(Opening(first, ann, prefix));
    } else {
      assert forall i :: 0 <= i < |first| ==> Lexical.IsSpace(first[i]);
      assert Indentation(first) == first;
      assert BeginLine(first, ann, prefix) == first + rest;
      BodyEndIs(first + rest, BodyEnd(first));
      assert |rest| > 2;
    }
  }

  lemma {:induction false} ConcatAreLines(a: seq<string>, b: seq<string>)
    requires AreLines(a) && AreLines(b) && (a != [] && b != [] ==> Meets(a[|a| - 1], b[0]))
    ensures AreLines(a + b)
  {}

  lemma {:induction false} SliceAreLines(lines: seq<string>, b: nat, t: nat)
    requires AreLines(lines) && b <= t <= |lines|
    ensures AreLines(lines[b..t]) && (0 < b < |lines| ==> Meets(lines[b - 1], lines[b]))
  {}

  predicate StartsLine(line: string) { IsLine(line) && line[0] != '\n' }

  predicate EndsInFeed(line: string) { IsLine(line) && Ended(line) && line[|line| - 1] == '\n' }

  lemma {:induction false} SingleIsLines(line: string)
    requires IsLine(line)
    ensures AreLines([line])
  {}

  lemma {:induction false} FirstAreLines(lines: seq<string>, i: nat)
    requires AreLines(lines) && i < |lines|
    ensures IsLine(lines[i])
  {}

  lemma {:induction false} FeedMeets(feed: string, line: string)
    requires EndsInFeed(feed)
    ensures Meets(feed, line) && (IsLine(line) ==> EndsLike(line, feed))
  {}

  lemma {:induction false} BlankIsIndentation(first: string)
    requires Carries(first) && IsLine(first)
    ensures Indentation(first) == first
  {
    IndentationIsBlank(first);
    assert forall i :: 0 <= i < |first| ==> Lexical.IsSpace(first[i]);
  }

  lemma {:induction false} IndentationUnbroken(first: string)
    requires !Carries(first)
    ensures Unbroken(Indentation(first))
  {
    IndentationIsBlank(first);
    if NonBlank(first) { IndentationUnmarked(first); }
  }

  // The lines of a marker are lines, the text inserted, and the last of them is the marker.
  lemma {:induction false} MarkerLinesAre(first: string, text: string)
    requires IsLine(first) && Unbroken(text) && text != ""
    ensures var r := MarkerLines(first, text);
      && AreLines(r) && EndsInFeed(r[|r| - 1]) && Ended(r[0])
      && (r[0] == first || StartsLine(r[0])) && StartsLine(r[|r| - 1])
    ensures Body(MarkerLines(first, text)[0]) == if Carries(first) then Body(first) else Indentation(first) + text
    ensures Carries(first) ==> Body(MarkerLines(first, text)[1]) == text
  {
    hide Carries, Indentation, Body;
    FeedLine(text);
    if Carries(first) {
      CarriesIsEnded(first);
      SingleIsLines(first);
      SingleIsLines(text + "\n");
      assert StartsLine(text + "\n") && Meets(first, text + "\n");
      ConcatAreLines([first], [text + "\n"]);
    } else {
      IndentationUnbroken(first);
      FeedLine(Indentation(first) + text);
      SingleIsLines(Indentation(first) + text + "\n");
    }
  }

  lemma {:induction false} CarriesIsEnded(first: string)
    requires Carries(first)
    ensures Ended(first)
  {}

  lemma {:induction false} MarkerLinesJoin(first: string, text: string)
    requires IsLine(first)
    ensures Join(MarkerLines(first, text)) == Indentation(first) + text + "\n"
  {
    hide Carries, Indentation;
    if Carries(first) {
      BlankIsIndentation(first);
      assert [first, text + "\n"][1..] == [text + "\n"];
      JoinSingle(text + "\n");
    } else {
      JoinSingle(Indentation(first) + text + "\n");
    }
  }

  // A line that the next one runs on in: it has no end, or a carriage return that a line feed follows.
  lemma {:induction false} GluedIsLine(last: string, next: string)
    requires IsLine(last) && IsLine(next) && Ended(next) && !Meets(last, next)
    ensures IsLine(last + next) && Ended(last + next) && (next[|next| - 1] == '\n' ==> EndsInFeed(last + next))
    ensures Body(last + next) == if Ended(last) then Body(last) else last + Body(next)
    ensures (last + next)[0] == last[0]
  {
    var n := BodyEnd(last);
    if Ended(last) {
      assert EolLen(last[n..]) == |last[n..]|;
      BodyEndIs(last + next, n);
      assert next == "\n";
      assert (last + next)[n..] == last[n..] + next;
    } else {
      BodyEndIs(last + next, |last| + BodyEnd(next));
      assert (last + next)[|last| + BodyEnd(next)..] == next[BodyEnd(next)..];
    }
  }

  lemma {:induction false} GlueJoins(lines: seq<string>, more: seq<string>)
    requires lines != [] && more != []
    ensures Join(Glue(lines, more)) == Join(lines) + Join(more)
  {
    hide Meets, Join;
    var last := |lines| - 1;
    JoinConcat(lines, more);
    if !Meets(lines[last], more[0]) {
      JoinConcat(lines[..last] + [lines[last] + more[0]], more[1..]);
      JoinConcat(lines[..last], [lines[last] + more[0]]);
      JoinSingle(lines[last] + more[0]);
      JoinConcat(lines[..last], [lines[last]]);
      JoinSingle(lines[last]);
      assert lines == lines[..last] + [lines[last]];
      JoinConcat([more[0]], more[1..]);
      JoinSingle(more[0]);
      assert more == [more[0]] + more[1..];
      Regrouped(Join(lines[..last]), lines[last], more[0], Join(more[1..]));
    }
  }

  lemma {:induction false} Regrouped(before: string, last: string, next: string, rest: string)
    ensures (before + (last + next)) + rest == (before + last) + (next + rest)
  {}

  lemma {:induction false} GlueAreLines(lines: seq<string>, more: seq<string>)
    requires AreLines(lines) && lines != [] && AreLines(more) && 1 <= |more| <= 2
    requires Ended(more[0]) && (|more| == 2 ==> StartsLine(more[1])) && EndsInFeed(more[|more| - 1])
    ensures AreLines(Glue(lines, more)) && EndsInFeed(Glue(lines, more)[|Glue(lines, more)| - 1])
    ensures Glue(lines, more)[0][0] == lines[0][0]
  {
    hide IsLine, Ended, AreLines, Meets;
    var last := |lines| - 1;
    FirstAreLines(lines, 0);
    FirstAreLines(lines, last);
    FirstAreLines(more, 0);
    SolidLine(lines[0]);
    if Meets(lines[last], more[0]) {
      ConcatAreLines(lines, more);
    } else {
      var glued := lines[last] + more[0];
      GluedIsLine(lines[last], more[0]);
      SliceAreLines(lines, 0, last);
      assert lines[0..last] == lines[..last];
      SingleIsLines(glued);
      if last > 0 {
        SliceAreLines(lines, last, last + 1);
        MeetsSame(lines[last - 1], lines[last], glued);
      }
      ConcatAreLines(lines[..last], [glued]);
      if |more| == 2 {
        FirstAreLines(more, 1);
        SingleIsLines(more[1]);
        StartMeets(glued, more[1]);
        ConcatAreLines(lines[..last] + [glued], [more[1]]);
      }
      assert more[1..] == if |more| == 2 then [more[1]] else [];
      assert lines[..last] + [glued] + [] == lines[..last] + [glued];
    }
  }

  lemma {:induction false} SolidLine(line: string)
    requires IsLine(line)
    ensures line != ""
  {}

  lemma {:induction false} MeetsSame(line: string, next: string, other: string)
    requires Meets(line, next) && next != "" && other != "" && other[0] == next[0]
    ensures Meets(line, other)
  {}

  lemma {:induction false} StartMeets(line: string, next: string)
    requires Ended(line) && StartsLine(next)
    ensures Meets(line, next)
  {}

  lemma {:induction false} MeetsLike(line: string, next: string, other: string)
    requires Meets(line, next) && EndsLike(line, other)
    ensures Meets(other, next)
  {}

  // Lines put in the place of others keep the text in lines.
  lemma {:induction false} Replaced(lines: seq<string>, b: nat, t: nat, above: seq<string>, here: seq<string>)
    requires AreLines(lines) && b < t <= |lines| && AreLines(above) && AreLines(here) && here != []
    requires (b > 0 ==> Meets(lines[b - 1], here[0])) && EndsLike(lines[t - 1], here[|here| - 1])
    requires if b == 0 then above == [] else above != [] && EndsLike(lines[b - 1], above[|above| - 1])
    ensures AreLines(above + here + lines[t..])
    ensures EndsLike(lines[|lines| - 1], (above + here + lines[t..])[|above + here + lines[t..]| - 1])
  {
    hide IsLine, Ended, AreLines, Meets, EndsLike;
    SliceAreLines(lines, b, t);
    SliceAreLines(lines, t, |lines|);
    assert lines[t..|lines|] == lines[t..];
    if b > 0 { MeetsLike(lines[b - 1], here[0], above[|above| - 1]); }
    ConcatAreLines(above, here);
    if t < |lines| { MeetsLike(lines[t - 1], lines[t], here[|here| - 1]); }
    ConcatAreLines(above + here, lines[t..]);
    if t < |lines| { LastEndsLike(lines); }
  }

  lemma {:induction false} TextsUnbroken(ann: Annotation, prefix: string)
    requires Unmarked(prefix) && Sound(ann)
    ensures Unbroken(BeginText(ann, prefix)) && Unbroken(EndText(prefix)) && BeginText(ann, prefix) != "" && EndText(prefix) != ""
  {
    hide Contains, TypeText;
    TypesUnmarked(ann.types);
  }

  // The lines shown for an annotation are lines, begin so that what came before meets them, and end as they did.
  lemma {:induction false} ShownLinesAreLines(lines: seq<string>, ann: Annotation, prefix: string, a: Aliases)
    requires AreLines(lines) && Fits(ann, |lines|) && Takes(lines, ann, prefix, a) && Sound(ann) && Unmarked(prefix)
    ensures var here, b := ShownLines(lines, ann, prefix), Bottom(ann) - 1;
      && here != [] && AreLines(here) && (b > 0 ==> Meets(lines[b - 1], here[0]))
      && EndsLike(lines[Top(ann) - 1], here[|here| - 1])
  {
    hide MarkedLine, Marker, MarkerLines, Glue, BeginText, EndText, Unmarked, AreLines, Body, MarkOf, IsBlockBegin, Ended, IsLine,
      StrippedLen, BodyEnd, Meets, EndsLike;
    var b, t := Bottom(ann) - 1, Top(ann);
    FirstAreLines(lines, b);
    FirstAreLines(lines, t - 1);
    SliceAreLines(lines, b, t);
    if ann.Block? {
      TextsUnbroken(ann, prefix);
      ShownBlockAreLines(lines, b, t, BeginText(ann, prefix), EndText(prefix));
    } else {
      ShownInlineIsLine(lines, b, ann, prefix);
    }
  }

  lemma {:induction false} ShownInlineIsLine(lines: seq<string>, b: nat, ann: Annotation, prefix: string)
    requires AreLines(lines) && b < |lines| && StrippedLen(lines[b]) == BodyEnd(lines[b]) && Unmarked(Body(lines[b]))
    requires Sound(ann) && Unmarked(prefix)
    ensures var marked := MarkedLine(lines[b], ann, prefix).Text();
      AreLines([marked]) && (b > 0 ==> Meets(lines[b - 1], marked)) && EndsLike(lines[b], marked)
  {
    hide MarkedLine, Marker, Unmarked, AreLines, Body, Ended, IsLine, StrippedLen, BodyEnd, Meets, EndsLike, Sound;
    FirstAreLines(lines, b);
    SliceAreLines(lines, b, b);
    MarkerReads(Body(lines[b]), ann, prefix);
    MarkedIsLine(lines[b], ann, prefix);
    SingleIsLines(MarkedLine(lines[b], ann, prefix).Text());
    if b > 0 {
      MeetsIsEnded(lines[b - 1], lines[b]);
      StartMeets(lines[b - 1], MarkedLine(lines[b], ann, prefix).Text());
    }
  }

  lemma {:induction false} ShownBlockAreLines(lines: seq<string>, b: nat, t: nat, begin: string, end: string)
    requires AreLines(lines) && b < t <= |lines| && Unbroken(begin) && Unbroken(end) && begin != "" && end != ""
    ensures var here := MarkerLines(lines[b], begin) + Glue(lines[b..t], MarkerLines(lines[b], end));
      && here != [] && AreLines(here) && (b > 0 ==> Meets(lines[b - 1], here[0]))
      && EndsLike(lines[t - 1], here[|here| - 1])
  {
    hide MarkerLines, Glue, AreLines, Body, Ended, IsLine, Meets, EndsLike, Unbroken, Indentation;
    FirstAreLines(lines, b);
    FirstAreLines(lines, t - 1);
    SliceAreLines(lines, b, t);
    var open, close := MarkerLines(lines[b], begin), MarkerLines(lines[b], end);
    MarkerLinesAre(lines[b], begin);
    MarkerLinesAre(lines[b], end);
    GlueAreLines(lines[b..t], close);
    var shown := Glue(lines[b..t], close);
    FeedMeets(open[|open| - 1], shown[0]);
    ConcatAreLines(open, shown);
    FeedMeets(shown[|shown| - 1], lines[t - 1]);
    if b > 0 {
      MeetsIsEnded(lines[b - 1], lines[b]);
      if open[0] != lines[b] { StartMeets(lines[b - 1], open[0]); }
    }
  }

  lemma {:induction false} MeetsIsEnded(line: string, next: string)
    requires Meets(line, next)
    ensures Ended(line)
  {}

  lemma {:induction false} RestWritable(lines: seq<string>, anns: seq<Annotation>, prefix: string, a: Aliases)
    requires Descending(anns, |lines|) && anns != [] && Writable(lines, anns, prefix, a)
    ensures Descending(anns[1..], Bottom(anns[0]) - 1) && Fits(anns[0], |lines|)
    ensures Writable(lines[..Bottom(anns[0]) - 1], anns[1..], prefix, a)
    ensures Takes(lines, anns[0], prefix, a) && Sound(anns[0]) && Unmarked(prefix)
  {
    hide Takes, Sound, Unmarked;
    RestDescends(anns, |lines|);
    var b := Bottom(anns[0]) - 1;
    forall k | 0 <= k < |anns[1..]| ensures Takes(lines[..b], anns[1..][k], prefix, a) && Sound(anns[1..][k]) {
      assert Fits(anns[1..][k], b) && Takes(lines, anns[k + 1], prefix, a);
      TakesAbove(lines, b, anns[k + 1], prefix, a);
    }
  }

  lemma {:induction false} SameSlice(lines: seq<string>, b: nat, i: nat, j: nat)
    requires i <= j <= b <= |lines|
    ensures lines[..b][i..j] == lines[i..j]
  {}

  lemma {:induction false} TakesAbove(lines: seq<string>, b: nat, ann: Annotation, prefix: string, a: Aliases)
    requires b <= |lines| && Fits(ann, b) && Takes(lines, ann, prefix, a)
    ensures Takes(lines[..b], ann, prefix, a)
  {
    hide Glue, MarkerLines, EndText, MarkOf, IsBlockBegin, Bodies;
    if ann.Block? { SameSlice(lines, b, ann.start - 1, ann.end); }
  }

  lemma {:induction false} ShownAbove(lines: seq<string>, b: nat, ann: Annotation, prefix: string)
    requires b <= |lines| && Fits(ann, b)
    ensures ShownLines(lines[..b], ann, prefix) == ShownLines(lines, ann, prefix)
    ensures Lead(lines[..b], ann, prefix) == Lead(lines, ann, prefix)
  {
    hide Glue, MarkerLines, EndText, BeginText, MarkedLine;
    if ann.Block? { SameSlice(lines, b, ann.start - 1, ann.end); }
  }

  // The lines shown are lines
  lemma {:induction false} ShownAreLines(lines: seq<string>, anns: seq<Annotation>, prefix: string, a: Aliases)
    requires Descending(anns, |lines|) && AreLines(lines) && Writable(lines, anns, prefix, a)
    ensures var all := Shown(lines, anns, prefix);
      AreLines(all) && (lines == [] ==> all == []) && (lines != [] ==> all != [] && EndsLike(lines[|lines| - 1], all[|all| - 1]))
    decreases |anns|
  {
    hide ShownLines, Writable, AreLines, Takes, Sound, Unmarked, EndsLike, Meets;
    if anns == [] {
      if lines != [] { LastEndsLike(lines); }
    } else {
      var b, t := Bottom(anns[0]) - 1, Top(anns[0]);
      RestWritable(lines, anns, prefix, a);
      SliceAreLines(lines, 0, b);
      assert lines[0..b] == lines[..b] && (b > 0 ==> lines[..b][b - 1] == lines[b - 1]);
      ShownAreLines(lines[..b], anns[1..], prefix, a);
      ShownLinesAreLines(lines, anns[0], prefix, a);
      Replaced(lines, b, t, Shown(lines[..b], anns[1..], prefix), ShownLines(lines, anns[0], prefix));
    }
  }

  lemma {:induction false} LastEndsLike(lines: seq<string>)
    requires AreLines(lines) && lines != []
    ensures EndsLike(lines[|lines| - 1], lines[|lines| - 1])
  {}

  lemma {:induction false} TogetherTexts(lines: seq<string>, anns: seq<Annotation>, prefix: string)
    requires Descending(anns, |lines|) && anns != [] && Fits(anns[0], |lines|) && Descending(anns[1..], Bottom(anns[0]) - 1)
    ensures Texts(Together(lines, anns, prefix)) ==
            Texts(Together(lines[..Bottom(anns[0]) - 1], anns[1..], prefix)) + Texts(Annotated(lines, anns[0], prefix)) + lines[Top(anns[0])..]
  {
    hide Annotated, Texts, Untouched;
    var above, here := Together(lines[..Bottom(anns[0]) - 1], anns[1..], prefix), Annotated(lines, anns[0], prefix);
    TextsConcat(above, here);
    TextsConcat(above + here, Untouched(lines[Top(anns[0])..]));
    TextsUntouched(lines[Top(anns[0])..]);
  }

  lemma {:induction false} InsertedText(first: string, ann: Annotation, prefix: string)
    ensures BeginLine(first, ann, prefix) == Indentation(first) + BeginText(ann, prefix) + "\n"
    ensures EndLine(first, prefix) == Indentation(first) + EndText(prefix) + "\n"
  {
    hide Indentation, TypeText;
    var indent := Indentation(first);
    JoinedFrom(indent, prefix, " ", "");
    JoinedFrom(indent, prefix + " ", BLOCK_BEGIN, " ");
    JoinedFrom(indent, prefix + " " + BLOCK_BEGIN + " ", TypeText(ann.types), "\n");
    JoinedFrom(indent, prefix + " ", BLOCK_END, "\n");
  }

  lemma {:induction false} JoinedFrom(a: string, b: string, c: string, d: string)
    ensures a + b + c + d == a + (b + c) + d == a + b + (c + d)
  {}

  lemma {:induction false} ShownLinesJoin(lines: seq<string>, ann: Annotation, prefix: string)
    requires Fits(ann, |lines|) && IsLine(lines[Bottom(ann) - 1])
    ensures Join(ShownLines(lines, ann, prefix)) == Join(Texts(Annotated(lines, ann, prefix)))
  {
    hide Annotated, Texts, MarkedLine, BeginLine, EndLine, BeginText, EndText, MarkerLines, Glue, Join, IsLine, Indentation;
    AnnotatedTexts(lines, ann, prefix);
    if ann.Block? {
      var b, t := Bottom(ann) - 1, Top(ann);
      var open, close := BeginLine(lines[b], ann, prefix), EndLine(lines[b], prefix);
      InsertedText(lines[b], ann, prefix);
      MarkerLinesJoin(lines[b], BeginText(ann, prefix));
      MarkerLinesJoin(lines[b], EndText(prefix));
      GlueJoins(lines[b..t], MarkerLines(lines[b], EndText(prefix)));
      JoinConcat(MarkerLines(lines[b], BeginText(ann, prefix)), ShownEnd(lines, b, t, prefix));
      JoinConcat([open] + lines[b..t], [close]);
      JoinConcat([open], lines[b..t]);
      JoinSingle(open);
      JoinSingle(close);
      assert open + (Join(lines[b..t]) + close) == (open + Join(lines[b..t])) + close;
    }
  }

  // of the new text.
  lemma {:induction false} ShownJoins(lines: seq<string>, anns: seq<Annotation>, prefix: string)
    requires Descending(anns, |lines|) && AreLines(lines)
    ensures Join(Shown(lines, anns, prefix)) == Join(Texts(Together(lines, anns, prefix)))
    decreases |anns|
  {
    hide ShownLines, Annotated, Texts, AreLines, Join, IsLine;
    if anns == [] {
      TextsUntouched(lines);
    } else {
      var b, t := Bottom(anns[0]) - 1, Top(anns[0]);
      RestDescends(anns, |lines|);
      SliceAreLines(lines, 0, b);
      assert lines[0..b] == lines[..b];
      ShownJoins(lines[..b], anns[1..], prefix);
      FirstAreLines(lines, b);
      ShownLinesJoin(lines, anns[0], prefix);
      TogetherTexts(lines, anns, prefix);
      var above, here := Shown(lines[..b], anns[1..], prefix), ShownLines(lines, anns[0], prefix);
      var above', here' := Texts(Together(lines[..b], anns[1..], prefix)), Texts(Annotated(lines, anns[0], prefix));
      JoinConcat(above + here, lines[t..]);
      JoinConcat(above, here);
      JoinConcat(above' + here', lines[t..]);
      JoinConcat(above', here');
    }
  }

  // Splitting the annotated text gives the lines shown.
  lemma {:induction false} SplitIsShown(content: string, anns: seq<Annotation>, prefix: string, a: Aliases)
    requires Descending(anns, |SplitKeep(content)|) && Writable(SplitKeep(content), anns, prefix, a)
    ensures SplitKeep(Join(ApplyAll(SplitKeep(content), anns, prefix))) == Shown(SplitKeep(content), anns, prefix)
  {
    hide Together, ApplyAll, SplitKeep, Join, Writable, Shown;
    var lines := SplitKeep(content);
    SplitAreLines(content);
    SequentialIsTogether(lines, anns, prefix);
    ShownAreLines(lines, anns, prefix, a);
    ShownJoins(lines, anns, prefix);
    SplitOfJoin(Shown(lines, anns, prefix));
  }

  /* ---- what is read back ---- */

  // A line with the inline marker is suppressed, whatever else is suppressed.
  lemma {:induction false} AllowedIsSuppressed(lines: seq<string>, a: Aliases, i: nat)
    requires i < |lines| && IsInlineAllow(lines[i], a)
    ensures Suppressed(lines, a, i)
  {}

  // A begin and an end with nothing between them are a pair.
  lemma {:induction false} NothingBetween(marks: seq<Mark>, i: nat, j: nat, m: nat)
    requires i < m <= j < |marks| && marks[i].Begin? && forall l :: i < l < j ==> marks[l].Plain?
    ensures Depth(marks, i, m) == 1
  {
    if m > i + 1 { NothingBetween(marks, i, j, m - 1); } else { assert Depth(marks, i, i) == 0; }
  }

  lemma {:induction false} RangeIsBlock(marks: seq<Mark>, i: nat, j: nat)
    requires i < j < |marks| && marks[i].Begin? && marks[j].End? && forall l :: i < l < j ==> marks[l].Plain?
    ensures Closes(marks, i, j)
  {
    forall m | i < m <= j ensures Depth(marks, i, m) > 0 { NothingBetween(marks, i, j, m); }
    NothingBetween(marks, i, j, j);
  }

  ghost predicate SuppressedAt(lines: seq<string>, a: Aliases, i: int) { 0 <= i < |lines| && Suppressed(lines, a, i) }

  lemma {:induction false} UnmarkedHasNone(s: string)
    requires Unmarked(s)
    ensures !Contains(s, BLOCK_BEGIN) && !Contains(s, BLOCK_END)
  {}

  // Where the lines shown for annotation k begin.
  function ShownPlace(lines: seq<string>, anns: seq<Annotation>, prefix: string, k: nat): nat
    requires Descending(anns, |lines|) && k < |anns|
    decreases |anns|
  {
    RestDescends(anns, |lines|);
    var above := lines[..Bottom(anns[0]) - 1];
    if k == 0 then |Shown(above, anns[1..], prefix)| else ShownPlace(above, anns[1..], prefix, k - 1)
  }

  // They stand there together, with the annotation's lines behind the lines of the begin marker.
  lemma {:induction false} ShownAt(lines: seq<string>, anns: seq<Annotation>, prefix: string, k: nat)
    requires Descending(anns, |lines|) && k < |anns|
    ensures StandsAt(Shown(lines, anns, prefix), ShownPlace(lines, anns, prefix, k), ShownLines(lines, anns[k], prefix))
    ensures Fits(anns[k], |lines|)
    ensures forall i :: Bottom(anns[k]) - 1 <= i < Top(anns[k]) ==>
      Moved(lines, anns, prefix, i) ==
        ShownPlace(lines, anns, prefix, k) + Lead(lines, anns[k], prefix) + (i - (Bottom(anns[k]) - 1))
    decreases |anns|
  {
    hide ShownLines, StandsAt, Lead;
    var b := Bottom(anns[0]) - 1;
    RestDescends(anns, |lines|);
    var above, here := Shown(lines[..b], anns[1..], prefix), ShownLines(lines, anns[0], prefix);
    StandsInside(above, here, lines[Top(anns[0])..]);
    if k > 0 {
      ShownAt(lines[..b], anns[1..], prefix, k - 1);
      assert Below(anns[0], anns[k]) && anns[1..][k - 1] == anns[k];
      ShownAbove(lines, b, anns[k], prefix);
    }
  }

  lemma {:induction false} BodyAt(all: seq<string>, at: int, here: seq<string>, j: nat)
    requires StandsAt(all, at, here) && j < |here|
    ensures 0 <= at && at + j < |Bodies(all)| && Bodies(all)[at + j] == Body(here[j])
  {}

  // The lines shown for an annotation: its lines are among them, each beginning with what it was.
  ghost predicate Covered(bodies: seq<string>, a: Aliases, place: int, line: string) {
    SuppressedAt(bodies, a, place) && Body(line) <= bodies[place]
  }

  lemma {:induction false} AnnotatedInline(lines: seq<string>, anns: seq<Annotation>, prefix: string, a: Aliases, k: nat)
    requires Descending(anns, |lines|) && AreLines(lines) && Writable(lines, anns, prefix, a)
    requires k < |anns| && anns[k].Inline? && Fits(anns[k], |lines|)
    ensures Covered(Bodies(Shown(lines, anns, prefix)), a, Moved(lines, anns, prefix, anns[k].line - 1), lines[anns[k].line - 1])
  {
    hide Shown, ShownPlace, StandsAt, Bodies, MarkedLine, Marker, Contains, Suppressed, AreLines, IsLine, Unmarked, Moved, Body, Sound;
    var ann, all, at := anns[k], Shown(lines, anns, prefix), ShownPlace(lines, anns, prefix, k);
    var line := lines[ann.line - 1];
    assert Takes(lines, ann, prefix, a) && Sound(ann);
    ShownAt(lines, anns, prefix, k);
    BodyAt(all, at, [MarkedLine(line, ann, prefix).Text()], 0);
    FirstAreLines(lines, ann.line - 1);
    MarkerReads(Body(line), ann, prefix);
    MarkedIsLine(line, ann, prefix);
    UnmarkedHasNone(Body(line) + Marker(ann, prefix));
    AllowedIsSuppressed(Bodies(all), a, at);
  }

  // The last line of a marker reads as the marker.
  lemma {:induction false} MarkerLineReads(first: string, ann: Annotation, prefix: string, a: Aliases)
    requires IsLine(first) && Unmarked(prefix) && Sound(ann)
    ensures var open := MarkerLines(first, BeginText(ann, prefix)); MarkOf(Body(open[|open| - 1]), a).Begin?
  {
    hide MarkerLines, Unmarked, Sound, Contains, ContainsAny, Body, Indentation, Carries, IsLine;
    TextsUnbroken(ann, prefix);
    MarkerLinesAre(first, BeginText(ann, prefix));
    BeginTextReads(ann, prefix, if Carries(first) then "" else Indentation(first));
  }

  lemma {:induction false} BeginTextReads(ann: Annotation, prefix: string, x: string)
    ensures Contains(x + BeginText(ann, prefix), BLOCK_BEGIN) && (x == "" ==> Contains(BeginText(ann, prefix), BLOCK_BEGIN))
  {
    hide Contains, TypeText;
    ContainsMiddle(x + prefix + " ", BLOCK_BEGIN, " " + TypeText(ann.types));
    assert x + BeginText(ann, prefix) == x + prefix + " " + BLOCK_BEGIN + (" " + TypeText(ann.types));
    if x == "" { assert x + BeginText(ann, prefix) == BeginText(ann, prefix); }
  }

  lemma {:induction false} EndTextReads(prefix: string, x: string)
    ensures Contains(x + EndText(prefix), BLOCK_END)
  {
    hide Contains;
    ContainsMiddle(x + prefix + " ", BLOCK_END, "");
    assert x + EndText(prefix) == x + prefix + " " + BLOCK_END + "";
  }

  // The last line shown of a block has the end marker.
  lemma {:induction false} EndIsShown(lines: seq<string>, b: nat, t: nat, prefix: string)
    requires AreLines(lines) && b < t <= |lines| && Unmarked(prefix)
    ensures var shown := ShownEnd(lines, b, t, prefix); Contains(Body(shown[|shown| - 1]), BLOCK_END)
  {
    hide AreLines, IsLine, Contains, Body, EndText, Meets, Carries, Ended, Indentation, Unmarked, Glue, MarkerLines;
    FirstAreLines(lines, b);
    FirstAreLines(lines, t - 1);
    TextsUnbroken(Inline(0, []), prefix);
    MarkerLinesAre(lines[b], EndText(prefix));
    GlueEnds(lines[b..t], MarkerLines(lines[b], EndText(prefix)));
    assert lines[b..t][t - b - 1] == lines[t - 1];
    EndReads(lines[t - 1], MarkerLines(lines[b], EndText(prefix)), Indentation(lines[b]), prefix);
  }

  lemma {:induction false} EndReads(last: string, close: seq<string>, indent: string, prefix: string)
    requires IsLine(last) && AreLines(close) && 1 <= |close| <= 2 && Ended(close[0])
    requires if |close| == 1 then StartsLine(close[0]) && Body(close[0]) == indent + EndText(prefix) else Body(close[1]) == EndText(prefix)
    ensures var r := if |close| > 1 || Meets(last, close[0]) then close[|close| - 1] else last + close[0];
      Contains(Body(r), BLOCK_END)
  {
    hide IsLine, AreLines, Contains, Body, EndText, Meets, Ended, StartsLine;
    if |close| > 1 {
      EndTextReads(prefix, "");
      assert "" + EndText(prefix) == EndText(prefix);
    } else if Meets(last, close[0]) {
      EndTextReads(prefix, indent);
    } else {
      FirstAreLines(close, 0);
      GluedIsLine(last, close[0]);
      if Ended(last) { StartMeets(last, close[0]); }
      EndTextReads(prefix, last + indent);
      JoinedTo(last, indent, EndText(prefix));
    }
  }

  lemma {:induction false} JoinedTo(a: string, b: string, c: string)
    ensures a + b + c == a + (b + c)
  {}

  lemma {:induction false} GlueEnds(lines: seq<string>, more: seq<string>)
    requires lines != [] && more != []
    ensures var r := Glue(lines, more);
      r[|r| - 1] == if |more| > 1 || Meets(lines[|lines| - 1], more[0]) then more[|more| - 1] else lines[|lines| - 1] + more[0]
  {
    hide Meets;
  }

  lemma {:induction false} GlueAt(lines: seq<string>, more: seq<string>, j: nat)
    requires j < |lines| && more != []
    ensures Glue(lines, more)[j] ==
            if j == |lines| - 1 && !Meets(lines[j], more[0]) then lines[j] + more[0] else lines[j]
  {
    hide Meets;
  }

  // Every line of the range begins, as shown, with what it was.
  lemma {:induction false} ShownKeeps(lines: seq<string>, b: nat, t: nat, prefix: string, i: nat)
    requires AreLines(lines) && b <= i < t <= |lines| && Unmarked(prefix)
    ensures i - b < |ShownEnd(lines, b, t, prefix)| && Body(lines[i]) <= Body(ShownEnd(lines, b, t, prefix)[i - b])
  {
    hide AreLines, IsLine, Meets, MarkerLines, EndText, Ended, Unmarked, Body, Glue;
    FirstAreLines(lines, b);
    FirstAreLines(lines, i);
    TextsUnbroken(Inline(0, []), prefix);
    MarkerLinesAre(lines[b], EndText(prefix));
    var close := MarkerLines(lines[b], EndText(prefix));
    FirstAreLines(close, 0);
    GlueAt(lines[b..t], close, i - b);
    assert lines[b..t][i - b] == lines[i];
    if !Meets(lines[i], close[0]) { GluedKeeps(lines[i], close[0]); }
  }

  lemma {:induction false} GluedKeeps(line: string, next: string)
    requires IsLine(line) && IsLine(next) && Ended(next) && !Meets(line, next)
    ensures Body(line) <= Body(line + next)
  {
    hide IsLine, Ended, Meets, Body;
    GluedIsLine(line, next);
    BodyIsPrefix(line);
  }

  lemma {:induction false} BodyIsPrefix(line: string)
    ensures Body(line) <= line && (!Ended(line) ==> Body(line) == line)
  {}

  lemma {:induction false} AnnotatedBlock(lines: seq<string>, anns: seq<Annotation>, prefix: string, a: Aliases, k: nat, i: nat)
    requires Descending(anns, |lines|) && AreLines(lines) && Writable(lines, anns, prefix, a)
    requires k < |anns| && anns[k].Block? && Fits(anns[k], |lines|) && anns[k].start <= i + 1 <= anns[k].end
    ensures Covered(Bodies(Shown(lines, anns, prefix)), a, Moved(lines, anns, prefix, i), lines[i])
  {
    hide Shown, StandsAt, Bodies, Sound, MarkOf, Takes, Unmarked, MarkerLines, BeginText, ShownEnd, ShownLines, Lead, ShownPlace, Moved, AreLines, Body, Suppressed;
    var ann, at := anns[k], ShownPlace(lines, anns, prefix, k);
    var b, t := ann.start - 1, ann.end;
    var open, shown := MarkerLines(lines[b], BeginText(ann, prefix)), ShownEnd(lines, b, t, prefix);
    assert Takes(lines, ann, prefix, a) && Sound(ann);
    ShownAt(lines, anns, prefix, k);
    FirstAreLines(lines, b);
    MarkerLineReads(lines[b], ann, prefix, a);
    BlockMarks(lines, ann, prefix, a);
    BlockShows(lines, ann, prefix);
    StandsApart(Shown(lines, anns, prefix), at, open, shown);
    BlockReads(Shown(lines, anns, prefix), a, at + |open| - 1, open[|open| - 1], shown, i - b);
    ShownKeeps(lines, b, t, prefix, i);
  }

  lemma {:induction false} BlockShows(lines: seq<string>, ann: Annotation, prefix: string)
    requires Fits(ann, |lines|) && ann.Block?
    ensures ShownLines(lines, ann, prefix) ==
      MarkerLines(lines[ann.start - 1], BeginText(ann, prefix)) + ShownEnd(lines, ann.start - 1, ann.end, prefix)
    ensures Lead(lines, ann, prefix) == |MarkerLines(lines[ann.start - 1], BeginText(ann, prefix))|
  {}

  lemma {:induction false} StandsApart(all: seq<string>, at: int, open: seq<string>, shown: seq<string>)
    requires StandsAt(all, at, open + shown) && open != []
    ensures StandsAt(all, at + |open| - 1, [open[|open| - 1]] + shown)
  {
    assert forall j :: 0 <= j < |shown| ==> (open + shown)[|open| + j] == shown[j];
    assert (open + shown)[|open| - 1] == open[|open| - 1];
  }

  // Lines that read as a begin, no marker, and at last an end are suppressed.
  lemma {:induction false} BlockReads(all: seq<string>, a: Aliases, at: int, begin: string, shown: seq<string>, j: nat)
    requires StandsAt(all, at, [begin] + shown) && j < |shown| && MarkOf(Body(begin), a).Begin?
    requires forall l :: 0 <= l < |shown| ==> MarkOf(Body(shown[l]), a) == if l == |shown| - 1 then End else Plain
    ensures SuppressedAt(Bodies(all), a, at + 1 + j) && Bodies(all)[at + 1 + j] == Body(shown[j])
  {
    hide MarkOf, Body, Closes, Active;
    var bodies := Bodies(all);
    forall l | 0 <= l < |shown| ensures at + 1 + l < |bodies| && bodies[at + 1 + l] == Body(shown[l]) {
      assert ([begin] + shown)[l + 1] == shown[l];
    }
    assert ([begin] + shown)[0] == begin && bodies[at] == Body(begin);
    assert forall l :: at < l < at + |shown| ==> bodies[l] == Body(shown[l - at - 1]);
    assert bodies[at + |shown|] == Body(shown[|shown| - 1]);
    RangeIsBlock(Marks(bodies, a), at, at + |shown|);
  }

  // No line shown of the range reads as a marker but the last, which reads as the end.
  lemma {:induction false} BlockMarks(lines: seq<string>, ann: Annotation, prefix: string, a: Aliases)
    requires AreLines(lines) && Fits(ann, |lines|) && ann.Block? && Takes(lines, ann, prefix, a) && Unmarked(prefix)
    ensures var shown := ShownEnd(lines, ann.start - 1, ann.end, prefix);
      forall j :: 0 <= j < |shown| ==> MarkOf(Body(shown[j]), a) == if j == |shown| - 1 then End else Plain
  {
    hide ShownEnd, AreLines, Contains, ContainsAny, Unmarked, Body;
    var shown := ShownEnd(lines, ann.start - 1, ann.end, prefix);
    EndIsShown(lines, ann.start - 1, ann.end, prefix);
    assert forall j :: 0 <= j < |shown| ==> Bodies(shown)[j] == Body(shown[j]);
  }

  // Every annotated line is suppressed where it is now, and so is every line of an annotated range.
  lemma {:induction false} AppliedIsSuppressed(content: string, anns: seq<Annotation>, prefix: string, a: Aliases, k: nat, i: nat)
    requires Descending(anns, |SplitKeep(content)|) && Writable(SplitKeep(content), anns, prefix, a)
    requires k < |anns| && Bottom(anns[k]) <= i + 1 <= Top(anns[k])
    ensures i < |SplitKeep(content)|
    ensures Covered(Split(Join(ApplyAll(SplitKeep(content), anns, prefix))), a,
                    Moved(SplitKeep(content), anns, prefix, i), SplitKeep(content)[i])
  {
    hide ApplyAll, SplitKeep, Join, Takes, Sound, Unmarked, Covered, Shown, Moved;
    SplitAreLines(content);
    SplitIsShown(content, anns, prefix, a);
    if anns[k].Block? {
      AnnotatedBlock(SplitKeep(content), anns, prefix, a, k, i);
    } else {
      AnnotatedInline(SplitKeep(content), anns, prefix, a, k);
    }
  }

  /* ---- ordinary blocks ---- */

  // Blocks whose first line has text and whose last line has an end, which is where they usually are.
  predicate Ordinary(lines: seq<string>, ann: Annotation)
    requires Fits(ann, |lines|)
  {
    ann.Block? ==> !Carries(lines[ann.start - 1]) && Ended(lines[ann.end - 1])
  }

  // Such a block can be written when its lines have no markers and its end line does not read as a begin.
  lemma {:induction false} OrdinaryTakes(lines: seq<string>, ann: Annotation, prefix: string, a: Aliases)
    requires AreLines(lines) && Fits(ann, |lines|) && ann.Block? && NonBlank(lines[ann.start - 1]) && Ended(lines[ann.end - 1])
    requires Unmarked(prefix)
    ensures Takes(lines, ann, prefix, a) <==>
      (forall i :: ann.start - 1 <= i < ann.end ==> MarkOf(Body(lines[i]), a).Plain?)
      && !ContainsAny(Closing(lines[ann.start - 1], prefix), a.begin)
  {
    hide AreLines, Contains, ContainsAny, Unmarked, Body, NonBlank, Ended, Meets, Indentation;
    var b, t := ann.start - 1, ann.end;
    OrdinaryIsShown(lines, b, t, prefix);
    var shown := ShownEnd(lines, b, t, prefix);
    assert forall i :: b <= i < t ==> shown[i - b] == lines[i] && Bodies(shown)[i - b] == Body(lines[i]);
    assert Bodies(shown)[t - b] == Closing(lines[b], prefix);
    NoBeginMarker(lines[b], prefix);
    if Takes(lines, ann, prefix, a) {
      forall i | b <= i < t ensures MarkOf(Body(lines[i]), a).Plain? { assert MarkOf(Bodies(shown)[i - b], a).Plain?; }
    } else if (forall i :: b <= i < t ==> MarkOf(Body(lines[i]), a).Plain?) && !IsBlockBegin(Closing(lines[b], prefix), a) {
      forall j | 0 <= j < t - b ensures MarkOf(Bodies(shown)[j], a).Plain? { assert Bodies(shown)[j] == Body(lines[j + b]); }
    }
  }

  lemma {:induction false} NoBeginMarker(first: string, prefix: string)
    requires NonBlank(first) && Unmarked(prefix)
    ensures !Contains(Closing(first, prefix), BLOCK_BEGIN)
  {
    hide Unmarked, NonBlank, Contains;
    ClosingReads(first, prefix, Aliases([], [], [], []));
    NoAliases(Closing(first, prefix));
  }

  lemma {:induction false} NoAliases(line: string)
    requires MarkOf(line, Aliases([], [], [], [])).End?
    ensures !Contains(line, BLOCK_BEGIN)
  {}

  lemma {:induction false} OrdinaryIsShown(lines: seq<string>, b: nat, t: nat, prefix: string)
    requires AreLines(lines) && b < t <= |lines| && Unmarked(prefix) && !Carries(lines[b]) && Ended(lines[t - 1])
    ensures ShownEnd(lines, b, t, prefix) == lines[b..t] + [EndLine(lines[b], prefix)]
    ensures Body(EndLine(lines[b], prefix)) == Closing(lines[b], prefix)
  {
    hide AreLines, IsLine, Carries, Ended, Body, Indentation, Unmarked;
    FirstAreLines(lines, b);
    TextsUnbroken(Inline(0, []), prefix);
    MarkerLinesAre(lines[b], EndText(prefix));
    var close := MarkerLines(lines[b], EndText(prefix));
    IndentationUnbroken(lines[b]);
    FeedLine(Indentation(lines[b]) + EndText(prefix));
    assert EndLine(lines[b], prefix) == Indentation(lines[b]) + EndText(prefix) + "\n" == close[0];
    assert Closing(lines[b], prefix) == Indentation(lines[b]) + EndText(prefix);
    StartMeets(lines[t - 1], close[0]);
  }

  lemma {:induction false} OrdinaryLines(lines: seq<string>, ann: Annotation, prefix: string)
    requires AreLines(lines) && Fits(ann, |lines|) && Ordinary(lines, ann) && Unmarked(prefix)
    ensures ShownLines(lines, ann, prefix) == Texts(Annotated(lines, ann, prefix))
    ensures Lead(lines, ann, prefix) == if ann.Block? then 1 else 0
  {
    hide AreLines, Carries, Ended, MarkedLine, EndText, BeginText, BeginLine, EndLine, ShownEnd, Annotated, Texts, Unmarked, Indentation;
    AnnotatedTexts(lines, ann, prefix);
    if ann.Block? {
      InsertedText(lines[ann.start - 1], ann, prefix);
      OrdinaryIsShown(lines, ann.start - 1, ann.end, prefix);
      var b, t := ann.start - 1, ann.end;
      var open, close := BeginLine(lines[b], ann, prefix), EndLine(lines[b], prefix);
      assert [open] + (lines[b..t] + [close]) == [open] + lines[b..t] + [close];
    }
  }

  // Where all blocks are ordinary the lines shown are the list of lines, and each is where that has it.
  lemma {:induction false} OrdinaryIsTogether(lines: seq<string>, anns: seq<Annotation>, prefix: string)
    requires AreLines(lines) && Descending(anns, |lines|) && Unmarked(prefix)
    requires forall k :: 0 <= k < |anns| ==> Ordinary(lines, anns[k])
    ensures Shown(lines, anns, prefix) == Texts(Together(lines, anns, prefix))
    ensures forall i :: 0 <= i < |lines| ==> Moved(lines, anns, prefix, i) == Shifted(anns, i)
    decreases |anns|
  {
    hide AreLines, Ordinary, ShownLines, Annotated, Texts, Unmarked, Lead;
    if anns == [] {
      TextsUntouched(lines);
    } else {
      var b, t := Bottom(anns[0]) - 1, Top(anns[0]);
      RestDescends(anns, |lines|);
      SliceAreLines(lines, 0, b);
      assert lines[0..b] == lines[..b];
      forall k | 0 <= k < |anns[1..]| ensures Ordinary(lines[..b], anns[1..][k]) {
        OrdinaryAbove(lines, b, anns[k + 1]) by { assert anns[1..][k] == anns[k + 1]; }
      }
      OrdinaryIsTogether(lines[..b], anns[1..], prefix);
      OrdinaryLines(lines, anns[0], prefix);
      TogetherTexts(lines, anns, prefix);
      TogetherLength(lines[..b], anns[1..], prefix);
      AnnotatedAt(lines, anns[0], prefix, b);
      forall i | 0 <= i < |lines| ensures Moved(lines, anns, prefix, i) == Shifted(anns, i) {
        if i >= b { ShiftedBelow(anns[1..], b, i); } else { assert Moved(lines[..b], anns[1..], prefix, i) == Shifted(anns[1..], i); }
      }
    }
  }

  lemma {:induction false} OrdinaryAbove(lines: seq<string>, b: nat, ann: Annotation)
    requires b <= |lines| && Fits(ann, b) && Ordinary(lines, ann)
    ensures Ordinary(lines[..b], ann)
  {
    hide Carries, Ended;
  }
}
