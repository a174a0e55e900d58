/** Inserting annotations one after another, bottom to top, and what stands where when all are in place. */
module Insertion {
  import opened TextLines
  import opened Annotations
  import opened Annotator
  import Lexical

  function TypeText(types: seq<string>): string {
    if types == [] then "" else if |types| == 1 then types[0] else types[0] + "," + TypeText(types[1..])
  }

  // Leading whitespace.
  function Indentation(line: string): string {
    if line == "" || !Lexical.IsSpace(line[0]) then "" else line[..1] + Indentation(line[1..])
  }

  // Length of a line without the line feeds and carriage returns at its end.
  function StrippedLen(line: string): (n: nat)
    ensures n <= |line|
  {
    if line == "" then 0
    else if line[|line| - 1] == '\n' || line[|line| - 1] == '\r' then StrippedLen(line[..|line| - 1])
    else |line|
  }

  function Marker(ann: Annotation, prefix: string): string {
    "  " + prefix + " " + INLINE + " " + TypeText(ann.types)
  }

  function BeginLine(first: string, ann: Annotation, prefix: string): string {
    Indentation(first) + prefix + " " + BLOCK_BEGIN + " " + TypeText(ann.types) + "\n"
  }

  function EndLine(first: string, prefix: string): string {
    Indentation(first) + prefix + " " + BLOCK_END + "\n"
  }

  /* ---- _apply_annotations ---- */

  // list.insert: past the end is at the end.
  function InsertAt<T>(xs: seq<T>, i: nat, x: T): seq<T> {
    if i <= |xs| then xs[..i] + [x] + xs[i..] else xs + [x]
  }

  function ApplyOne(lines: seq<string>, ann: Annotation, prefix: string): seq<string>
    requires Bottom(ann) >= 1
  {
    match ann
    case Block(_, _, start, end) =>
      var first := if start - 1 < |lines| then lines[start - 1] else "";
      InsertAt(InsertAt(lines, end, EndLine(first, prefix)), start - 1, BeginLine(first, ann, prefix))
    case Inline(line, _) =>
      if line - 1 < |lines| then lines[line - 1 := MarkedLine(lines[line - 1], ann, prefix).Text()] else lines
  }

  function ApplyAll(lines: seq<string>, anns: seq<Annotation>, prefix: string): seq<string>
    requires forall k :: 0 <= k < |anns| ==> Bottom(anns[k]) >= 1
    decreases |anns|
  {
    if anns == [] then lines else ApplyAll(ApplyOne(lines, anns[0], prefix), anns[1..], prefix)
  }

  method ApplyAnnotations(content: string, anns: seq<Annotation>, prefix: string) returns (r: string)
    requires forall k :: 0 <= k < |anns| ==> Bottom(anns[k]) >= 1
    ensures r == Join(ApplyAll(SplitKeep(content), anns, prefix))
  {
    hide SplitKeep, Join, MarkedLine, BeginLine, EndLine;
    var lines := SplitKeep(content);
    for k := 0 to |anns|
      invariant ApplyAll(SplitKeep(content), anns, prefix) == ApplyAll(lines, anns[k..], prefix)
    {
      var ann := anns[k];
      ghost var before := lines;
      if ann.Block? {
        var first := if ann.start - 1 < |lines| then lines[ann.start - 1] else "";
        lines := InsertAt(lines, ann.end, EndLine(first, prefix));
        lines := InsertAt(lines, ann.start - 1, BeginLine(first, ann, prefix));
      } else if ann.line - 1 < |lines| {
        var n := StrippedLen(lines[ann.line - 1]);
        var stripped, eol := lines[ann.line - 1][..n], lines[ann.line - 1][n..];
        lines := lines[ann.line - 1 := stripped + Marker(ann, prefix) + eol];
        MarkedText(before[ann.line - 1], ann, prefix);
      }
      assert lines == ApplyOne(before, ann, prefix);
      assert anns[k..][1..] == anns[k + 1..];
    }
    r := Join(lines);
  }

  lemma {:induction false} MarkedText(line: string, ann: Annotation, prefix: string)
    ensures MarkedLine(line, ann, prefix).Text() == line[..StrippedLen(line)] + Marker(ann, prefix) + line[StrippedLen(line)..]
  {}

  /* ---- all annotations at once ---- */

  // A line of the result, with what was added to it told apart.
  datatype Line = Line(before: string, added: string, after: string) {
    function Text(): string { before + added + after }
    function Own(): string { before + after }
  }

  function Untouched(lines: seq<string>): (r: seq<Line>)
    ensures |r| == |lines|
  {
    seq(|lines|, i requires 0 <= i < |lines| => Line(lines[i], "", ""))
  }

  function MarkedLine(line: string, ann: Annotation, prefix: string): Line {
    Line(line[..StrippedLen(line)], Marker(ann, prefix), line[StrippedLen(line)..])
  }

  // The lines an annotation is about, annotated.
  function Annotated(lines: seq<string>, ann: Annotation, prefix: string): seq<Line>
    requires Fits(ann, |lines|)
  {
    match ann
    case Block(_, _, start, end) =>
      [Line("", BeginLine(lines[start - 1], ann, prefix), "")]
      + Untouched(lines[start - 1..end])
      + [Line("", EndLine(lines[start - 1], prefix), "")]
    case Inline(line, _) => [MarkedLine(lines[line - 1], ann, prefix)]
  }

  // The text falls into the lines above, in and below the lowest annotation.
  function Together(lines: seq<string>, anns: seq<Annotation>, prefix: string): seq<Line>
    requires Descending(anns, |lines|)
    decreases |anns|
  {
    if anns == [] then Untouched(lines)
    else
      RestDescends(anns, |lines|);
      Together(lines[..Bottom(anns[0]) - 1], anns[1..], prefix) + Annotated(lines, anns[0], prefix) + Untouched(lines[Top(anns[0])..])
  }

  function Texts(lines: seq<Line>): (r: seq<string>)
    ensures |r| == |lines|
  {
    seq(|lines|, i requires 0 <= i < |lines| => lines[i].Text())
  }

  function Owns(lines: seq<Line>): (r: seq<string>)
    ensures |r| == |lines|
  {
    seq(|lines|, i requires 0 <= i < |lines| => lines[i].Own())
  }

  lemma {:induction false} RestDescends(anns: seq<Annotation>, n: nat)
    requires anns != [] && Descending(anns, n)
    ensures Fits(anns[0], n) && Descending(anns[1..], Bottom(anns[0]) - 1)
  {}

  lemma {:induction false} InsertAbove<T>(xs: seq<T>, rest: seq<T>, i: nat, x: T)
    requires i <= |xs|
    ensures InsertAt(xs + rest, i, x) == InsertAt(xs, i, x) + rest
    ensures |InsertAt(xs, i, x)| == |xs| + 1
  {
    assert (xs + rest)[..i] == xs[..i] && (xs + rest)[i..] == xs[i..] + rest;
  }

  // An annotation above the last lines leaves them alone.
  lemma {:induction false} ApplyOneAbove(lines: seq<string>, rest: seq<string>, ann: Annotation, prefix: string)
    requires Fits(ann, |lines|)
    ensures ApplyOne(lines + rest, ann, prefix) == ApplyOne(lines, ann, prefix) + rest
    ensures |ApplyOne(lines, ann, prefix)| >= |lines|
  {
    hide MarkedLine, BeginLine, EndLine, InsertAt;
    if ann.Block? {
      var first := lines[ann.start - 1];
      InsertAbove(lines, rest, ann.end, EndLine(first, prefix));
      InsertAbove(InsertAt(lines, ann.end, EndLine(first, prefix)), rest, ann.start - 1, BeginLine(first, ann, prefix));
    }
  }

  lemma {:induction false} ApplyAbove(lines: seq<string>, rest: seq<string>, anns: seq<Annotation>, prefix: string)
    requires Descending(anns, |lines|)
    ensures ApplyAll(lines + rest, anns, prefix) == ApplyAll(lines, anns, prefix) + rest
    decreases |anns|
  {
    hide ApplyOne;
    if anns != [] {
      ApplyOneAbove(lines, rest, anns[0], prefix);
      RestDescends(anns, |lines|);
      FitMore(anns[1..], Bottom(anns[0]) - 1, |ApplyOne(lines, anns[0], prefix)|);
      ApplyAbove(ApplyOne(lines, anns[0], prefix), rest, anns[1..], prefix);
    }
  }

  lemma {:induction false} FitMore(anns: seq<Annotation>, n: nat, m: nat)
    requires Descending(anns, n) && n <= m
    ensures Descending(anns, m)
  {}

  lemma {:induction false} InsertTwo<T>(xs: seq<T>, b: nat, t: nat, x: T, y: T)
    requires b <= t <= |xs|
    ensures InsertAt(InsertAt(xs, t, y), b, x) == xs[..b] + [x] + xs[b..t] + [y] + xs[t..]
  {}

  lemma {:induction false} AnnotatedTexts(lines: seq<string>, ann: Annotation, prefix: string)
    requires Fits(ann, |lines|)
    ensures var b, t := Bottom(ann) - 1, Top(ann);
      Texts(Annotated(lines, ann, prefix)) ==
        if ann.Block? then [BeginLine(lines[b], ann, prefix)] + lines[b..t] + [EndLine(lines[b], prefix)]
        else [MarkedLine(lines[b], ann, prefix).Text()]
  {
    hide MarkedLine, BeginLine, EndLine;
    if ann.Block? {
      var b, t := Bottom(ann) - 1, Top(ann);
      var open, close := BeginLine(lines[b], ann, prefix), EndLine(lines[b], prefix);
      TextsUntouched(lines[b..t]);
      TextsConcat([Line("", open, "")], Untouched(lines[b..t]));
      TextsConcat([Line("", open, "")] + Untouched(lines[b..t]), [Line("", close, "")]);
      assert Line("", open, "").Text() == open && Line("", close, "").Text() == close;
    }
  }

  lemma {:induction false} AroundThree<T>(a: seq<T>, b: seq<T>, c: seq<T>, d: seq<T>, e: seq<T>)
    ensures a + b + c + d + e == a + (b + c + d) + e
  {}

  lemma {:induction false} AnnotatedApplies(lines: seq<string>, ann: Annotation, prefix: string)
    requires Fits(ann, |lines|)
    ensures ApplyOne(lines, ann, prefix) ==
            lines[..Bottom(ann) - 1] + Texts(Annotated(lines, ann, prefix)) + lines[Top(ann)..]
  {
    hide MarkedLine, BeginLine, EndLine, InsertAt, Annotated, Texts;
    var b, t := Bottom(ann) - 1, Top(ann);
    AnnotatedTexts(lines, ann, prefix);
    if ann.Block? {
      var open, close := BeginLine(lines[b], ann, prefix), EndLine(lines[b], prefix);
      InsertTwo(lines, b, t, open, close);
      AroundThree(lines[..b], [open], lines[b..t], [close], lines[t..]);
    }
  }

  lemma {:induction false} TextsConcat(a: seq<Line>, b: seq<Line>)
    ensures Texts(a + b) == Texts(a) + Texts(b) && Owns(a + b) == Owns(a) + Owns(b)
  {}

  lemma {:induction false} TextsUntouched(lines: seq<string>)
    ensures Texts(Untouched(lines)) == lines && Owns(Untouched(lines)) == lines
  {
    assert forall i :: 0 <= i < |lines| ==> Untouched(lines)[i].Text() == lines[i] && Untouched(lines)[i].Own() == lines[i];
  }

  // Inserting one after another, bottom to top, is inserting all at once.
  lemma {:induction false} SequentialIsTogether(lines: seq<string>, anns: seq<Annotation>, prefix: string)
    requires Descending(anns, |lines|)
    ensures ApplyAll(lines, anns, prefix) == Texts(Together(lines, anns, prefix))
    decreases |anns|
  {
    hide ApplyOne, Annotated, Texts, Untouched;
    if anns == [] {
      TextsUntouched(lines);
    } else {
      var b, t := Bottom(anns[0]) - 1, Top(anns[0]);
      RestDescends(anns, |lines|);
      SequentialIsTogether(lines[..b], anns[1..], prefix);
      AnnotatedApplies(lines, anns[0], prefix);
      var rest := Texts(Annotated(lines, anns[0], prefix)) + lines[t..];
      assert ApplyOne(lines, anns[0], prefix) == lines[..b] + rest;
      ApplyAbove(lines[..b], rest, anns[1..], prefix);
      var above := Together(lines[..b], anns[1..], prefix);
      TextsConcat(above, Annotated(lines, anns[0], prefix));
      TextsConcat(above + Annotated(lines, anns[0], prefix), Untouched(lines[t..]));
      TextsUntouched(lines[t..]);
    }
  }

  /* ---- erasing what was added ---- */

  lemma {:induction false} AnnotatedOwns(lines: seq<string>, ann: Annotation, prefix: string)
    requires Fits(ann, |lines|)
    ensures Join(Owns(Annotated(lines, ann, prefix))) == Join(lines[Bottom(ann) - 1..Top(ann)])
  {
    hide Marker, BeginLine, EndLine, StrippedLen;
    if ann.Block? {
      var within := lines[ann.start - 1..ann.end];
      TextsUntouched(within);
      assert Owns(Annotated(lines, ann, prefix)) == [""] + within + [""];
      JoinConcat([""] + within, [""]);
      JoinConcat([""], within);
      JoinSingle("");
    } else {
      var line := lines[ann.line - 1];
      assert MarkedLine(line, ann, prefix).Own() == line;
      assert Owns(Annotated(lines, ann, prefix)) == [line] == lines[ann.line - 1..ann.line];
    }
  }

  lemma {:induction false} JoinSingle(line: string)
    ensures Join([line]) == line
  {}

  // Without what was added, the text is what it was.
  lemma {:induction false} ErasingGivesBack(lines: seq<string>, anns: seq<Annotation>, prefix: string)
    requires Descending(anns, |lines|)
    ensures Join(Owns(Together(lines, anns, prefix))) == Join(lines)
    decreases |anns|
  {
    hide Annotated, Owns, Texts, Untouched, Join;
    if anns == [] {
      TextsUntouched(lines);
    } else {
      var b, t := Bottom(anns[0]) - 1, Top(anns[0]);
      RestDescends(anns, |lines|);
      ErasingGivesBack(lines[..b], anns[1..], prefix);
      AnnotatedOwns(lines, anns[0], prefix);
      var above, here := Together(lines[..b], anns[1..], prefix), Annotated(lines, anns[0], prefix);
      TextsConcat(above, here);
      TextsConcat(above + here, Untouched(lines[t..]));
      TextsUntouched(lines[t..]);
      JoinConcat(Owns(above) + Owns(here), lines[t..]);
      JoinConcat(Owns(above), Owns(here));
      JoinConcat(lines[..b], lines[b..t]);
      JoinConcat(lines[..b] + lines[b..t], lines[t..]);
      assert lines[..b] + lines[b..t] + lines[t..] == lines;
    }
  }

  lemma {:induction false} ErasingContent(content: string, anns: seq<Annotation>, prefix: string)
    requires Descending(anns, |SplitKeep(content)|)
    ensures ApplyAll(SplitKeep(content), anns, prefix) == Texts(Together(SplitKeep(content), anns, prefix))
    ensures Join(Owns(Together(SplitKeep(content), anns, prefix))) == content
  {
    SequentialIsTogether(SplitKeep(content), anns, prefix);
    ErasingGivesBack(SplitKeep(content), anns, prefix);
    JoinOfSplit(content);
  }

  /* ---- where the lines are ---- */

  // How many lines an annotation puts in front of line i.
  function Push(ann: Annotation, i: nat): nat {
    if ann.Inline? then 0 else (if ann.start <= i + 1 then 1 else 0) + (if ann.end <= i then 1 else 0)
  }

  // Where line i is when all annotations are in place.
  function Shifted(anns: seq<Annotation>, i: nat): nat {
    if anns == [] then i else Push(anns[0], i) + Shifted(anns[1..], i)
  }

  function Added(anns: seq<Annotation>): nat {
    if anns == [] then 0 else (if anns[0].Block? then 2 else 0) + Added(anns[1..])
  }

  lemma {:induction false} TogetherLength(lines: seq<string>, anns: seq<Annotation>, prefix: string)
    requires Descending(anns, |lines|)
    ensures |Together(lines, anns, prefix)| == |lines| + Added(anns)
    decreases |anns|
  {
    hide MarkedLine, BeginLine, EndLine;
    if anns != [] {
      RestDescends(anns, |lines|);
      TogetherLength(lines[..Bottom(anns[0]) - 1], anns[1..], prefix);
    }
  }

  lemma {:induction false} ShiftedBelow(anns: seq<Annotation>, n: nat, i: nat)
    requires Descending(anns, n) && n <= i
    ensures Shifted(anns, i) == i + Added(anns)
    decreases |anns|
  {
    if anns != [] {
      RestDescends(anns, n);
      ShiftedBelow(anns[1..], Bottom(anns[0]) - 1, i);
    }
  }

  // Line i is in its place, and all that was there is there.
  lemma {:induction false} LineAt(lines: seq<string>, anns: seq<Annotation>, prefix: string, i: nat)
    requires Descending(anns, |lines|) && i < |lines|
    ensures Shifted(anns, i) < |lines| + Added(anns) == |Together(lines, anns, prefix)|
    ensures Together(lines, anns, prefix)[Shifted(anns, i)].Own() == lines[i]
    decreases |anns|
  {
    hide Annotated, Untouched;
    TogetherLength(lines, anns, prefix);
    if anns == [] {
      UntouchedAt(lines, i);
    } else {
      var b, t := Bottom(anns[0]) - 1, Top(anns[0]);
      RestDescends(anns, |lines|);
      TogetherLength(lines[..b], anns[1..], prefix);
      if i < b {
        LineAt(lines[..b], anns[1..], prefix, i);
      } else {
        ShiftedBelow(anns[1..], b, i);
        AnnotatedAt(lines, anns[0], prefix, i);
        if i >= t { UntouchedAt(lines[t..], i - t); }
      }
    }
  }

  lemma {:induction false} UntouchedAt(lines: seq<string>, i: nat)
    requires i < |lines|
    ensures Untouched(lines)[i] == Line(lines[i], "", "") && Untouched(lines)[i].Own() == lines[i]
  {}

  lemma {:induction false} AnnotatedAt(lines: seq<string>, ann: Annotation, prefix: string, i: nat)
    requires Fits(ann, |lines|) && Bottom(ann) <= i + 1
    ensures var here := Annotated(lines, ann, prefix);
      && |here| == Top(ann) + 1 - Bottom(ann) + (if ann.Block? then 2 else 0)
      && (i < Top(ann) ==> here[i + 1 - Bottom(ann) + Push(ann, i)].Own() == lines[i])
  {
    hide Marker, BeginLine, EndLine, StrippedLen;
    if ann.Block? && i < ann.end { UntouchedAt(lines[ann.start - 1..ann.end], i + 1 - ann.start); }
  }

  predicate StandsAt<T(==)>(all: seq<T>, at: int, here: seq<T>) {
    0 <= at && at + |here| <= |all| && forall j :: 0 <= j < |here| ==> all[at + j] == here[j]
  }

  lemma {:induction false} StandsInside<T>(a: seq<T>, here: seq<T>, b: seq<T>)
    ensures StandsAt(a + here + b, |a|, here)
    ensures forall at, x: seq<T> :: StandsAt(a, at, x) ==> StandsAt(a + here + b, at, x)
  {}

  function Place(anns: seq<Annotation>, ann: Annotation): int
    requires Bottom(ann) >= 1
  {
    Shifted(anns, Bottom(ann) - 1) - (if ann.Block? then 1 else 0)
  }

  // Annotation k's lines stand together, at the place of the first of them.
  lemma {:induction false} AnnotationAt(lines: seq<string>, anns: seq<Annotation>, prefix: string, k: nat)
    requires Descending(anns, |lines|) && k < |anns|
    ensures StandsAt(Together(lines, anns, prefix), Place(anns, anns[k]), Annotated(lines, anns[k], prefix))
    decreases |anns|
  {
    hide Annotated, Untouched, StandsAt;
    var b := Bottom(anns[0]) - 1;
    RestDescends(anns, |lines|);
    TogetherLength(lines[..b], anns[1..], prefix);
    var above, here := Together(lines[..b], anns[1..], prefix), Annotated(lines, anns[0], prefix);
    StandsInside(above, here, Untouched(lines[Top(anns[0])..]));
    if k == 0 {
      ShiftedBelow(anns[1..], b, b);
    } else {
      AnnotationAt(lines[..b], anns[1..], prefix, k - 1);
      assert Below(anns[0], anns[k]) && anns[1..][k - 1] == anns[k];
      SameAnnotated(lines, b, anns[k], prefix);
    }
  }

  lemma {:induction false} SameAnnotated(lines: seq<string>, b: nat, ann: Annotation, prefix: string)
    requires b <= |lines| && Fits(ann, b)
    ensures Annotated(lines[..b], ann, prefix) == Annotated(lines, ann, prefix)
  {
    hide MarkedLine, BeginLine, EndLine, Untouched;
    if ann.Block? { assert lines[..b][ann.start - 1..ann.end] == lines[ann.start - 1..ann.end]; }
  }
}
