/** An inline annotation can take an older one's effect away: exactly which line it exposes. */
module Exposure {
  import opened TextLines
  import opened Blocks
  import opened Annotations
  import opened Annotator
  import opened Insertion
  import opened RoundTrip

  // Has an inline marker and lies in no block.
  ghost predicate Alone(lines: seq<string>, a: Aliases, k: nat) {
    k < |lines| && IsInlineAllow(lines[k], a) && !InBlock(Marks(lines, a), k)
  }

  // How many lines from k on do, one after another.
  ghost function RunOf(lines: seq<string>, a: Aliases, k: nat): (n: nat)
    ensures !Alone(lines, a, k + n)
    ensures forall j :: k <= j < k + n ==> Alone(lines, a, j)
    decreases |lines| - k
  {
    if k < |lines| && Alone(lines, a, k) then 1 + RunOf(lines, a, k + 1) else 0
  }

  lemma {:induction false} ActiveIsAlone(lines: seq<string>, a: Aliases, k: nat)
    requires k < |lines|
    ensures Active(lines, a, k) <==> Alone(lines, a, k) && !(k > 0 && Active(lines, a, k - 1))
  {
    hide IsInlineAllow, InBlock, Marks;
  }

  // In a run every other marker is active, beginning with the first or the second.
  lemma {:induction false} EveryOther(lines: seq<string>, a: Aliases, k: nat, j: nat)
    requires k < |lines| && j <= RunOf(lines, a, k + 1) && k + j < |lines|
    ensures Active(lines, a, k + j) == (j % 2 == 0) <==> Active(lines, a, k)
  {
    hide Active, Alone;
    if j > 0 {
      EveryOther(lines, a, k, j - 1);
      ActiveIsAlone(lines, a, k + j);
    }
  }

  // Another line in the place of line i with the same block mark leaves the blocks as they were.
  lemma {:induction false} SameMarks(lines: seq<string>, a: Aliases, i: nat, marked: string)
    requires i < |lines| && MarkOf(marked, a) == MarkOf(lines[i], a)
    ensures Marks(lines[i := marked], a) == Marks(lines, a)
    ensures forall k :: k != i ==> (Alone(lines[i := marked], a, k) <==> Alone(lines, a, k))
  {
    hide MarkOf, IsInlineAllow, InBlock;
  }

  lemma {:induction false} ActiveBefore(lines: seq<string>, a: Aliases, i: nat, marked: string, k: nat)
    requires k < i < |lines| && MarkOf(marked, a) == MarkOf(lines[i], a)
    ensures Active(lines[i := marked], a, k) <==> Active(lines, a, k)
  {
    hide Alone, Active, Marks, MarkOf;
    SameMarks(lines, a, i, marked);
    ActiveIsAlone(lines, a, k);
    ActiveIsAlone(lines[i := marked], a, k);
    if k > 0 { ActiveBefore(lines, a, i, marked, k - 1); }
  }

  // Past a line that is not alone nothing is different.
  lemma {:induction false} ActiveBeyond(lines: seq<string>, a: Aliases, i: nat, marked: string, stop: nat, k: nat)
    requires i < stop <= k < |lines| && MarkOf(marked, a) == MarkOf(lines[i], a) && !Alone(lines, a, stop)
    ensures Active(lines[i := marked], a, k) <==> Active(lines, a, k)
  {
    hide Alone, Active, Marks, MarkOf;
    SameMarks(lines, a, i, marked);
    ActiveIsAlone(lines, a, k);
    ActiveIsAlone(lines[i := marked], a, k);
    if k > stop { ActiveBeyond(lines, a, i, marked, stop, k - 1); }
  }

  lemma {:induction false} SameRun(lines: seq<string>, a: Aliases, i: nat, marked: string, k: nat)
    requires i < |lines| && MarkOf(marked, a) == MarkOf(lines[i], a) && k > i
    ensures RunOf(lines[i := marked], a, k) == RunOf(lines, a, k)
    decreases |lines| - k
  {
    hide Alone, Marks, MarkOf;
    SameMarks(lines, a, i, marked);
    if k < |lines| { SameRun(lines, a, i, marked, k + 1); }
  }

  // An inline marker put on a line that was not suppressed is active, and turns the run behind it over.
  lemma {:induction false} RunTurnsOver(lines: seq<string>, a: Aliases, i: nat, marked: string, k: nat)
    requires i < |lines| && MarkOf(marked, a) == MarkOf(lines[i], a) && IsInlineAllow(marked, a) && !Suppressed(lines, a, i)
    requires i <= k < |lines| && k <= i + RunOf(lines, a, i + 1)
    ensures Active(lines, a, k) <==> (k - i) % 2 == 1
    ensures Active(lines[i := marked], a, k) <==> (k - i) % 2 == 0
  {
    hide IsInlineAllow, InBlock, MarkOf, Marks, RunOf;
    var after := lines[i := marked];
    SameMarks(lines, a, i, marked);
    SameRun(lines, a, i, marked, i + 1);
    if i > 0 { ActiveBefore(lines, a, i, marked, i - 1); }
    ActiveIsAlone(after, a, i);
    assert Active(after, a, i) && !Active(lines, a, i);
    EveryOther(lines, a, i, k - i);
    EveryOther(after, a, i, k - i);
  }

  // Suppressed by what is active and by blocks.
  lemma {:induction false} SuppressedIs(lines: seq<string>, a: Aliases, l: nat)
    requires l < |lines|
    ensures Suppressed(lines, a, l) <==>
      InBlock(Marks(lines, a), l) || Active(lines, a, l) || (l > 0 && Active(lines, a, l - 1))
  {}

  // What is suppressed for all scanners once line i is annotated: line i; the line behind the run that follows it
  // depending on the run's length; and elsewhere what was.
  lemma {:induction false} SuppressedAfter(lines: seq<string>, a: Aliases, i: nat, marked: string, l: nat)
    requires i < |lines| && l < |lines| && !Suppressed(lines, a, i)
    requires IsInlineAllow(marked, a) && MarkOf(marked, a) == MarkOf(lines[i], a)
    ensures var r, after := RunOf(lines, a, i + 1), lines[i := marked];
      && Marks(after, a) == Marks(lines, a)
      && (l == i ==> Suppressed(after, a, l))
      && (l == i + 1 + r ==>
          && (Suppressed(lines, a, l) <==> InBlock(Marks(lines, a), l) || r % 2 == 1)
          && (Suppressed(after, a, l) <==> InBlock(Marks(lines, a), l) || r % 2 == 0))
      && (l != i && l != i + 1 + r ==> (Suppressed(after, a, l) <==> Suppressed(lines, a, l)))
      && (i < l < i + 1 + r ==> Suppressed(after, a, l))
  {
    hide IsInlineAllow, InBlock, MarkOf, Marks, RunOf, Suppressed, Active;
    var after, r := lines[i := marked], RunOf(lines, a, i + 1);
    var stop := i + 1 + r;
    SameMarks(lines, a, i, marked);
    SuppressedIs(lines, a, l);
    SuppressedIs(after, a, l);
    if l < i {
      ActiveBefore(lines, a, i, marked, l);
      if l > 0 { ActiveBefore(lines, a, i, marked, l - 1); }
    } else if l < stop {
      RunTurnsOver(lines, a, i, marked, l);
      if l > i { RunTurnsOver(lines, a, i, marked, l - 1); }
    } else if l > stop {
      ActiveBeyond(lines, a, i, marked, stop, l);
      ActiveBeyond(lines, a, i, marked, stop, l - 1);
    } else {
      ActiveBeyond(lines, a, i, marked, stop, l);
      RunTurnsOver(lines, a, i, marked, l - 1);
      NotActive(lines, a, l);
    }
  }

  // Annotating line i exposes at most one line to the scanners that look at all lines: the one behind the run of
  // older markers that follows it, when that run is odd and no block covers the line.
  lemma {:induction false} AnnotatingExposes(lines: seq<string>, a: Aliases, i: nat, marked: string, l: nat)
    requires i < |lines| && l < |lines| && !Suppressed(lines, a, i)
    requires IsInlineAllow(marked, a) && MarkOf(marked, a) == MarkOf(lines[i], a)
    ensures var r := RunOf(lines, a, i + 1);
      Suppressed(lines, a, l) && !Suppressed(lines[i := marked], a, l) <==>
        l == i + 1 + r && r % 2 == 1 && !InBlock(Marks(lines, a), l)
    ensures var r := RunOf(lines, a, i + 1);
      !Suppressed(lines, a, l) && Suppressed(lines[i := marked], a, l) <==>
        l == i || (l == i + 1 + r && r % 2 == 0 && !InBlock(Marks(lines, a), l))
  {
    hide IsInlineAllow, InBlock, MarkOf, Marks, RunOf, Suppressed;
    SuppressedAfter(lines, a, i, marked, l);
  }

  // What the secret scanner does not see.
  ghost predicate Hidden(lines: seq<string>, a: Aliases, l: nat)
    requires l < |lines|
  {
    Suppressed(lines, a, l) || SecretSuppressed(lines, a, l)
  }

  lemma {:induction false} HiddenIs(lines: seq<string>, a: Aliases, l: nat)
    requires l < |lines|
    ensures Hidden(lines, a, l) <==>
      Suppressed(lines, a, l) || IsSecretOnly(lines[l], a) || (l > 0 && IsSecretOnly(lines[l - 1], a) && !Suppressed(lines, a, l - 1))
  {
    hide IsSecretOnly, Active, InBlock, Marks;
  }

  // What annotating line i does, to the secret scanner, to a line that an older marker hid.
  ghost predicate ExposesSecret(lines: seq<string>, a: Aliases, i: nat, l: nat)
    requires l < |lines|
  {
    var r := RunOf(lines, a, i + 1);
    var stop := i + 1 + r;
    && l != i && !IsSecretOnly(lines[l], a)
    && (|| (r % 2 == 1 && l == stop && !InBlock(Marks(lines, a), l))
        || (r % 2 == 0 && l == stop + 1 && IsSecretOnly(lines[stop], a) && !InBlock(Marks(lines, a), stop)
            && !Suppressed(lines, a, l)))
  }

  // Annotating line i exposes at most one line to the secret scanner: the one behind the run, as above, or, when the
  // run is even, the one after that, which the line behind the run hid as a secrets-only marker and hides no longer.
  lemma {:induction false} AnnotatingExposesSecrets(lines: seq<string>, a: Aliases, i: nat, marked: string, l: nat)
    requires i < |lines| && l < |lines| && !Suppressed(lines, a, i)
    requires IsInlineAllow(marked, a) && MarkOf(marked, a) == MarkOf(lines[i], a)
    ensures Hidden(lines, a, l) && !Hidden(lines[i := marked], a, l) <==> ExposesSecret(lines, a, i, l)
  {
    hide IsInlineAllow, IsSecretOnly, InBlock, MarkOf, Marks, RunOf, Suppressed, Hidden;
    var after := lines[i := marked];
    HiddenIs(lines, a, l);
    HiddenIs(after, a, l);
    SuppressedAfter(lines, a, i, marked, l);
    if l > 0 { SuppressedAfter(lines, a, i, marked, l - 1); }
  }

  lemma {:induction false} NotActive(lines: seq<string>, a: Aliases, k: nat)
    requires k < |lines| && !Alone(lines, a, k)
    ensures !Active(lines, a, k)
  {
    ActiveIsAlone(lines, a, k);
  }

  /* ---- an annotation as it is inserted ---- */

  // Inserting one inline annotation changes its line and nothing else.
  lemma {:induction false} InlineApplied(content: string, ann: Annotation, prefix: string, a: Aliases)
    requires ann.Inline? && Fits(ann, |SplitKeep(content)|) && Takes(SplitKeep(content), ann, prefix, a)
    requires Sound(ann) && Unmarked(prefix)
    ensures var lines := SplitKeep(content);
      Split(Join(ApplyOne(lines, ann, prefix))) == Split(content)[ann.line - 1 := Body(lines[ann.line - 1]) + Marker(ann, prefix)]
  {
    hide SplitKeep, Join, MarkedLine, Marker, Takes, Sound, Unmarked, Body;
    var lines, i := SplitKeep(content), ann.line - 1;
    var anns := [ann];
    assert Descending(anns, |lines|) && Writable(lines, anns, prefix, a);
    OneApplied(lines, ann, prefix);
    SplitIsShown(content, anns, prefix, a);
    SplitAreLines(content);
    FirstAreLines(lines, i);
    InlineIsMarked(lines, ann, prefix, a);
    BodiesUpdated(lines, i, MarkedLine(lines[i], ann, prefix).Text());
  }

  lemma {:induction false} OneApplied(lines: seq<string>, ann: Annotation, prefix: string)
    requires ann.Inline? && Fits(ann, |lines|) && Descending([ann], |lines|)
    ensures ApplyAll(lines, [ann], prefix) == ApplyOne(lines, ann, prefix)
    ensures Shown(lines, [ann], prefix) == lines[ann.line - 1 := MarkedLine(lines[ann.line - 1], ann, prefix).Text()]
  {
    hide MarkedLine, ApplyOne;
    var i := ann.line - 1;
    assert [ann][1..] == [];
    assert Shown(lines[..i], [], prefix) == lines[..i];
  }

  lemma {:induction false} InlineIsMarked(lines: seq<string>, ann: Annotation, prefix: string, a: Aliases)
    requires ann.Inline? && Fits(ann, |lines|) && IsLine(lines[ann.line - 1]) && Takes(lines, ann, prefix, a) && Sound(ann) && Unmarked(prefix)
    ensures var marked := Body(lines[ann.line - 1]) + Marker(ann, prefix);
      && Body(MarkedLine(lines[ann.line - 1], ann, prefix).Text()) == marked
      && IsInlineAllow(marked, a)
  {
    hide MarkedLine, Marker, Contains, Sound, Unmarked, Body;
    MarkerReads(Body(lines[ann.line - 1]), ann, prefix);
    MarkedIsLine(lines[ann.line - 1], ann, prefix);
    UnmarkedHasNone(Body(lines[ann.line - 1]) + Marker(ann, prefix));
  }

  lemma {:induction false} BodiesUpdated(lines: seq<string>, i: nat, line: string)
    requires i < |lines|
    ensures Bodies(lines[i := line]) == Bodies(lines)[i := Body(line)]
  {
    hide Body;
  }

  // What one inline annotation exposes, where its line is not suppressed yet and keeps its block mark.
  lemma {:induction false} AnnotationExposes(content: string, ann: Annotation, prefix: string, a: Aliases, l: nat)
    requires ann.Inline? && Fits(ann, |SplitKeep(content)|) && Takes(SplitKeep(content), ann, prefix, a)
    requires Sound(ann) && Unmarked(prefix) && l < |Split(content)|
    requires !Suppressed(Split(content), a, ann.line - 1)
    requires var body := Split(content)[ann.line - 1]; MarkOf(body + Marker(ann, prefix), a) == MarkOf(body, a)
    ensures var lines, modified := Split(content), Split(Join(ApplyOne(SplitKeep(content), ann, prefix)));
      var r := RunOf(lines, a, ann.line);
      && |modified| == |lines|
      && (Suppressed(lines, a, l) && !Suppressed(modified, a, l) <==>
          l == ann.line + r && r % 2 == 1 && !InBlock(Marks(lines, a), l))
      && (Hidden(lines, a, l) && !Hidden(modified, a, l) <==> ExposesSecret(lines, a, ann.line - 1, l))
  {
    hide SplitKeep, Join, ApplyOne, Marker, Sound, Unmarked, Body, MarkOf, Suppressed, RunOf, InBlock, Takes, IsInlineAllow,
      Hidden, ExposesSecret;
    SplitAreLines(content);
    FirstAreLines(SplitKeep(content), ann.line - 1);
    InlineApplied(content, ann, prefix, a);
    InlineIsMarked(SplitKeep(content), ann, prefix, a);
    AnnotatingExposes(Split(content), a, ann.line - 1, Split(content)[ann.line - 1] + Marker(ann, prefix), l);
    AnnotatingExposesSecrets(Split(content), a, ann.line - 1, Split(content)[ann.line - 1] + Marker(ann, prefix), l);
  }

  // Without aliases for block markers an inline annotation keeps its line's block mark.
  lemma {:induction false} MarkStays(line: string, ann: Annotation, prefix: string, a: Aliases)
    requires Unmarked(line) && Unmarked(prefix) && Sound(ann) && a.begin == [] && a.end == []
    ensures MarkOf(line + Marker(ann, prefix), a) == MarkOf(line, a) == Plain
  {
    hide Marker, Contains, Sound, Unmarked;
    MarkerReads(line, ann, prefix);
    UnmarkedHasNone(line);
    UnmarkedHasNone(line + Marker(ann, prefix));
  }

  /* ---- one such text ---- */

  const EXAMPLE: seq<string> := ["a", "# ai-guardian:allow", "b"]

  const ON_FIRST := Inline(1, ["pii"])

  function Fed(bodies: seq<string>): (r: seq<string>)
    ensures |r| == |bodies|
  {
    seq(|bodies|, i requires 0 <= i < |bodies| => bodies[i] + "\n")
  }

  // Lines that end in line feeds.
  lemma {:induction false} FedAreLines(bodies: seq<string>)
    requires forall i :: 0 <= i < |bodies| ==> Unbroken(bodies[i]) && bodies[i] != ""
    ensures AreLines(Fed(bodies)) && Bodies(Fed(bodies)) == bodies
    ensures forall i :: 0 <= i < |bodies| ==> StrippedLen(Fed(bodies)[i]) == BodyEnd(Fed(bodies)[i])
  {
    hide Body, IsLine, BodyEnd, StrippedLen, Unbroken, Ended;
    forall i | 0 <= i < |bodies|
      ensures IsLine(Fed(bodies)[i]) && Ended(Fed(bodies)[i]) && Body(Fed(bodies)[i]) == bodies[i]
      ensures StrippedLen(Fed(bodies)[i]) == BodyEnd(Fed(bodies)[i])
    {
      FeedLine(bodies[i]);
      StripFeed(bodies[i]);
    }
  }

  lemma {:induction false} StripFeed(s: string)
    requires Unbroken(s) && s != ""
    ensures StrippedLen(s + "\n") == BodyEnd(s + "\n")
  {
    BodyEndIs(s + "\n", |s|);
    assert (s + "\n")[..|s|] == s;
  }

  lemma {:induction false} ShortLine(line: string, a: Aliases)
    requires |line| < |INLINE| && a.allow == []
    ensures !IsInlineAllow(line, a)
  {}

  lemma {:induction false} MarkerAlone(a: Aliases)
    requires a.allow == []
    ensures Unmarked("# ai-guardian:allow") && IsInlineAllow("# ai-guardian:allow", a)
  {
    hide Contains;
    ShortUnmarked("# ai-guardian:allow");
    ContainsMiddle("# ", INLINE, "");
    assert "# " + INLINE + "" == "# ai-guardian:allow";
  }

  lemma {:induction false} ExampleIsPlain(a: Aliases)
    requires a.allow == [] && a.begin == [] && a.end == []
    ensures forall i :: 0 <= i < 3 ==> Unmarked(EXAMPLE[i]) && EXAMPLE[i] != "" && MarkOf(EXAMPLE[i], a).Plain?
    ensures !IsInlineAllow(EXAMPLE[0], a) && IsInlineAllow(EXAMPLE[1], a) && !IsInlineAllow(EXAMPLE[2], a)
    ensures Unmarked("#") && Unmarked("pii")
  {
    hide Contains, Unmarked, IsInlineAllow, MarkOf;
    MarkerAlone(a);
    ShortLine("a", a);
    ShortLine("b", a);
    ShortUnmarked("a");
    ShortUnmarked("b");
    ShortUnmarked("#");
    ShortUnmarked("pii");
    MarkStays("a", Inline(1, []), "#", a);
    MarkStays("# ai-guardian:allow", Inline(1, []), "#", a);
    MarkStays("b", Inline(1, []), "#", a);
  }

  lemma {:induction false} ExampleReads(a: Aliases)
    requires a.allow == [] && a.begin == [] && a.end == []
    ensures (forall k :: 0 <= k < 3 ==> !InBlock(Marks(EXAMPLE, a), k)) && !Suppressed(EXAMPLE, a, 0) && RunOf(EXAMPLE, a, 1) == 1
  {
    hide IsInlineAllow, MarkOf, InBlock;
    ExampleIsPlain(a);
    assert |EXAMPLE| == 3;
    forall k: nat ensures !InBlock(Marks(EXAMPLE, a), k) { NoBlocks(Marks(EXAMPLE, a), k); }
    assert Alone(EXAMPLE, a, 1) && !Alone(EXAMPLE, a, 2) && !Active(EXAMPLE, a, 0);
    assert RunOf(EXAMPLE, a, 2) == 0;
  }

  lemma {:induction false} NoBlocks(marks: seq<Mark>, l: nat)
    requires forall j :: 0 <= j < |marks| ==> marks[j].Plain?
    ensures !InBlock(marks, l)
  {}

  // Annotating the first of three lines takes the suppression of the third away.
  lemma {:induction false} ExampleIsExposed(a: Aliases)
    requires a.allow == [] && a.begin == [] && a.end == []
    ensures var content := Join(Fed(EXAMPLE));
      var modified := Join(ApplyOne(SplitKeep(content), ON_FIRST, "#"));
      |Split(content)| == |Split(modified)| == 3 && Suppressed(Split(content), a, 2) && !Suppressed(Split(modified), a, 2)
  {
    hide Contains, Bodies, Body, Join, Split, SplitKeep, ApplyOne, Suppressed, RunOf, InBlock, MarkOf, Unmarked, Fed, AreLines, IsInlineAllow, Marker;
    ExampleIsPlain(a);
    assert forall i :: 0 <= i < |EXAMPLE| ==> Unbroken(EXAMPLE[i]) by { UnmarkedIsUnbroken(); }
    FedAreLines(EXAMPLE);
    SplitOfJoin(Fed(EXAMPLE));
    SplitIsBodies(Fed(EXAMPLE));
    ExampleReads(a);
    MarkStays("a", ON_FIRST, "#", a);
    BodyOf(Fed(EXAMPLE), 0);
    AnnotationExposes(Join(Fed(EXAMPLE)), ON_FIRST, "#", a, 2);
  }

  lemma {:induction false} UnmarkedIsUnbroken()
    ensures forall s :: Unmarked(s) ==> Unbroken(s)
  {
    hide Contains;
  }

  lemma {:induction false} BodyOf(lines: seq<string>, i: nat)
    requires i < |lines|
    ensures Bodies(lines)[i] == Body(lines[i])
  {}

  lemma {:induction false} SplitIsBodies(lines: seq<string>)
    requires AreLines(lines)
    ensures Split(Join(lines)) == Bodies(lines)
  {
    hide Join, SplitKeep;
    SplitOfJoin(lines);
  }

  /* ---- and one for the secret scanner ---- */

  const SECRET_EXAMPLE: seq<string> := ["a", "# gitleaks:allow", "b"]

  lemma {:induction false} SecretExampleIsPlain(a: Aliases)
    requires a.allow == [] && a.begin == [] && a.end == [] && a.secret == DEFAULT_SECRET_ALIASES
    ensures forall i :: 0 <= i < 3 ==>
      Unmarked(SECRET_EXAMPLE[i]) && SECRET_EXAMPLE[i] != "" && MarkOf(SECRET_EXAMPLE[i], a).Plain? && !IsInlineAllow(SECRET_EXAMPLE[i], a)
    ensures IsSecretOnly(SECRET_EXAMPLE[1], a) && !IsSecretOnly(SECRET_EXAMPLE[2], a)
    ensures Unmarked("#") && Unmarked("pii")
  {
    hide Contains, Unmarked, IsInlineAllow, MarkOf;
    ShortLine("a", a);
    ShortLine("# gitleaks:allow", a);
    ShortLine("b", a);
    ShortUnmarked("a");
    ShortUnmarked("# gitleaks:allow");
    ShortUnmarked("b");
    ShortUnmarked("#");
    ShortUnmarked("pii");
    MarkStays("a", Inline(1, []), "#", a);
    MarkStays("# gitleaks:allow", Inline(1, []), "#", a);
    MarkStays("b", Inline(1, []), "#", a);
    ContainsMiddle("# ", "gitleaks:allow", "");
    assert "# " + "gitleaks:allow" + "" == "# gitleaks:allow";
    TooShort("b", "gitleaks:allow");
    assert a.secret[0] == "gitleaks:allow" && SECRET_EXAMPLE[1] == "# gitleaks:allow";
    assert Contains(SECRET_EXAMPLE[1], a.secret[0]);
  }

  lemma {:induction false} TooShort(line: string, part: string)
    requires |line| < |part|
    ensures !Contains(line, part)
  {}

  lemma {:induction false} SecretExampleReads(a: Aliases)
    requires a.allow == [] && a.begin == [] && a.end == [] && a.secret == DEFAULT_SECRET_ALIASES
    ensures forall k :: 0 <= k < 3 ==> !InBlock(Marks(SECRET_EXAMPLE, a), k) && !Suppressed(SECRET_EXAMPLE, a, k)
    ensures RunOf(SECRET_EXAMPLE, a, 1) == 0
  {
    hide IsInlineAllow, IsSecretOnly, MarkOf, InBlock;
    SecretExampleIsPlain(a);
    assert |SECRET_EXAMPLE| == 3;
    forall k: nat ensures !InBlock(Marks(SECRET_EXAMPLE, a), k) { NoBlocks(Marks(SECRET_EXAMPLE, a), k); }
    assert !Active(SECRET_EXAMPLE, a, 0) && !Active(SECRET_EXAMPLE, a, 1) && !Active(SECRET_EXAMPLE, a, 2);
  }

  // Annotating the first of three lines shows the third to the secret scanner, though none was suppressed for all.
  lemma {:induction false} SecretIsExposed(a: Aliases)
    requires a.allow == [] && a.begin == [] && a.end == [] && a.secret == DEFAULT_SECRET_ALIASES
    ensures var content := Join(Fed(SECRET_EXAMPLE));
      var modified := Join(ApplyOne(SplitKeep(content), ON_FIRST, "#"));
      |Split(content)| == |Split(modified)| == 3 && Hidden(Split(content), a, 2) && !Hidden(Split(modified), a, 2)
  {
    hide Contains, Bodies, Body, Join, Split, SplitKeep, ApplyOne, Suppressed, RunOf, InBlock, MarkOf, Unmarked, Fed, AreLines,
      IsInlineAllow, IsSecretOnly, Marker, Hidden;
    SecretExampleIsPlain(a);
    assert forall i :: 0 <= i < |SECRET_EXAMPLE| ==> Unbroken(SECRET_EXAMPLE[i]) by { UnmarkedIsUnbroken(); }
    FedAreLines(SECRET_EXAMPLE);
    SplitOfJoin(Fed(SECRET_EXAMPLE));
    SplitIsBodies(Fed(SECRET_EXAMPLE));
    SecretExampleReads(a);
    assert SECRET_EXAMPLE[0] == "a" && |SECRET_EXAMPLE| == 3;
    MarkStays("a", ON_FIRST, "#", a);
    BodyOf(Fed(SECRET_EXAMPLE), 0);
    AnnotationExposes(Join(Fed(SECRET_EXAMPLE)), ON_FIRST, "#", a, 2);
  }
}
