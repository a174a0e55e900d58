/** What an annotated text says: the very characters of its markers, and the scanners they name. */
module Saying {
  import opened TextLines
  import opened Sorting
  import opened Annotations
  import opened Annotator
  import opened Insertion
  import opened RoundTrip
  import Lexical

  /* ---- names ---- */

  // The pieces between commas.
  function SplitCommas(s: string): seq<string> {
    var n := CommaAt(s);
    if n == |s| then [s] else [s[..n]] + SplitCommas(s[n + 1..])
  }

  function CommaAt(s: string): (n: nat)
    ensures n <= |s|
  {
    if s == "" || s[0] == ',' then 0 else 1 + CommaAt(s[1..])
  }

  lemma {:induction false} CommaBehind(name: string, rest: string)
    requires ',' !in name
    ensures CommaAt(name + "," + rest) == |name| && CommaAt(name) == |name|
  {
    if name != "" {
      CommaBehind(name[1..], rest);
      assert (name + "," + rest)[1..] == name[1..] + "," + rest;
    }
  }

  // What was joined with commas is taken apart again.
  lemma {:induction false} TypesSplit(types: seq<string>)
    requires types != [] && forall t :: t in types ==> ',' !in t
    ensures SplitCommas(TypeText(types)) == types
  {
    hide CommaAt;
    assert types[0] in types;
    if |types| == 1 {
      CommaBehind(types[0], "");
    } else {
      var rest := TypeText(types[1..]);
      CommaBehind(types[0], rest);
      TypesSplit(types[1..]);
      var all := types[0] + "," + rest;
      assert all[..|types[0]|] == types[0] && all[|types[0]| + 1..] == rest;
    }
  }

  // a comes before b by code points.
  ghost predicate Before(a: string, b: string) {
    exists k :: 0 <= k <= |a| && k < |b| && a[..k] == b[..k] && (k < |a| ==> a[k] < b[k])
  }

  ghost predicate Ascending(names: seq<string>) {
    forall i, j :: 0 <= i < j < |names| ==> Before(names[i], names[j])
  }

  lemma {:induction false} TextLeIsBefore(a: string, b: string)
    requires TextLe(a, b) && a != b
    ensures Before(a, b)
  {
    if a == "" {
      assert a[..0] == b[..0];
    } else if a[0] == b[0] {
      assert a == [a[0]] + a[1..] && b == [b[0]] + b[1..];
      TextLeIsBefore(a[1..], b[1..]);
      var k :| 0 <= k <= |a[1..]| && k < |b[1..]| && a[1..][..k] == b[1..][..k] && (k < |a[1..]| ==> a[1..][k] < b[1..][k]);
      assert a[..k + 1] == [a[0]] + a[1..][..k] && b[..k + 1] == [b[0]] + b[1..][..k];
      assert Before(a, b) by { assert 0 <= k + 1 <= |a|; }
    } else {
      assert a[..0] == b[..0] && a[0] < b[0];
    }
  }

  lemma {:induction false} TextLeTotal(a: string, b: string)
    ensures TextLe(a, b) || TextLe(b, a)
  {
    if a != "" && b != "" && a[0] == b[0] { TextLeTotal(a[1..], b[1..]); }
  }

  lemma {:induction false} TextLeChains(a: string, b: string, c: string)
    requires TextLe(a, b) && TextLe(b, c)
    ensures TextLe(a, c)
  {
    if a != "" && a[0] == b[0] && b[0] == c[0] { TextLeChains(a[1..], b[1..], c[1..]); }
  }

  lemma {:induction false} TextLeOrders()
    ensures TotalOrder(TextLe)
  {
    hide TextLe;
    forall x, y ensures TextLe(x, y) || TextLe(y, x) { TextLeTotal(x, y); }
    forall x, y, z | TextLe(x, y) && TextLe(y, z) ensures TextLe(x, z) { TextLeChains(x, y, z); }
  }

  predicate AllDiffer<T(==)>(xs: seq<T>) { forall i, j :: 0 <= i < j < |xs| ==> xs[i] != xs[j] }

  // Sorted, without repetition, and not empty.
  ghost predicate Neat(types: seq<string>) { types != [] && AllDiffer(types) && Sorted(types, TextLe) }

  lemma {:induction false} NeatAscends(types: seq<string>)
    requires Neat(types)
    ensures Ascending(types)
  {
    hide TextLe, Before;
    forall i, j | 0 <= i < j < |types| ensures Before(types[i], types[j]) {
      assert types[i] != types[j] && TextLe(types[i], types[j]);
      TextLeIsBefore(types[i], types[j]);
    }
  }

  lemma {:induction false} StillDiffer<T>(xs: seq<T>, ys: seq<T>)
    requires AllDiffer(xs) && multiset(ys) == multiset(xs)
    ensures AllDiffer(ys)
  {
    forall i, j | 0 <= i < j < |ys| ensures ys[i] != ys[j] {
      if ys[i] == ys[j] {
        CountTwice(ys, i, j);
        CountOnce(xs, ys[i]);
      }
    }
  }

  lemma {:induction false} CountTwice<T>(xs: seq<T>, i: nat, j: nat)
    requires i < j < |xs| && xs[i] == xs[j]
    ensures multiset(xs)[xs[i]] >= 2
  {
    assert xs == xs[..j] + [xs[j]] + xs[j + 1..];
    assert xs[..j][i] == xs[i];
    assert xs[i] in multiset(xs[..j]);
  }

  lemma {:induction false} CountOnce<T>(xs: seq<T>, x: T)
    requires AllDiffer(xs)
    ensures multiset(xs)[x] <= 1
  {
    if xs != [] {
      CountOnce(xs[1..], x);
      assert xs == [xs[0]] + xs[1..];
      assert xs[0] == x ==> x !in xs[1..];
    }
  }

  // Sorting different names makes them neat.
  lemma {:induction false} SortIsNeat(types: seq<string>)
    requires types != [] && AllDiffer(types)
    ensures Neat(Sort(types, TextLe)) && forall t :: t in Sort(types, TextLe) <==> t in types
  {
    hide Sort, TextLe;
    TextLeOrders();
    SortElements(types, TextLe);
    SortSorts(types, TextLe);
    StillDiffer(types, Sort(types, TextLe));
  }

  lemma {:induction false} AddNewDiffers(types: seq<string>, more: seq<string>)
    requires AllDiffer(types)
    ensures AllDiffer(AddNew(types, more)) && |AddNew(types, more)| >= |types|
    decreases |more|
  {
    if more != [] { AddNewDiffers(if more[0] in types then types else types + [more[0]], more[1..]); }
  }

  /* ---- what merged annotations name ---- */

  predicate NamedByOne(anns: seq<Annotation>, x: Annotation, t: string) {
    exists i :: 0 <= i < |anns| && SameRange(anns[i], x) && t in anns[i].types
  }

  // An inline annotation is one of those merged; a block names what those of its range name.
  ghost predicate NamesRight(anns: seq<Annotation>, x: Annotation) {
    && Neat(x.types)
    && (x.Inline? ==> x in anns)
    && (x.Block? ==> forall t :: t in x.types <==> NamedByOne(anns, x, t))
  }

  lemma {:induction false} MergedNames(anns: seq<Annotation>, k: nat, x: Annotation)
    requires k <= |anns| && x in MergeAll(anns, k) && forall i :: 0 <= i < |anns| ==> Neat(anns[i].types)
    ensures NamesRight(anns[..k], x)
  {
    hide Neat, MergeTypes;
    var merged, ann := MergeAll(anns, k - 1), anns[k - 1];
    var next, at := MergeAll(anns, k), FindRange(merged, ann);
    assert anns[..k] == anns[..k - 1] + [ann];
    var j :| 0 <= j < |next| && next[j] == x;
    if j < |merged| {
      MergedNames(anns, k - 1, merged[j]);
      if j == at {
        NamesGrow(anns[..k - 1], merged[j], ann);
      } else {
        NamesStay(anns, k - 1, j);
      }
    } else if ann.Block? {
      FirstOfRange(anns, k - 1);
    }
  }

  lemma {:induction false} NamesGrow(anns: seq<Annotation>, x: Annotation, ann: Annotation)
    requires NamesRight(anns, x) && SameRange(x, ann) && Neat(ann.types)
    ensures NamesRight(anns + [ann], x.(types := MergeTypes(x.types, ann.types)))
  {
    hide Neat, Sort;
    var y := x.(types := MergeTypes(x.types, ann.types));
    MergedTypes(x.types, ann.types);
    MergeIsNeat(x.types, ann.types);
    forall t ensures t in y.types <==> NamedByOne(anns + [ann], y, t) {
      if t in x.types {
        var i :| 0 <= i < |anns| && SameRange(anns[i], x) && t in anns[i].types;
        assert (anns + [ann])[i] == anns[i];
      } else if t in ann.types {
        assert (anns + [ann])[|anns|] == ann;
      }
      if NamedByOne(anns + [ann], y, t) {
        var i :| 0 <= i < |anns + [ann]| && SameRange((anns + [ann])[i], y) && t in (anns + [ann])[i].types;
        if i < |anns| { assert SameRange(anns[i], x) && t in anns[i].types; }
      }
    }
  }

  lemma {:induction false} MergeIsNeat(types: seq<string>, more: seq<string>)
    requires Neat(types)
    ensures Neat(MergeTypes(types, more))
  {
    hide Sort, TextLe;
    AddNewDiffers(types, more);
    SortIsNeat(AddNew(types, more));
  }

  // An annotation of another range or of a line does not matter to a block.
  lemma {:induction false} NamesStay(anns: seq<Annotation>, k: nat, j: nat)
    requires k < |anns| && j < |MergeAll(anns, k)| && NamesRight(anns[..k], MergeAll(anns, k)[j])
    requires j != FindRange(MergeAll(anns, k), anns[k])
    requires forall i :: 0 <= i < |anns| ==> Neat(anns[i].types)
    ensures NamesRight(anns[..k] + [anns[k]], MergeAll(anns, k)[j])
  {
    hide Neat;
    var x, ann := MergeAll(anns, k)[j], anns[k];
    if x.Block? && SameRange(ann, x) { RangeOnce(anns, k, j, FindRange(MergeAll(anns, k), ann)); }
    assert forall i :: 0 <= i < k ==> (anns[..k] + [ann])[i] == anns[..k][i];
    forall t ensures NamedByOne(anns[..k] + [ann], x, t) <==> NamedByOne(anns[..k], x, t) {
      if NamedByOne(anns[..k], x, t) {
        var i :| 0 <= i < k && SameRange(anns[..k][i], x) && t in anns[..k][i].types;
        assert SameRange((anns[..k] + [ann])[i], x);
      }
    }
  }

  // No range is there twice.
  lemma {:induction false} RangeOnce(anns: seq<Annotation>, k: nat, i: nat, j: nat)
    requires k <= |anns| && i < |MergeAll(anns, k)| && j < |MergeAll(anns, k)|
    requires SameRange(MergeAll(anns, k)[i], MergeAll(anns, k)[j])
    ensures i == j
  {
    hide MergeTypes;
    if k > 0 {
      var merged := MergeAll(anns, k - 1);
      if i < |merged| && j < |merged| {
        RangeOnce(anns, k - 1, i, j);
      }
    }
  }

  lemma {:induction false} NotMergedYet(anns: seq<Annotation>, k: nat, i: nat)
    requires i < k < |anns| && FindRange(MergeAll(anns, k), anns[k]) == |MergeAll(anns, k)|
    ensures !SameRange(anns[i], anns[k])
  {
    hide MergeAll;
    MergedSayAll(anns, k, i);
    assert forall j :: 0 <= j < |MergeAll(anns, k)| ==> !SameRange(MergeAll(anns, k)[j], anns[k]);
  }

  // A range that is not there has not been merged yet.
  lemma {:induction false} FirstOfRange(anns: seq<Annotation>, k: nat)
    requires k < |anns| && anns[k].Block? && FindRange(MergeAll(anns, k), anns[k]) == |MergeAll(anns, k)|
    requires forall i :: 0 <= i < |anns| ==> Neat(anns[i].types)
    ensures NamesRight(anns[..k] + [anns[k]], anns[k])
  {
    hide Neat;
    var ann := anns[k];
    forall t ensures t in ann.types <==> NamedByOne(anns[..k] + [ann], ann, t) {
      if t in ann.types { assert (anns[..k] + [ann])[k] == ann; }
      if NamedByOne(anns[..k] + [ann], ann, t) {
        var i :| 0 <= i < |anns[..k] + [ann]| && SameRange((anns[..k] + [ann])[i], ann) && t in (anns[..k] + [ann])[i].types;
        if i < k { NotMergedYet(anns, k, i); }
      }
    }
  }

  /* ---- the text of a marker ---- */

  // The leading blanks of a line.
  predicate Leads(indent: string, line: string) {
    && indent <= line && (forall i :: 0 <= i < |indent| ==> Lexical.IsSpace(line[i]))
    && (|indent| < |line| ==> !Lexical.IsSpace(line[|indent|]))
  }

  // The text is what is in front and then the names, in ascending order, between commas.
  ghost predicate Says(text: string, front: string, names: seq<string>) {
    front <= text && SplitCommas(text[|front|..]) == names && Ascending(names)
  }

  lemma {:induction false} SaysTypes(front: string, types: seq<string>)
    requires Neat(types) && forall t :: t in types ==> ',' !in t
    ensures Says(front + TypeText(types), front, types)
  {
    hide TypeText, SplitCommas;
    TypesSplit(types);
    NeatAscends(types);
    assert (front + TypeText(types))[|front|..] == TypeText(types);
  }

  // What an inline annotation makes of its line.
  ghost predicate SaysInline(text: string, line: string, prefix: string, names: seq<string>) {
    Says(text, Body(line) + "  " + prefix + " ai-guardian:allow ", names)
  }

  // What a block annotation puts around its lines, the first of which has text and the last of which has an end.
  ghost predicate SaysBlock(open: string, close: string, first: string, prefix: string, names: seq<string>) {
    exists indent ::
      && Leads(indent, first) && Says(open, indent + prefix + " ai-guardian:begin-allow ", names)
      && close == indent + prefix + " ai-guardian:end-allow"
  }

  lemma {:induction false} InlineSays(lines: seq<string>, ann: Annotation, prefix: string, a: Aliases)
    requires ann.Inline? && Fits(ann, |lines|) && AreLines(lines) && Takes(lines, ann, prefix, a) && Sound(ann) && Unmarked(prefix)
    requires Neat(ann.types) && forall t :: t in ann.types ==> ',' !in t
    ensures SaysInline(Body(ShownLines(lines, ann, prefix)[0]), lines[ann.line - 1], prefix, ann.types)
  {
    hide AreLines, IsLine, Body, TypeText, Says, Neat, Unmarked, Sound, StrippedLen, BodyEnd;
    var line := lines[ann.line - 1];
    FirstAreLines(lines, ann.line - 1);
    MarkerReads(Body(line), ann, prefix);
    MarkedIsLine(line, ann, prefix);
    SaysTypes(Body(line) + "  " + prefix + " ai-guardian:allow ", ann.types);
    assert Body(line) + Marker(ann, prefix) == Body(line) + "  " + prefix + " ai-guardian:allow " + TypeText(ann.types);
  }

  lemma {:induction false} BlockSays(lines: seq<string>, ann: Annotation, prefix: string)
    requires ann.Block? && Fits(ann, |lines|) && AreLines(lines) && Sound(ann) && Unmarked(prefix)
    requires Neat(ann.types) && forall t :: t in ann.types ==> ',' !in t
    requires NonBlank(lines[ann.start - 1]) && Ended(lines[ann.end - 1])
    ensures var here, size := ShownLines(lines, ann, prefix), ann.end + 1 - ann.start;
      && |here| == size + 2 && Lead(lines, ann, prefix) == 1
      && SaysBlock(Body(here[0]), Body(here[size + 1]), lines[ann.start - 1], prefix, ann.types)
  {
    hide AreLines, IsLine, Body, TypeText, Says, Neat, Unmarked, Sound, Indentation, NonBlank, Ended, BeginLine, EndLine, Annotated, Texts,
      Opening, Closing;
    var b, t := ann.start - 1, ann.end;
    var first, indent := lines[b], Indentation(lines[b]);
    OrdinaryLines(lines, ann, prefix);
    AnnotatedTexts(lines, ann, prefix);
    OrdinaryIsShown(lines, b, t, prefix);
    IndentationIsBlank(first);
    OpeningReads(first, ann, prefix, Aliases([], [], [], []));
    OpeningBody(first, ann, prefix);
    SaysTypes(indent + prefix + " ai-guardian:begin-allow ", ann.types);
    MarkerTexts(first, ann, prefix);
  }

  lemma {:induction false} OpeningBody(first: string, ann: Annotation, prefix: string)
    requires Unbroken(Opening(first, ann, prefix))
    ensures Body(BeginLine(first, ann, prefix)) == Opening(first, ann, prefix)
  {
    hide Body, Indentation, TypeText;
    FeedLine(Opening(first, ann, prefix));
  }

  lemma {:induction false} MarkerTexts(first: string, ann: Annotation, prefix: string)
    ensures Opening(first, ann, prefix) == Indentation(first) + prefix + " ai-guardian:begin-allow " + TypeText(ann.types)
    ensures Closing(first, prefix) == Indentation(first) + prefix + " ai-guardian:end-allow"
  {
    hide Indentation, TypeText;
    BeginWords();
    EndWords();
    var front := Indentation(first) + prefix;
    JoinedFrom(front, " " + BLOCK_BEGIN, " ", TypeText(ann.types));
    JoinedFrom(front, " ", BLOCK_BEGIN, " " + TypeText(ann.types));
    JoinedFrom(front, " ", BLOCK_END, "");
  }

  lemma {:induction false} BeginWords()
    ensures " " + BLOCK_BEGIN + " " == " ai-guardian:begin-allow "
  {}

  lemma {:induction false} EndWords()
    ensures " " + BLOCK_END == " ai-guardian:end-allow"
  {}

  /* ---- in the new text ---- */

  // What the new text says for annotation k.
  ghost predicate SaysAt(lines: seq<string>, anns: seq<Annotation>, prefix: string, bodies: seq<string>, k: nat)
    requires Descending(anns, |lines|) && k < |anns| && Fits(anns[k], |lines|)
  {
    match anns[k]
    case Inline(line, types) =>
      var at := Moved(lines, anns, prefix, line - 1);
      at < |bodies| && SaysInline(bodies[at], lines[line - 1], prefix, types)
    case Block(_, types, start, end) =>
      NonBlank(lines[start - 1]) && Ended(lines[end - 1]) ==>
        var first, last := Moved(lines, anns, prefix, start - 1), Moved(lines, anns, prefix, end - 1);
        && 0 < first <= last < |bodies| - 1 && last == first + (end - start)
        && SaysBlock(bodies[first - 1], bodies[last + 1], lines[start - 1], prefix, types)
  }

  // Every annotation says its names where it stands.
  lemma {:induction false} AppliedSays(content: string, anns: seq<Annotation>, prefix: string, a: Aliases, k: nat)
    requires Descending(anns, |SplitKeep(content)|) && Writable(SplitKeep(content), anns, prefix, a) && k < |anns|
    requires Neat(anns[k].types) && forall t :: t in anns[k].types ==> ',' !in t
    ensures Fits(anns[k], |SplitKeep(content)|)
    ensures SaysAt(SplitKeep(content), anns, prefix, Split(Join(ApplyAll(SplitKeep(content), anns, prefix))), k)
  {
    hide ApplyAll, SplitKeep, Join, Takes, Sound, Unmarked, Shown, Moved, ShownPlace, StandsAt, ShownLines, SaysInline, SaysBlock, Neat,
      AreLines, Body, Bodies, Lead, NonBlank, Ended;
    var lines := SplitKeep(content);
    SplitAreLines(content);
    SplitIsShown(content, anns, prefix, a);
    ShownAt(lines, anns, prefix, k);
    var all, at, here := Shown(lines, anns, prefix), ShownPlace(lines, anns, prefix, k), ShownLines(lines, anns[k], prefix);
    if anns[k].Inline? {
      InlineSays(lines, anns[k], prefix, a);
      InlineShape(lines, anns[k], prefix);
      BodyAt(all, at, here, 0);
    } else if NonBlank(lines[anns[k].start - 1]) && Ended(lines[anns[k].end - 1]) {
      BlockSays(lines, anns[k], prefix);
      BodyAt(all, at, here, 0);
      BodyAt(all, at, here, |here| - 1);
    }
  }

  lemma {:induction false} InlineShape(lines: seq<string>, ann: Annotation, prefix: string)
    requires ann.Inline? && Fits(ann, |lines|)
    ensures |ShownLines(lines, ann, prefix)| == 1 && Lead(lines, ann, prefix) == 0
  {}
}
