/** Planning the annotations of one file, from its findings to its new text. */
module Planning {
  import opened TextLines
  import opened Sorting
  import opened Annotations
  import opened Annotator
  import opened Insertion
  import opened RoundTrip
  import opened Saying

  datatype Scanner = Unknown | Scanner(name: string)

  // A finding on a 1-based line, 0 when it has none, and the scanner its rule belongs to.
  datatype Finding = Finding(line: nat, scanner: Scanner)

  datatype Range = Outside | Within(first: nat, last: nat)

  const NO_ALIASES := Aliases([], [], [], [])

  // Enclosing strings contain the line asked for and are the enclosing strings of all their lines.
  ghost predicate Encloses(multiline: nat -> Range, n: nat) {
    forall l: nat :: 1 <= l <= n && multiline(l).Within? ==>
      && 1 <= multiline(l).first <= l <= multiline(l).last <= n
      && forall m: nat :: multiline(l).first <= m <= multiline(l).last ==> multiline(m) == multiline(l)
  }

  function Draw(line: nat, types: seq<string>, multiline: nat -> Range): Annotation {
    match multiline(line)
    case Outside => Inline(line, types)
    case Within(first, last) => Block(line, types, first, last)
  }

  predicate Wanted(f: Finding, suppressed: set<nat>) {
    f.line > 0 && f.line - 1 !in suppressed && f.scanner.Scanner?
  }

  predicate EarlierLine(i: nat, j: nat) { i <= j }

  function AddLine(order: seq<nat>, line: nat): seq<nat> { if line in order then order else order + [line] }

  function AddType(types: seq<string>, name: string): seq<string> { if name in types then types else types + [name] }

  // A name is among the types of a line exactly when one of the findings puts it there.
  ghost predicate Collects(findings: seq<Finding>, suppressed: set<nat>, order: seq<nat>, types: map<nat, seq<string>>) {
    && AllDiffer(order) && (forall l :: l in order <==> l in types)
    && (forall f :: f in findings && Wanted(f, suppressed) ==> f.line in types && f.scanner.name in types[f.line])
    && (forall l :: l in types ==> types[l] != [] && forall t :: t in types[l] ==> Named(findings, suppressed, l, t))
    && (forall l :: l in types ==> AllDiffer(types[l]))
  }

  predicate Named(findings: seq<Finding>, suppressed: set<nat>, l: nat, name: string) {
    exists f :: f in findings && Wanted(f, suppressed) && f.line == l && f.scanner.name == name
  }

  lemma {:induction false} CollectsMore(
    findings: seq<Finding>, suppressed: set<nat>, order: seq<nat>, types: map<nat, seq<string>>, f: Finding)
    requires Collects(findings, suppressed, order, types)
    ensures !Wanted(f, suppressed) ==> Collects(findings + [f], suppressed, order, types)
    ensures Wanted(f, suppressed) ==>
      Collects(findings + [f], suppressed, AddLine(order, f.line),
               types[f.line := AddType(if f.line in types then types[f.line] else [], f.scanner.name)])
  {}

  // The lines and types to annotate, in order of appearance.
  method Collect(findings: seq<Finding>, suppressed: set<nat>)
    returns (order: seq<nat>, types: map<nat, seq<string>>, skipped: nat)
    ensures Collects(findings, suppressed, order, types)
    ensures skipped == |Filter(findings, suppressed)|
  {
    hide Collects, Wanted;
    order, types, skipped := [], map[], 0;
    NothingCollected(suppressed);
    for k := 0 to |findings|
      invariant Collects(findings[..k], suppressed, order, types)
      invariant skipped == |Filter(findings[..k], suppressed)|
    {
      var f := findings[k];
      assert findings[..k + 1] == findings[..k] + [f];
      CollectsMore(findings[..k], suppressed, order, types, f);
      FilterMore(findings[..k], f, suppressed);
      WantedIs(f, suppressed);
      if f.line > 0 {
        if f.line - 1 in suppressed {
          skipped := skipped + 1;
        } else if f.scanner.Scanner? {
          order := AddLine(order, f.line);
          types := types[f.line := AddType(if f.line in types then types[f.line] else [], f.scanner.name)];
        }
      }
    }
    assert findings[..|findings|] == findings;
  }

  lemma {:induction false} NothingCollected(suppressed: set<nat>)
    ensures Collects([], suppressed, [], map[])
  {}

  lemma {:induction false} WantedIs(f: Finding, suppressed: set<nat>)
    ensures Wanted(f, suppressed) <==> f.line > 0 && f.line - 1 !in suppressed && f.scanner.Scanner?
  {}

  // The findings on lines that are suppressed already.
  function Filter(findings: seq<Finding>, suppressed: set<nat>): seq<Finding> {
    if findings == [] then []
    else (if findings[0].line > 0 && findings[0].line - 1 in suppressed then [findings[0]] else []) + Filter(findings[1..], suppressed)
  }

  lemma {:induction false} FilterMore(findings: seq<Finding>, f: Finding, suppressed: set<nat>)
    ensures |Filter(findings + [f], suppressed)| ==
            |Filter(findings, suppressed)| + if f.line > 0 && f.line - 1 in suppressed then 1 else 0
  {
    if findings == [] {
      assert [f][1..] == [];
    } else {
      FilterMore(findings[1..], f, suppressed);
      assert (findings + [f])[1..] == findings[1..] + [f];
    }
  }

  // The annotations of a plan: one for each line, with its types sorted, drawn around the string it is in.
  predicate PlanFor(planned: seq<Annotation>, order: seq<nat>, types: map<nat, seq<string>>, multiline: nat -> Range)
    requires forall l :: l in order <==> l in types
  {
    && (forall l :: l in order ==> Draw(l, Sort(types[l], TextLe), multiline) in planned)
    && (forall k :: 0 <= k < |planned| ==>
      planned[k].line in order && planned[k] == Draw(planned[k].line, Sort(types[planned[k].line], TextLe), multiline))
    && (forall j, k :: 0 <= j < k < |planned| ==> planned[k].line < planned[j].line)
  }

  lemma {:induction false} LineOrders()
    ensures TotalOrder(LaterLine)
    ensures TotalOrder(EarlierLine)
  {}

  method DrawAll(order: seq<nat>, types: map<nat, seq<string>>, multiline: nat -> Range) returns (planned: seq<Annotation>)
    requires AllDiffer(order) && forall l :: l in order <==> l in types
    ensures PlanFor(planned, order, types, multiline)
  {
    hide Sort;
    var sorted := Sort(order, EarlierLine);
    LineOrders();
    SortElements(order, EarlierLine);
    var drawn := [];
    for k := 0 to |sorted|
      invariant |drawn| == k
      invariant forall j :: 0 <= j < k ==> sorted[j] in types && drawn[j] == Draw(sorted[j], Sort(types[sorted[j]], TextLe), multiline)
    {
      assert sorted[k] in sorted;
      var sortedTypes := Sort(types[sorted[k]], TextLe);
      match multiline(sorted[k])
      case Outside => drawn := drawn + [Inline(sorted[k], sortedTypes)];
      case Within(first, last) => drawn := drawn + [Block(sorted[k], sortedTypes, first, last)];
    }
    planned := Sort(drawn, LaterLine);
    DrawnIsPlan(order, types, multiline, sorted, drawn);
  }

  // The drawn annotations, one for each line, in the order of the plan.
  lemma {:induction false} DrawnIsPlan(
    order: seq<nat>, types: map<nat, seq<string>>, multiline: nat -> Range, sorted: seq<nat>, drawn: seq<Annotation>)
    requires AllDiffer(order) && (forall l :: l in order <==> l in types)
    requires multiset(sorted) == multiset(order) && |drawn| == |sorted| && forall l :: l in sorted <==> l in order
    requires forall j :: 0 <= j < |sorted| ==>
      sorted[j] in types && drawn[j] == Draw(sorted[j], Sort(types[sorted[j]], TextLe), multiline)
    ensures PlanFor(Sort(drawn, LaterLine), order, types, multiline)
  {
    hide Sort, Draw;
    var planned := Sort(drawn, LaterLine);
    SortElements(drawn, LaterLine);
    forall j | 0 <= j < |drawn| ensures sorted[j] in order && drawn[j].line == sorted[j] {
      assert sorted[j] in sorted;
      DrawKeepsLine(sorted[j], Sort(types[sorted[j]], TextLe), multiline);
    }
    forall k | 0 <= k < |planned|
      ensures planned[k].line in order && planned[k] == Draw(planned[k].line, Sort(types[planned[k].line], TextLe), multiline)
    {
      assert planned[k] in planned;
      var j :| 0 <= j < |drawn| && drawn[j] == planned[k];
    }
    forall l | l in order ensures Draw(l, Sort(types[l], TextLe), multiline) in planned {
      var j :| 0 <= j < |sorted| && sorted[j] == l;
      assert drawn[j] in drawn;
    }
    StillDiffer(order, sorted);
    Descends(drawn);
  }

  lemma {:induction false} DrawKeepsLine(line: nat, types: seq<string>, multiline: nat -> Range)
    ensures Draw(line, types, multiline).line == line
  {}

  lemma {:induction false} Descends(drawn: seq<Annotation>)
    requires forall i, j :: 0 <= i < j < |drawn| ==> drawn[i].line != drawn[j].line
    ensures |Sort(drawn, LaterLine)| == |drawn|
    ensures forall j, k :: 0 <= j < k < |drawn| ==> Sort(drawn, LaterLine)[k].line < Sort(drawn, LaterLine)[j].line
  {
    hide Sort;
    var planned := Sort(drawn, LaterLine);
    LineOrders();
    SortElements(drawn, LaterLine);
    SortSorts(drawn, LaterLine);
    StillDiffer(drawn, planned);
    forall j, k | 0 <= j < k < |drawn| ensures planned[k].line < planned[j].line {
      assert LaterLine(planned[j], planned[k]) && planned[j] in planned && planned[k] in planned;
      var j' :| 0 <= j' < |drawn| && drawn[j'] == planned[j];
      var k' :| 0 <= k' < |drawn| && drawn[k'] == planned[k];
    }
  }

  // A plan drawn around enclosing strings is what merging and inserting expect.
  lemma {:induction false} PlanIsPlanned(
    planned: seq<Annotation>, order: seq<nat>, types: map<nat, seq<string>>, multiline: nat -> Range, n: nat)
    requires (forall l :: l in order <==> l in types) && PlanFor(planned, order, types, multiline)
    requires Encloses(multiline, n) && forall l :: l in order ==> 1 <= l <= n
    ensures Planned(planned, n)
  {
    hide Sort;
    forall k | 0 <= k < |planned| ensures Fits(planned[k], n) {
      assert planned[k].line in order;
    }
    forall j, k | 0 <= j < k < |planned| ensures Apart(planned[j], planned[k]) {
      assert planned[j].line in order && planned[k].line in order;
      DrawnApart(planned[j].line, Sort(types[planned[j].line], TextLe), planned[k].line, Sort(types[planned[k].line], TextLe), multiline, n);
    }
  }

  lemma {:induction false} DrawnApart(
    line: nat, types: seq<string>, line': nat, types': seq<string>, multiline: nat -> Range, n: nat)
    requires Encloses(multiline, n) && 1 <= line' < line <= n
    ensures Apart(Draw(line, types, multiline), Draw(line', types', multiline))
  {
    var a, b := Draw(line, types, multiline), Draw(line', types', multiline);
    if Top(b) >= Bottom(a) {
      var m := if Top(b) < line then Bottom(a) else line;
      assert Bottom(a) <= m <= Top(a) && Bottom(b) <= m <= Top(b);
      assert a.Block? ==> multiline(m) == multiline(line);
      assert b.Block? ==> multiline(m) == multiline(line');
    }
  }

  lemma {:induction false} MergedTypesComeFrom(anns: seq<Annotation>, k: nat, j: nat, t: string)
    requires k <= |anns| && j < |MergeAll(anns, k)| && t in MergeAll(anns, k)[j].types
    ensures exists i :: 0 <= i < k && t in anns[i].types
  {
    hide MergeTypes;
    var merged, ann := MergeAll(anns, k - 1), anns[k - 1];
    if j < |merged| {
      MergedTypes(merged[j].types, ann.types);
      if t in merged[j].types { MergedTypesComeFrom(anns, k - 1, j, t); }
    }
  }

  lemma {:induction false} TakesAlike(lines: seq<string>, x: Annotation, y: Annotation, prefix: string, a: Aliases)
    requires Alike(x, y) && Fits(x, |lines|) && Fits(y, |lines|) && Takes(lines, y, prefix, a)
    ensures Takes(lines, x, prefix, a)
  {
    hide ShownEnd, Bodies, MarkOf, IsBlockBegin, StrippedLen, Unmarked, Body;
  }

  // What merging gives can be written where what is merged can.
  lemma {:induction false} MergeIsWritable(lines: seq<string>, planned: seq<Annotation>, prefix: string, a: Aliases)
    requires Planned(planned, |lines|) && Writable(lines, planned, prefix, a)
    ensures Descending(MergeAll(planned, |planned|), |lines|) && Writable(lines, MergeAll(planned, |planned|), prefix, a)
  {
    hide MergeAll, Sort, Takes, Unmarked, Alike;
    MergeIsDescending(planned, |lines|);
    var merged := MergeAll(planned, |planned|);
    forall k | 0 <= k < |merged| ensures Takes(lines, merged[k], prefix, a) && Sound(merged[k]) {
      MergedAreLike(planned, |planned|, merged[k]);
      var i :| 0 <= i < |planned| && Alike(merged[k], planned[..|planned|][i]);
      TakesAlike(lines, merged[k], planned[i], prefix, a);
      forall t | t in merged[k].types ensures Unmarked(t) {
        MergedTypesComeFrom(planned, |planned|, k, t);
        var from :| 0 <= from < |planned| && t in planned[from].types;
        assert Sound(planned[from]);
      }
    }
  }

  // Line i of the content is suppressed where it is in the annotated text, and begins there with what it was.
  ghost predicate LineCovered(content: string, anns: seq<Annotation>, prefix: string, modified: string, a: Aliases, i: nat) {
    && Descending(anns, |SplitKeep(content)|) && i < |SplitKeep(content)|
    && Covered(Split(modified), a, Moved(SplitKeep(content), anns, prefix, i), SplitKeep(content)[i])
  }

  // Every line of what was planned is suppressed where it is in the annotated text.
  lemma {:induction false} PlannedIsSuppressed(
    content: string, planned: seq<Annotation>, prefix: string, a: Aliases, k: nat, i: nat)
    requires Planned(planned, |SplitKeep(content)|) && Writable(SplitKeep(content), planned, prefix, a)
    requires k < |planned| && Bottom(planned[k]) <= i + 1 <= Top(planned[k])
    ensures var merged := Sort(MergeAll(planned, |planned|), LaterLine);
      && Descending(merged, |SplitKeep(content)|)
      && LineCovered(content, merged, prefix, Join(ApplyAll(SplitKeep(content), merged, prefix)), a, i)
  {
    hide MergeAll, Sort, Takes, ApplyAll, Unmarked, Split, Join, Covered, Moved, Writable, Descending, Planned;
    MergeIsDescending(planned, |SplitKeep(content)|);
    MergeIsWritable(SplitKeep(content), planned, prefix, a);
    var merged := MergeAll(planned, |planned|);
    var j :| 0 <= j < |merged| && Represents(merged[j], planned[k]);
    PlannedFits(planned, |SplitKeep(content)|, k);
    AppliedIsSuppressed(content, merged, prefix, a, j, i);
  }

  lemma {:induction false} PlannedFits(planned: seq<Annotation>, n: nat, k: nat)
    requires Planned(planned, n) && k < |planned|
    ensures Fits(planned[k], n)
  {}

  /* ---- what the new text names ---- */

  // The scanners of the findings in question on the lines from first to last.
  ghost predicate NamesOf(findings: seq<Finding>, suppressed: set<nat>, first: nat, last: nat, names: seq<string>) {
    forall t :: t in names <==> exists g :: g in findings && Wanted(g, suppressed) && first <= g.line <= last && g.scanner.name == t
  }

  lemma {:induction false} PlannedAreNeat(
    findings: seq<Finding>, suppressed: set<nat>, order: seq<nat>, types: map<nat, seq<string>>,
    multiline: nat -> Range, planned: seq<Annotation>, k: nat)
    requires Collects(findings, suppressed, order, types)
    requires (forall l :: l in order <==> l in types) && PlanFor(planned, order, types, multiline) && k < |planned|
    ensures Neat(planned[k].types) && planned[k].line in types
    ensures forall t :: t in planned[k].types <==> Named(findings, suppressed, planned[k].line, t)
  {
    hide Sort, Neat, Wanted, Draw;
    var l := planned[k].line;
    assert l in order;
    SortIsNeat(types[l]);
    DrawKeepsTypes(l, Sort(types[l], TextLe), multiline);
  }

  lemma {:induction false} DrawKeepsTypes(line: nat, types: seq<string>, multiline: nat -> Range)
    ensures Draw(line, types, multiline).types == types
  {}

  // What a merged annotation names are the scanners of the findings on its lines.
  lemma {:induction false} MergedAreNamed(
    findings: seq<Finding>, suppressed: set<nat>, order: seq<nat>, types: map<nat, seq<string>>,
    multiline: nat -> Range, planned: seq<Annotation>, n: nat, x: Annotation)
    requires Collects(findings, suppressed, order, types) && Encloses(multiline, n) && forall l :: l in order ==> 1 <= l <= n
    requires (forall l :: l in order <==> l in types) && PlanFor(planned, order, types, multiline)
    requires x in MergeAll(planned, |planned|) && Planned(planned, n)
    ensures Neat(x.types) && Fits(x, n) && NamesOf(findings, suppressed, Bottom(x), Top(x), x.types)
  {
    hide Neat, Sort, MergeAll, Encloses, Collects, PlanFor, Planned;
    forall i | 0 <= i < |planned| ensures Neat(planned[i].types) {
      PlannedAreNeat(findings, suppressed, order, types, multiline, planned, i);
    }
    MergedNames(planned, |planned|, x);
    assert planned[..|planned|] == planned;
    MergedFits(planned, n, x);
    if x.Inline? {
      var i :| 0 <= i < |planned| && planned[i] == x;
      PlannedAreNeat(findings, suppressed, order, types, multiline, planned, i);
      forall t ensures Named(findings, suppressed, x.line, t) <==>
        exists g :: g in findings && Wanted(g, suppressed) && x.line <= g.line <= x.line && g.scanner.name == t
      {
        NamedOnLine(findings, suppressed, x.line, t);
      }
    } else {
      forall t ensures t in x.types <==>
        exists g :: g in findings && Wanted(g, suppressed) && x.start <= g.line <= x.end && g.scanner.name == t
      {
        BlockNames(findings, suppressed, order, types, multiline, planned, n, x, t);
      }
    }
  }

  lemma {:induction false} MergedFits(planned: seq<Annotation>, n: nat, x: Annotation)
    requires x in MergeAll(planned, |planned|) && Planned(planned, n)
    ensures Fits(x, n)
  {
    hide MergeAll;
    MergedAreLike(planned, |planned|, x);
    var i :| 0 <= i < |planned| && Alike(x, planned[..|planned|][i]);
    PlannedFits(planned, n, i);
  }

  lemma {:induction false} NamedOnLine(findings: seq<Finding>, suppressed: set<nat>, l: nat, t: string)
    ensures Named(findings, suppressed, l, t) <==>
      exists g :: g in findings && Wanted(g, suppressed) && l <= g.line <= l && g.scanner.name == t
  {}

  lemma {:induction false} BlockNames(
    findings: seq<Finding>, suppressed: set<nat>, order: seq<nat>, types: map<nat, seq<string>>,
    multiline: nat -> Range, planned: seq<Annotation>, n: nat, x: Annotation, t: string)
    requires Collects(findings, suppressed, order, types) && Encloses(multiline, n) && forall l :: l in order ==> 1 <= l <= n
    requires (forall l :: l in order <==> l in types) && PlanFor(planned, order, types, multiline)
    requires x.Block? && x in MergeAll(planned, |planned|) && (t in x.types <==> NamedByOne(planned, x, t))
    ensures t in x.types <==>
      exists g :: g in findings && Wanted(g, suppressed) && x.start <= g.line <= x.end && g.scanner.name == t
  {
    hide Sort, MergeAll, Neat;
    if t in x.types {
      var i :| 0 <= i < |planned| && SameRange(planned[i], x) && t in planned[i].types;
      PlannedAreNeat(findings, suppressed, order, types, multiline, planned, i);
      DrawnWithin(order, types, multiline, planned, n, i);
    }
    if g :| g in findings && Wanted(g, suppressed) && x.start <= g.line <= x.end && g.scanner.name == t {
      MergedAreLike(planned, |planned|, x);
      var i :| 0 <= i < |planned| && Alike(x, planned[..|planned|][i]);
      assert SameRange(planned[i], x);
      DrawnWithin(order, types, multiline, planned, n, i);
      assert multiline(g.line) == multiline(planned[i].line);
      var ann := Draw(g.line, Sort(types[g.line], TextLe), multiline);
      var j :| 0 <= j < |planned| && planned[j] == ann;
      PlannedAreNeat(findings, suppressed, order, types, multiline, planned, j);
      assert NamedByOne(planned, x, t);
    }
  }

  // A block's range is the enclosing string of its line.
  lemma {:induction false} DrawnWithin(
    order: seq<nat>, types: map<nat, seq<string>>, multiline: nat -> Range, planned: seq<Annotation>, n: nat, i: nat)
    requires (forall l :: l in order <==> l in types) && PlanFor(planned, order, types, multiline) && i < |planned|
    requires Encloses(multiline, n) && forall l :: l in order ==> 1 <= l <= n
    ensures planned[i].Block? ==>
      && multiline(planned[i].line) == Within(planned[i].start, planned[i].end)
      && planned[i].start <= planned[i].line <= planned[i].end
      && forall m: nat :: planned[i].start <= m <= planned[i].end ==> multiline(m) == multiline(planned[i].line)
  {
    hide Sort;
    assert planned[i].line in order;
  }

  /* ---- _plan_file_annotations ---- */

  // The finding is on a line that no annotation suppresses yet, and of a known scanner.
  ghost predicate Due(content: string, f: Finding) {
    f.line > 0 && f.scanner.Scanner? && !SuppressedAt(Split(content), BuildAliases(NO_ALIASES), f.line - 1)
  }

  // The due findings are on lines of the content that can take their annotations.
  ghost predicate Ready(content: string, findings: seq<Finding>, prefix: string, multiline: nat -> Range, a: Aliases) {
    var lines := SplitKeep(content);
    && Encloses(multiline, |lines|) && Unmarked(prefix)
    && forall f :: f in findings && Due(content, f) ==>
      && f.line <= |lines| && Unmarked(f.scanner.name)
      && Fits(Draw(f.line, [], multiline), |lines|) && Takes(lines, Draw(f.line, [], multiline), prefix, a)
  }

  // How many findings are on lines suppressed already.
  ghost function AlreadyCovered(content: string, findings: seq<Finding>): nat {
    if findings == [] then 0 else
      (if findings[0].line > 0 && SuppressedAt(Split(content), BuildAliases(NO_ALIASES), findings[0].line - 1) then 1 else 0)
      + AlreadyCovered(content, findings[1..])
  }

  ghost predicate IsSuppressedSet(content: string, suppressed: set<nat>) {
    forall l: nat :: l in suppressed <==> SuppressedAt(Split(content), BuildAliases(NO_ALIASES), l)
  }

  lemma {:induction false} FilterCounts(content: string, findings: seq<Finding>, suppressed: set<nat>)
    requires IsSuppressedSet(content, suppressed)
    ensures |Filter(findings, suppressed)| == AlreadyCovered(content, findings)
  {
    if findings != [] { FilterCounts(content, findings[1..], suppressed); }
  }

  lemma {:induction false} DueIsWanted(content: string, suppressed: set<nat>)
    requires IsSuppressedSet(content, suppressed)
    ensures forall f :: Due(content, f) <==> Wanted(f, suppressed)
  {}

  lemma {:induction false} CollectedOrder(findings: seq<Finding>, suppressed: set<nat>, order: seq<nat>, types: map<nat, seq<string>>)
    requires Collects(findings, suppressed, order, types)
    ensures AllDiffer(order) && forall l :: l in order <==> l in types
    ensures forall l :: l in order ==> l > 0 && exists f :: f in findings && Wanted(f, suppressed) && f.line == l
    ensures order == [] <==> forall f :: f in findings ==> !Wanted(f, suppressed)
  {
    forall l | l in order ensures l > 0 && exists f :: f in findings && Wanted(f, suppressed) && f.line == l {
      assert types[l][0] in types[l];
      var f :| f in findings && Wanted(f, suppressed) && f.line == l && f.scanner.name == types[l][0];
      WantedIs(f, suppressed);
    }
    if order != [] { assert order[0] in order; }
  }

  lemma {:induction false} PlanIsAbove(planned: seq<Annotation>, order: seq<nat>, types: map<nat, seq<string>>, multiline: nat -> Range)
    requires (forall l :: l in order <==> l in types) && PlanFor(planned, order, types, multiline)
    requires (forall l :: l in order ==> l > 0) && forall l: nat :: multiline(l).Within? ==> multiline(l).first >= 1
    ensures forall k :: 0 <= k < |planned| ==> Bottom(planned[k]) >= 1
  {}

  lemma {:induction false} MergedAreAbove(planned: seq<Annotation>)
    requires forall k :: 0 <= k < |planned| ==> Bottom(planned[k]) >= 1
    ensures var merged := Sort(MergeAll(planned, |planned|), LaterLine);
      forall k :: 0 <= k < |merged| ==> Bottom(merged[k]) >= 1
  {
    hide Sort, MergeAll;
    var all := MergeAll(planned, |planned|);
    SortElements(all, LaterLine);
    var merged := Sort(all, LaterLine);
    forall k | 0 <= k < |merged| ensures Bottom(merged[k]) >= 1 {
      assert merged[k] in merged;
      MergedAreLike(planned, |planned|, merged[k]);
      var i :| 0 <= i < |planned| && Alike(merged[k], planned[..|planned|][i]);
    }
  }

  datatype Outcome = Nothing | Plan(annotations: seq<Annotation>, modified: string)

  // A due finding is suppressed in the new text, and so is every line of the string it is in.
  ghost predicate Covers(content: string, plan: Outcome, prefix: string, multiline: nat -> Range, a: Aliases, f: Finding) {
    plan.Plan? && forall i: nat :: Bottom(Draw(f.line, [], multiline)) <= i + 1 <= Top(Draw(f.line, [], multiline)) ==>
      LineCovered(content, plan.annotations, prefix, plan.modified, a, i)
  }

  // The scanners of the due findings on the lines from first to last.
  ghost predicate DueNames(content: string, findings: seq<Finding>, first: nat, last: nat, names: seq<string>) {
    forall t :: t in names <==> exists g :: g in findings && Due(content, g) && first <= g.line <= last && g.scanner.name == t
  }

  // The new text says, at the finding's line or around the string it is in, the scanners of the due findings there.
  ghost predicate SaysFor(
    content: string, findings: seq<Finding>, plan: Outcome, prefix: string, multiline: nat -> Range, f: Finding)
  {
    var lines := SplitKeep(content);
    && plan.Plan? && Descending(plan.annotations, |lines|) && 1 <= f.line <= |lines|
    && var bodies := Split(plan.modified);
      match multiline(f.line)
      case Outside =>
        var at := Moved(lines, plan.annotations, prefix, f.line - 1);
        at < |bodies| && exists names :: DueNames(content, findings, f.line, f.line, names) && SaysInline(bodies[at], lines[f.line - 1], prefix, names)
      case Within(start, end) =>
        1 <= start <= end <= |lines| && (NonBlank(lines[start - 1]) && Ended(lines[end - 1]) ==>
          var first, last := Moved(lines, plan.annotations, prefix, start - 1), Moved(lines, plan.annotations, prefix, end - 1);
          && 0 < first <= last < |bodies| - 1 && last == first + (end - start)
          && exists names ::
            DueNames(content, findings, start, end, names) && SaysBlock(bodies[first - 1], bodies[last + 1], lines[start - 1], prefix, names))
  }

  // The names of scanners have no commas.
  ghost predicate NoCommas(content: string, findings: seq<Finding>) {
    forall g :: g in findings && Due(content, g) ==> ',' !in g.scanner.name
  }

  // The new text is the content with the annotations inserted.
  predicate Applies(content: string, plan: Outcome, prefix: string) {
    plan.Plan? ==>
      && (forall k :: 0 <= k < |plan.annotations| ==> Bottom(plan.annotations[k]) >= 1)
      && plan.modified == Join(ApplyAll(SplitKeep(content), plan.annotations, prefix))
  }

  lemma {:induction false} SuppressedIsSet(content: string, suppressed: set<nat>)
    requires forall l: nat :: l in suppressed <==> l < |Split(content)| && Suppressed(Split(content), BuildAliases(NO_ALIASES), l)
    ensures IsSuppressedSet(content, suppressed)
  {}

  lemma {:induction false} TypesAreSound(
    content: string, findings: seq<Finding>, prefix: string, multiline: nat -> Range, a: Aliases,
    suppressed: set<nat>, order: seq<nat>, types: map<nat, seq<string>>, l: nat)
    requires Ready(content, findings, prefix, multiline, a) && forall f :: Due(content, f) <==> Wanted(f, suppressed)
    requires Collects(findings, suppressed, order, types) && l in types
    ensures Sound(Draw(l, Sort(types[l], TextLe), multiline))
  {
    hide Sort, SplitKeep, Due, Takes, Unmarked, Encloses;
    SortElements(types[l], TextLe);
    forall t | t in types[l] ensures Unmarked(t) {
      var g :| g in findings && Wanted(g, suppressed) && g.line == l && g.scanner.name == t;
      assert Due(content, g);
    }
  }

  // The plan for what was collected can be written when the due findings' lines are ready.
  lemma {:induction false} PlanIsWritable(
    content: string, findings: seq<Finding>, prefix: string, multiline: nat -> Range, a: Aliases,
    suppressed: set<nat>, order: seq<nat>, types: map<nat, seq<string>>, planned: seq<Annotation>)
    requires Ready(content, findings, prefix, multiline, a) && forall f :: Due(content, f) <==> Wanted(f, suppressed)
    requires Collects(findings, suppressed, order, types)
    requires (forall l :: l in order <==> l in types) && PlanFor(planned, order, types, multiline)
    ensures Planned(planned, |SplitKeep(content)|) && Writable(SplitKeep(content), planned, prefix, a)
  {
    hide Sort, SplitKeep, Due, Takes, Unmarked, Encloses, Planned;
    var lines := SplitKeep(content);
    CollectedOrder(findings, suppressed, order, types);
    PlanIsPlanned(planned, order, types, multiline, |lines|);
    forall k | 0 <= k < |planned| ensures Fits(planned[k], |lines|) && Takes(lines, planned[k], prefix, a) && Sound(planned[k]) {
      var l := planned[k].line;
      assert l in order;
      var f :| f in findings && Wanted(f, suppressed) && f.line == l;
      assert Due(content, f);
      PlannedFits(planned, |lines|, k);
      TakesAlike(lines, planned[k], Draw(l, [], multiline), prefix, a);
      TypesAreSound(content, findings, prefix, multiline, a, suppressed, order, types, l);
    }
  }

  lemma {:induction false} PlanCovers(
    content: string, findings: seq<Finding>, prefix: string, multiline: nat -> Range, a: Aliases, f: Finding,
    suppressed: set<nat>, order: seq<nat>, types: map<nat, seq<string>>, planned: seq<Annotation>)
    requires Ready(content, findings, prefix, multiline, a) && forall f :: Due(content, f) <==> Wanted(f, suppressed)
    requires Collects(findings, suppressed, order, types)
    requires (forall l :: l in order <==> l in types) && PlanFor(planned, order, types, multiline)
    requires f in findings && Due(content, f)
    requires forall k :: 0 <= k < |planned| ==> Bottom(planned[k]) >= 1
    requires forall k :: 0 <= k < |Sort(MergeAll(planned, |planned|), LaterLine)| ==>
      Bottom(Sort(MergeAll(planned, |planned|), LaterLine)[k]) >= 1
    ensures var merged := Sort(MergeAll(planned, |planned|), LaterLine);
      Covers(content, Plan(merged, Join(ApplyAll(SplitKeep(content), merged, prefix))), prefix, multiline, a, f)
  {
    hide Sort, SplitKeep, Split, Join, Due, Writable, Planned, ApplyAll, MergeAll, LineCovered, Ready;
    PlanIsWritable(content, findings, prefix, multiline, a, suppressed, order, types, planned);
    var ann := Draw(f.line, Sort(types[f.line], TextLe), multiline);
    var merged := Sort(MergeAll(planned, |planned|), LaterLine);
    assert forall j :: 0 <= j < |merged| ==> Bottom(merged[j]) >= 1;
    var k :| 0 <= k < |planned| && planned[k] == ann;
    forall i: nat | Bottom(Draw(f.line, [], multiline)) <= i + 1 <= Top(Draw(f.line, [], multiline))
      ensures LineCovered(content, merged, prefix, Join(ApplyAll(SplitKeep(content), merged, prefix)), a, i)
    {
      PlannedIsSuppressed(content, planned, prefix, a, k, i);
    }
  }

  lemma {:induction false} NamesAreDue(content: string, findings: seq<Finding>, suppressed: set<nat>, first: nat, last: nat, names: seq<string>)
    requires (forall f :: Due(content, f) <==> Wanted(f, suppressed)) && NamesOf(findings, suppressed, first, last, names)
    ensures DueNames(content, findings, first, last, names)
    ensures NoCommas(content, findings) ==> forall t :: t in names ==> ',' !in t
  {
    hide SplitKeep, SuppressedAt, Split;
  }

  // What is planned is said.
  lemma {:induction false} PlanSays(
    content: string, findings: seq<Finding>, prefix: string, multiline: nat -> Range, a: Aliases, f: Finding,
    suppressed: set<nat>, order: seq<nat>, types: map<nat, seq<string>>, planned: seq<Annotation>)
    requires Ready(content, findings, prefix, multiline, a) && NoCommas(content, findings)
    requires forall g :: Due(content, g) <==> Wanted(g, suppressed)
    requires Collects(findings, suppressed, order, types)
    requires (forall l :: l in order <==> l in types) && PlanFor(planned, order, types, multiline)
    requires f in findings && Due(content, f)
    requires forall k :: 0 <= k < |Sort(MergeAll(planned, |planned|), LaterLine)| ==>
      Bottom(Sort(MergeAll(planned, |planned|), LaterLine)[k]) >= 1
    ensures var merged := Sort(MergeAll(planned, |planned|), LaterLine);
      SaysFor(content, findings, Plan(merged, Join(ApplyAll(SplitKeep(content), merged, prefix))), prefix, multiline, f)
  {
    hide Sort, SplitKeep, Split, Join, Due, Writable, ApplyAll, MergeAll, Neat, Collects, NamesOf, DueNames, NoCommas, Descending, Planned,
      SaysAt, SaysFor, Ready, PlanFor;
    var lines := SplitKeep(content);
    PlanIsWritable(content, findings, prefix, multiline, a, suppressed, order, types, planned);
    MergeIsDescending(planned, |lines|);
    MergeIsWritable(lines, planned, prefix, a);
    var merged := MergeAll(planned, |planned|);
    OrderIsInside(content, findings, prefix, multiline, a, suppressed, order, types);
    FindingIsPlanned(findings, suppressed, order, types, multiline, planned, f);
    var k :| 0 <= k < |planned| && planned[k].line == f.line && planned[k] == Draw(f.line, planned[k].types, multiline);
    assert SaidByOne(merged, planned[k]);
    var j :| 0 <= j < |merged| && Represents(merged[j], planned[k]);
    PlannedFits(planned, |lines|, k);
    MergedAreNamed(findings, suppressed, order, types, multiline, planned, |lines|, merged[j]);
    NamesAreDue(content, findings, suppressed, Bottom(merged[j]), Top(merged[j]), merged[j].types);
    AppliedSays(content, merged, prefix, a, j);
    SaidIsFor(content, findings, merged, prefix, multiline, f, Join(ApplyAll(lines, merged, prefix)), j, planned[k]);
  }

  lemma {:induction false} SaidIsFor(
    content: string, findings: seq<Finding>, merged: seq<Annotation>, prefix: string, multiline: nat -> Range, f: Finding,
    modified: string, j: nat, drawn: Annotation)
    requires Descending(merged, |SplitKeep(content)|) && j < |merged| && Fits(merged[j], |SplitKeep(content)|)
    requires SaysAt(SplitKeep(content), merged, prefix, Split(modified), j) && Represents(merged[j], drawn)
    requires drawn == Draw(f.line, drawn.types, multiline) && drawn.line == f.line && Fits(drawn, |SplitKeep(content)|)
    requires DueNames(content, findings, Bottom(merged[j]), Top(merged[j]), merged[j].types)
    ensures SaysFor(content, findings, Plan(merged, modified), prefix, multiline, f)
  {
    hide SplitKeep, Split, Moved, SaysInline, SaysBlock, NonBlank, Ended, DueNames, Descending;
  }

  lemma {:induction false} OrderIsInside(
    content: string, findings: seq<Finding>, prefix: string, multiline: nat -> Range, a: Aliases,
    suppressed: set<nat>, order: seq<nat>, types: map<nat, seq<string>>)
    requires Ready(content, findings, prefix, multiline, a) && forall g :: Due(content, g) <==> Wanted(g, suppressed)
    requires Collects(findings, suppressed, order, types)
    ensures Encloses(multiline, |SplitKeep(content)|) && forall l :: l in order ==> 1 <= l <= |SplitKeep(content)|
  {
    hide SplitKeep, Due, Wanted, Takes, Unmarked, Encloses, Collects;
    CollectedOrder(findings, suppressed, order, types);
    forall l | l in order ensures 1 <= l <= |SplitKeep(content)| {
      var g :| g in findings && Wanted(g, suppressed) && g.line == l;
      assert Due(content, g);
    }
  }

  lemma {:induction false} FindingIsPlanned(
    findings: seq<Finding>, suppressed: set<nat>, order: seq<nat>, types: map<nat, seq<string>>, multiline: nat -> Range,
    planned: seq<Annotation>, f: Finding)
    requires Collects(findings, suppressed, order, types) && f in findings && Wanted(f, suppressed)
    requires (forall l :: l in order <==> l in types) && PlanFor(planned, order, types, multiline)
    ensures exists k :: 0 <= k < |planned| && planned[k].line == f.line && planned[k] == Draw(f.line, planned[k].types, multiline)
  {
    hide Sort;
    var ann := Draw(f.line, Sort(types[f.line], TextLe), multiline);
    var k :| 0 <= k < |planned| && planned[k] == ann;
  }

  method PlanFileAnnotations(content: string, findings: seq<Finding>, prefix: string, multiline: nat -> Range)
    returns (plan: Outcome, skipped: nat)
    requires forall l: nat :: multiline(l).Within? ==> multiline(l).first >= 1
    ensures skipped == AlreadyCovered(content, findings)
    ensures plan.Nothing? <==> forall f :: f in findings ==> !Due(content, f)
    ensures Applies(content, plan, prefix)
    ensures forall a, f :: Ready(content, findings, prefix, multiline, a) && f in findings && Due(content, f) ==>
      Covers(content, plan, prefix, multiline, a, f)
    ensures forall a, f ::
      Ready(content, findings, prefix, multiline, a) && NoCommas(content, findings) && f in findings && Due(content, f) ==>
      SaysFor(content, findings, plan, prefix, multiline, f)
  {
    hide Collects, PlanFor, SplitKeep, Split, Join, SuppressedAt, Ready, Due, ApplyAll, Sort, MergeAll, Covers, SaysFor, NoCommas;
    var suppressed, _, _ := GetSuppressedLines(content, BuildAliases(NO_ALIASES));
    var order, types;
    order, types, skipped := Collect(findings, suppressed);
    SuppressedIsSet(content, suppressed);
    FilterCounts(content, findings, suppressed);
    DueIsWanted(content, suppressed);
    CollectedOrder(findings, suppressed, order, types);
    if order == [] { return Nothing, skipped; }
    var planned := DrawAll(order, types, multiline);
    PlanIsAbove(planned, order, types, multiline);
    var merged := MergeOverlappingBlocks(planned);
    MergedAreAbove(planned);
    var modified := ApplyAnnotations(content, merged, prefix);
    plan := Plan(merged, modified);
    forall a, f | Ready(content, findings, prefix, multiline, a) && f in findings && Due(content, f)
      ensures Covers(content, plan, prefix, multiline, a, f)
    {
      PlanCovers(content, findings, prefix, multiline, a, f, suppressed, order, types, planned);
    }
    forall a, f | Ready(content, findings, prefix, multiline, a) && NoCommas(content, findings) && f in findings && Due(content, f)
      ensures SaysFor(content, findings, plan, prefix, multiline, f)
    {
      PlanSays(content, findings, prefix, multiline, a, f, suppressed, order, types, planned);
    }
  }
}
