/** Planned annotations: merging the blocks that cover the same range. */
module Annotator {
  import opened TextLines
  import opened Sorting
  import opened Annotations

  // A planned annotation of a 1-based line: at its end, or around a range of lines it lies in.
  datatype Annotation =
    | Inline(line: nat, types: seq<string>)
    | Block(line: nat, types: seq<string>, start: nat, end: nat)

  function Bottom(ann: Annotation): nat { if ann.Block? then ann.start else ann.line }

  function Top(ann: Annotation): nat { if ann.Block? then ann.end else ann.line }

  predicate SameRange(a: Annotation, b: Annotation) {
    a.Block? && b.Block? && a.start == b.start && a.end == b.end
  }

  predicate Fits(ann: Annotation, n: nat) {
    1 <= Bottom(ann) <= ann.line <= Top(ann) <= n
  }

  // Everything a touches lies below everything b touches.
  predicate Below(a: Annotation, b: Annotation) { Top(b) < Bottom(a) }

  // Annotations in the order they are inserted in: each lies above the ones before it, inside n lines.
  predicate Descending(anns: seq<Annotation>, n: nat) {
    && (forall k :: 0 <= k < |anns| ==> Fits(anns[k], n))
    && (forall j, k :: 0 <= j < k < |anns| ==> Below(anns[j], anns[k]))
  }

  // What the planner hands over: one annotation a line, from the bottom up, and ranges that are the same or
  // apart and that no inline annotation lies in.
  predicate Planned(anns: seq<Annotation>, n: nat) {
    && (forall k :: 0 <= k < |anns| ==> Fits(anns[k], n))
    && (forall j, k :: 0 <= j < k < |anns| ==> Apart(anns[j], anns[k]))
  }

  predicate Apart(a: Annotation, b: Annotation) {
    b.line < a.line && (SameRange(a, b) || Below(a, b))
  }

  /* ---- _merge_overlapping_blocks ---- */

  // Text order by code points.
  predicate TextLe(a: string, b: string) {
    a == "" || (b != "" && ((a[0] as int) < (b[0] as int) || (a[0] == b[0] && TextLe(a[1..], b[1..]))))
  }

  predicate LaterLine(a: Annotation, b: Annotation) { a.line >= b.line }

  function AddNew(types: seq<string>, more: seq<string>): seq<string>
    decreases |more|
  {
    if more == [] then types
    else AddNew(if more[0] in types then types else types + [more[0]], more[1..])
  }

  function MergeTypes(types: seq<string>, more: seq<string>): seq<string> {
    Sort(AddNew(types, more), TextLe)
  }

  lemma {:induction false} AddNewHasBoth(types: seq<string>, more: seq<string>)
    ensures forall t :: t in AddNew(types, more) <==> t in types || t in more
    decreases |more|
  {
    if more != [] { AddNewHasBoth(if more[0] in types then types else types + [more[0]], more[1..]); }
  }

  lemma {:induction false} MergedTypes(types: seq<string>, more: seq<string>)
    ensures forall t :: t in MergeTypes(types, more) <==> t in types || t in more
  {
    hide Sort;
    AddNewHasBoth(types, more);
    SortElements(AddNew(types, more), TextLe);
  }

  // Index of the block with the range of ann, |merged| when there is none.
  function FindRange(merged: seq<Annotation>, ann: Annotation): (i: nat)
    ensures i <= |merged| && (i < |merged| ==> SameRange(merged[i], ann))
    ensures forall j :: 0 <= j < i ==> !SameRange(merged[j], ann)
  {
    if merged == [] then 0
    else if SameRange(merged[0], ann) then 0
    else 1 + FindRange(merged[1..], ann)
  }

  function MergeStep(merged: seq<Annotation>, ann: Annotation): seq<Annotation> {
    var i := FindRange(merged, ann);
    if i < |merged| then merged[i := merged[i].(types := MergeTypes(merged[i].types, ann.types))] else merged + [ann]
  }

  function MergeAll(anns: seq<Annotation>, k: nat): seq<Annotation>
    requires k <= |anns|
  {
    if k == 0 then [] else MergeStep(MergeAll(anns, k - 1), anns[k - 1])
  }

  type Ranges = map<(nat, nat), nat>

  // Where the block of each range is.
  predicate Indexed(seen: Ranges, merged: seq<Annotation>) {
    && (forall r :: r in seen ==>
      seen[r] < |merged| && merged[seen[r]].Block? && merged[seen[r]].start == r.0 && merged[seen[r]].end == r.1)
    && (forall j :: 0 <= j < |merged| && merged[j].Block? ==>
      (merged[j].start, merged[j].end) in seen && seen[(merged[j].start, merged[j].end)] == j)
  }

  lemma {:induction false} IndexFinds(seen: Ranges, merged: seq<Annotation>, ann: Annotation)
    requires Indexed(seen, merged)
    ensures FindRange(merged, ann) ==
            if ann.Block? && (ann.start, ann.end) in seen then seen[(ann.start, ann.end)] else |merged|
    ensures ann.Block? && (ann.start, ann.end) in seen ==> seen[(ann.start, ann.end)] < |merged|
  {}

  lemma {:induction false} IndexGrows(seen: Ranges, merged: seq<Annotation>, ann: Annotation)
    requires Indexed(seen, merged) && !(ann.Block? && (ann.start, ann.end) in seen)
    ensures Indexed(if ann.Block? then seen[(ann.start, ann.end) := |merged|] else seen, merged + [ann])
  {}

  lemma {:induction false} IndexStays(seen: Ranges, merged: seq<Annotation>, i: nat, types: seq<string>)
    requires Indexed(seen, merged) && i < |merged|
    ensures Indexed(seen, merged[i := merged[i].(types := types)])
  {}

  // One annotation for each range, in the place of the first one, with the types of all of them.
  method MergeOverlappingBlocks(anns: seq<Annotation>) returns (merged: seq<Annotation>)
    ensures merged == Sort(MergeAll(anns, |anns|), LaterLine)
  {
    hide Sort, MergeTypes, Indexed, FindRange;
    merged := [];
    var seen: Ranges := map[];
    assert Indexed(seen, merged) by { StartsIndexed(); }
    for k := 0 to |anns|
      invariant merged == MergeAll(anns, k) && Indexed(seen, merged)
    {
      var ann := anns[k];
      IndexFinds(seen, merged, ann);
      if ann.Block? {
        var key := (ann.start, ann.end);
        if key in seen {
          var i := seen[key];
          IndexStays(seen, merged, i, MergeTypes(merged[i].types, ann.types));
          merged := merged[i := merged[i].(types := MergeTypes(merged[i].types, ann.types))];
        } else {
          IndexGrows(seen, merged, ann);
          seen := seen[key := |merged|];
          merged := merged + [ann];
        }
      } else {
        IndexGrows(seen, merged, ann);
        merged := merged + [ann];
      }
    }
    merged := Sort(merged, LaterLine);
  }

  lemma {:induction false} StartsIndexed()
    ensures Indexed(map[], [])
  {}

  predicate Alike(a: Annotation, b: Annotation) {
    a.line == b.line && a.Block? == b.Block? && (a.Block? ==> SameRange(a, b))
  }

  // b says at least what a says, of the same lines.
  predicate Represents(b: Annotation, a: Annotation) {
    && (forall t :: t in a.types ==> t in b.types)
    && if a.Block? then SameRange(a, b) else a.line == b.line && b.Inline?
  }

  predicate LikeOne(x: Annotation, anns: seq<Annotation>) { exists i :: 0 <= i < |anns| && Alike(x, anns[i]) }

  predicate SaidByOne(merged: seq<Annotation>, a: Annotation) {
    exists j :: 0 <= j < |merged| && Represents(merged[j], a)
  }

  predicate NewRange(a: Annotation, b: Annotation) { Apart(a, b) && !SameRange(a, b) }

  // Every merged annotation is like one of those merged,
  lemma {:induction false} MergedAreLike(anns: seq<Annotation>, k: nat, x: Annotation)
    requires k <= |anns| && x in MergeAll(anns, k)
    ensures LikeOne(x, anns[..k])
  {
    hide MergeTypes;
    var merged := MergeAll(anns, k - 1);
    var next := MergeAll(anns, k);
    var j :| 0 <= j < |next| && next[j] == x;
    if j < |merged| {
      MergedAreLike(anns, k - 1, merged[j]);
      var i :| 0 <= i < k - 1 && Alike(merged[j], anns[..k - 1][i]);
      assert Alike(x, anns[..k][i]);
    } else {
      assert Alike(x, anns[..k][k - 1]);
    }
  }

  // no two have the same range, and they come from the bottom up,
  lemma {:induction false} MergedAreApart(anns: seq<Annotation>, n: nat, k: nat)
    requires Planned(anns, n) && k <= |anns|
    ensures forall j, j' :: 0 <= j < j' < |MergeAll(anns, k)| ==> NewRange(MergeAll(anns, k)[j], MergeAll(anns, k)[j'])
  {
    hide MergeTypes;
    if k > 0 {
      MergedAreApart(anns, n, k - 1);
      var merged, next := MergeAll(anns, k - 1), MergeAll(anns, k);
      forall j, j' | 0 <= j < j' < |next| ensures NewRange(next[j], next[j']) {
        if j' < |merged| {
          assert NewRange(merged[j], merged[j']);
        } else {
          MergedAreLike(anns, k - 1, merged[j]);
          var i :| 0 <= i < k - 1 && Alike(merged[j], anns[..k - 1][i]);
          assert Apart(anns[i], anns[k - 1]);
        }
      }
    }
  }

  // and each of those merged is said by one of them.
  lemma {:induction false} MergedSayAll(anns: seq<Annotation>, k: nat, i: nat)
    requires i < k <= |anns|
    ensures SaidByOne(MergeAll(anns, k), anns[i])
  {
    hide MergeTypes;
    var merged, next, at := MergeAll(anns, k - 1), MergeAll(anns, k), FindRange(MergeAll(anns, k - 1), anns[k - 1]);
    if at < |merged| { MergedTypes(merged[at].types, anns[k - 1].types); }
    if i < k - 1 {
      MergedSayAll(anns, k - 1, i);
      var j :| 0 <= j < |merged| && Represents(merged[j], anns[i]);
      assert Represents(next[j], anns[i]);
    } else {
      assert Represents(next[at], anns[i]);
    }
  }

  // Merging a plan gives annotations in insertion order that say all that was planned.
  lemma {:induction false} MergeIsDescending(anns: seq<Annotation>, n: nat)
    requires Planned(anns, n)
    ensures var merged := Sort(MergeAll(anns, |anns|), LaterLine);
      && merged == MergeAll(anns, |anns|) && Descending(merged, n)
      && forall i :: 0 <= i < |anns| ==> SaidByOne(merged, anns[i])
  {
    hide MergeAll, Sort;
    var merged := MergeAll(anns, |anns|);
    MergedAreApart(anns, n, |anns|);
    assert Sorted(merged, LaterLine) by {
      forall j, j' | 0 <= j < j' < |merged| ensures LaterLine(merged[j], merged[j']) { assert NewRange(merged[j], merged[j']); }
    }
    SortedStays(merged, LaterLine);
    forall j | 0 <= j < |merged| ensures Fits(merged[j], n) {
      MergedAreLike(anns, |anns|, merged[j]);
      var i :| 0 <= i < |anns| && Alike(merged[j], anns[..|anns|][i]);
      assert Fits(anns[i], n);
    }
    forall j, j' | 0 <= j < j' < |merged| ensures Below(merged[j], merged[j']) { assert NewRange(merged[j], merged[j']); }
    forall i | 0 <= i < |anns| ensures SaidByOne(merged, anns[i]) { MergedSayAll(anns, |anns|, i); }
  }
}
