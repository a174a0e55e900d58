/** Block annotations: pairing begin and end markers with a stack, and what the pairing amounts to. */
module Blocks {
  import opened Sorting

  datatype Mark = Begin | End | Plain

  datatype Pair = Pair(begin: nat, end: nat)

  function Delta(mark: Mark): int {
    match mark
    case Begin => 1
    case End => -1
    case Plain => 0
  }

  // Begins minus ends among the marks from i up to but not including k.
  function Depth(marks: seq<Mark>, i: nat, k: nat): int
    requires k <= |marks|
    decreases k
  {
    if k <= i then 0 else Depth(marks, i, k - 1) + Delta(marks[k - 1])
  }

  // Up to k, the ends after the begin at i have not yet outnumbered the begins after it.
  ghost predicate OpenUntil(marks: seq<Mark>, i: nat, k: nat)
    requires k <= |marks|
  {
    i < k && marks[i].Begin? && forall m :: i < m <= k ==> Depth(marks, i, m) > 0
  }

  // j is the first mark at which the ends after i outnumber the begins after i.
  ghost predicate Closes(marks: seq<Mark>, i: nat, j: nat) {
    j < |marks| && OpenUntil(marks, i, j) && Depth(marks, i, j + 1) == 0
  }

  ghost predicate InBlock(marks: seq<Mark>, line: nat) {
    exists i: nat, j: nat :: i <= line <= j && Closes(marks, i, j)
  }

  lemma {:induction false} DepthSplits(marks: seq<Mark>, i: nat, m: nat, k: nat)
    requires i <= m <= k <= |marks|
    ensures Depth(marks, i, k) == Depth(marks, i, m) + Depth(marks, m, k)
    decreases k
  {
    if m < k { DepthSplits(marks, i, m, k - 1); }
  }

  // Nothing stays open past its end.
  lemma {:induction false} ClosedByThen(marks: seq<Mark>, i: nat, j: nat, k: nat)
    requires Closes(marks, i, j) && k <= |marks| && OpenUntil(marks, i, k)
    ensures k <= j
  {}

  // Two pairs are nested or apart.
  lemma {:induction false} PairsAreLaminar(marks: seq<Mark>, i: nat, j: nat, i': nat, j': nat)
    requires Closes(marks, i, j) && Closes(marks, i', j') && i < i'
    ensures j < i' || j' < j
  {
    if i' <= j {
      DepthSplits(marks, i, i', j + 1);
      var outer := Depth(marks, i, i');
      var inner := Depth(marks, i', j + 1);
      assert inner < 0;
      assert Depth(marks, i', i' + 1) == Depth(marks, i', i') + 1;
    }
  }

  // A begin has one partner at most, and so has an end.
  lemma {:induction false} PairsAreUnique(marks: seq<Mark>, i: nat, j: nat, i': nat, j': nat)
    requires Closes(marks, i, j) && Closes(marks, i', j') && (i == i' || j == j')
    ensures i == i' && j == j'
  {
    if i == i' {
      ClosedByThen(marks, i, j, j');
      ClosedByThen(marks, i, j', j);
    } else if i < i' {
      PairsAreLaminar(marks, i, j, i', j');
    } else {
      PairsAreLaminar(marks, i', j', i, j);
    }
  }

  /* ---- the stack ---- */

  // The stack of begins still open after k marks, and the pairs found so far.
  datatype Stack = Stack(open: seq<nat>, pairs: seq<Pair>)

  function Step(s: Stack, i: nat, mark: Mark): Stack {
    match mark
    case Begin => Stack(s.open + [i], s.pairs)
    case End =>
      if s.open == [] then s
      else Stack(s.open[..|s.open| - 1], s.pairs + [Pair(s.open[|s.open| - 1], i)])
    case Plain => s
  }

  function After(marks: seq<Mark>, k: nat): Stack
    requires k <= |marks|
  {
    if k == 0 then Stack([], []) else Step(After(marks, k - 1), k - 1, marks[k - 1])
  }

  function Begins(marks: seq<Mark>, k: nat): nat
    requires k <= |marks|
  {
    if k == 0 then 0 else Begins(marks, k - 1) + (if marks[k - 1].Begin? then 1 else 0)
  }

  // What the stack holds after k marks: exactly the begins open until k, each at the height of its depth.
  ghost predicate StackFits(marks: seq<Mark>, k: nat, open: seq<nat>)
    requires k <= |marks|
  {
    && (forall s :: 0 <= s < |open| ==> OpenUntil(marks, open[s], k) && Depth(marks, open[s], k) == |open| - s)
    && (forall i: nat :: OpenUntil(marks, i, k) ==> i in open)
  }

  ghost predicate PairsFit(marks: seq<Mark>, k: nat, pairs: seq<Pair>)
    requires k <= |marks|
  {
    forall i: nat, j: nat :: Pair(i, j) in pairs <==> j < k && Closes(marks, i, j)
  }

  lemma {:induction false} OpenSteps(marks: seq<Mark>, i: nat, k: nat)
    requires k < |marks|
    ensures i < k ==> (OpenUntil(marks, i, k + 1) <==> OpenUntil(marks, i, k) && Depth(marks, i, k + 1) > 0)
    ensures OpenUntil(marks, k, k + 1) <==> marks[k].Begin?
    ensures i > k ==> !OpenUntil(marks, i, k + 1)
  {
    if i < k && OpenUntil(marks, i, k + 1) {
      assert Depth(marks, i, k + 1) > 0;
    }
    assert Depth(marks, k, k + 1) == Depth(marks, k, k) + Delta(marks[k]);
  }

  lemma {:induction false} StackStepFits(marks: seq<Mark>, k: nat, s: Stack)
    requires k < |marks| && StackFits(marks, k, s.open)
    ensures StackFits(marks, k + 1, Step(s, k, marks[k]).open)
  {
    var open := Step(s, k, marks[k]).open;
    forall i: nat | i < k ensures Depth(marks, i, k + 1) == Depth(marks, i, k) + Delta(marks[k]) {}
    forall t | 0 <= t < |open| ensures OpenUntil(marks, open[t], k + 1) && Depth(marks, open[t], k + 1) == |open| - t {
      OpenSteps(marks, open[t], k);
      if t < |s.open| { assert open[t] == s.open[t] && OpenUntil(marks, s.open[t], k); }
    }
    forall i: nat | OpenUntil(marks, i, k + 1) ensures i in open {
      OpenSteps(marks, i, k);
      if i < k {
        assert i in s.open;
        var t :| 0 <= t < |s.open| && s.open[t] == i;
        assert t < |open| ==> open[t] == i;
      } else {
        assert open[|open| - 1] == k;
      }
    }
  }

  lemma {:induction false} PairStepFits(marks: seq<Mark>, k: nat, s: Stack)
    requires k < |marks| && StackFits(marks, k, s.open) && PairsFit(marks, k, s.pairs)
    ensures PairsFit(marks, k + 1, Step(s, k, marks[k]).pairs)
  {}

  // The stack pairs i with j exactly when j closes i.
  lemma {:induction false} StackIsExact(marks: seq<Mark>, k: nat)
    requires k <= |marks|
    ensures StackFits(marks, k, After(marks, k).open) && PairsFit(marks, k, After(marks, k).pairs)
    ensures |After(marks, k).open| + |After(marks, k).pairs| == Begins(marks, k)
  {
    hide StackFits, PairsFit;
    if k == 0 {
      NothingFits(marks);
    } else {
      StackIsExact(marks, k - 1);
      StackStepFits(marks, k - 1, After(marks, k - 1));
      PairStepFits(marks, k - 1, After(marks, k - 1));
    }
  }

  lemma {:induction false} NothingFits(marks: seq<Mark>)
    ensures StackFits(marks, 0, []) && PairsFit(marks, 0, [])
  {}

  /* ---- the same from two lists of positions, sorted together ---- */

  datatype Event = Event(idx: nat, mark: Mark)

  predicate Earlier(a: Event, b: Event) { a.idx <= b.idx }

  function EventsOf(marks: seq<Mark>, k: nat): seq<Event>
    requires k <= |marks|
  {
    if k == 0 then []
    else EventsOf(marks, k - 1) + (if marks[k - 1].Plain? then [] else [Event(k - 1, marks[k - 1])])
  }

  function EventsLike(marks: seq<Mark>, k: nat, mark: Mark): seq<Event>
    requires k <= |marks|
  {
    if k == 0 then []
    else EventsLike(marks, k - 1, mark) + (if marks[k - 1] == mark then [Event(k - 1, mark)] else [])
  }

  function Run(events: seq<Event>, k: nat): Stack
    requires k <= |events|
  {
    if k == 0 then Stack([], []) else Step(Run(events, k - 1), events[k - 1].idx, events[k - 1].mark)
  }

  lemma {:induction false} EventsInOrder(marks: seq<Mark>, k: nat)
    requires k <= |marks|
    ensures Sorted(EventsOf(marks, k), Earlier)
    ensures forall e :: e in EventsOf(marks, k) ==> e.idx < k && e.mark == marks[e.idx] && !e.mark.Plain?
  {
    if k > 0 {
      EventsInOrder(marks, k - 1);
      var before := EventsOf(marks, k - 1);
      var all := EventsOf(marks, k);
      assert forall i :: 0 <= i < |before| ==> before[i] in before && all[i] == before[i];
    }
  }

  function OneEvent(marks: seq<Mark>, i: nat, counts: bool): multiset<Event>
    requires i < |marks|
  {
    if counts then multiset{Event(i, marks[i])} else multiset{}
  }

  lemma {:induction false} EventSteps(marks: seq<Mark>, k: nat)
    requires 0 < k <= |marks|
    ensures multiset(EventsOf(marks, k)) == multiset(EventsOf(marks, k - 1)) + OneEvent(marks, k - 1, !marks[k - 1].Plain?)
    ensures forall m: Mark ::
      multiset(EventsLike(marks, k, m)) == multiset(EventsLike(marks, k - 1, m)) + OneEvent(marks, k - 1, marks[k - 1] == m)
  {}

  lemma {:induction false} NoEvents(marks: seq<Mark>)
    ensures EventsOf(marks, 0) == [] && EventsLike(marks, 0, Begin) == [] && EventsLike(marks, 0, End) == []
  {}

  lemma {:induction false} SameEvents(marks: seq<Mark>, k: nat)
    requires k <= |marks|
    ensures multiset(EventsLike(marks, k, Begin)) + multiset(EventsLike(marks, k, End)) == multiset(EventsOf(marks, k))
  {
    hide EventsOf, EventsLike;
    if k == 0 {
      NoEvents(marks);
    } else {
      SameEvents(marks, k - 1);
      EventSteps(marks, k);
    }
  }

  // Sorting the begins and the ends together puts them in line order.
  lemma {:induction false} SortedEvents(marks: seq<Mark>)
    ensures Sort(EventsLike(marks, |marks|, Begin) + EventsLike(marks, |marks|, End), Earlier) == EventsOf(marks, |marks|)
  {
    hide EventsOf, EventsLike, Sort;
    var both := EventsLike(marks, |marks|, Begin) + EventsLike(marks, |marks|, End);
    EventsInOrder(marks, |marks|);
    SameEvents(marks, |marks|);
    SortSorts(both, Earlier);
    SortElements(both, Earlier);
    SameElements(Sort(both, Earlier), EventsOf(marks, |marks|));
    SortedIsUnique(Sort(both, Earlier), EventsOf(marks, |marks|), Earlier);
  }

  lemma {:induction false} RunPrefix(a: seq<Event>, b: seq<Event>, k: nat)
    requires k <= |a|
    ensures Run(a + b, k) == Run(a, k)
  {
    if k > 0 { RunPrefix(a, b, k - 1); }
  }

  // Running the events is running the marks.
  lemma {:induction false} RunIsAfter(marks: seq<Mark>, k: nat)
    requires k <= |marks|
    ensures Run(EventsOf(marks, k), |EventsOf(marks, k)|) == After(marks, k)
  {
    if k > 0 {
      RunIsAfter(marks, k - 1);
      var before := EventsOf(marks, k - 1);
      if !marks[k - 1].Plain? {
        RunPrefix(before, [Event(k - 1, marks[k - 1])], |before|);
      } else {
        assert EventsOf(marks, k) == before;
      }
    }
  }
}
