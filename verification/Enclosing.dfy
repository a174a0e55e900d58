/** A block annotation can take older effects away too: what enclosing a range of lines exposes behind it. */
module Enclosing {
  import opened TextLines
  import opened Blocks
  import opened Annotations
  import opened Annotator
  import opened Insertion
  import opened RoundTrip
  import opened Exposure
  import Lexical

  function Enclose<T>(xs: seq<T>, b: nat, t: nat, open: T, close: T): seq<T>
    requires b < t <= |xs|
  {
    xs[..b] + [open] + xs[b..t] + [close] + xs[t..]
  }

  // Where index l of the range b to t is then.
  function Pushed(b: nat, t: nat, l: nat): nat { l + (if l >= b then 1 else 0) + if l >= t then 1 else 0 }

  lemma {:induction false} ItemAt<T>(xs: seq<T>, b: nat, t: nat, open: T, close: T, k: nat)
    requires b < t <= |xs| && k < |xs| + 2
    ensures |Enclose(xs, b, t, open, close)| == |xs| + 2
    ensures Enclose(xs, b, t, open, close)[k] ==
            if k < b then xs[k] else if k == b then open else if k <= t then xs[k - 1] else if k == t + 1 then close else xs[k - 2]
  {}

  /* ---- blocks ---- */

  // Marks with a block around a range that has none.
  predicate Encloses(marks: seq<Mark>, b: nat, t: nat, all: seq<Mark>) {
    && b < t <= |marks| && all == Enclose(marks, b, t, Begin, End)
    && forall k :: b <= k < t ==> marks[k].Plain?
  }

  // The boundary between two marks without the block's own.
  function Back(b: nat, t: nat, k: nat): nat
    requires b < t
  {
    if k <= b then k else if k <= t + 1 then k - 1 else k - 2
  }

  lemma {:induction false} MarkAt(marks: seq<Mark>, b: nat, t: nat, all: seq<Mark>, k: nat)
    requires Encloses(marks, b, t, all) && k < |all|
    ensures all[k] == if k < b then marks[k] else if k == b then Begin else if k <= t then Plain
                      else if k == t + 1 then End else marks[k - 2]
    ensures b < k <= t ==> marks[k - 1].Plain?
  {
    hide Enclose;
    EnclosesSize(marks, b, t, all);
    ItemAt(marks, b, t, Begin, End, k);
  }

  lemma {:induction false} EnclosesSize(marks: seq<Mark>, b: nat, t: nat, all: seq<Mark>)
    requires Encloses(marks, b, t, all)
    ensures b < t <= |marks| && |all| == |marks| + 2
  {
    ItemAt(marks, b, t, Begin, End, 0);
  }

  lemma {:induction false} DepthStep(marks: seq<Mark>, i: nat, k: nat)
    requires k <= |marks|
    ensures Depth(marks, i, k) == if k <= i then 0 else Depth(marks, i, k - 1) + Delta(marks[k - 1])
  {}

  lemma {:induction false} DepthAround(marks: seq<Mark>, b: nat, t: nat, all: seq<Mark>, i: nat, k: nat)
    requires Encloses(marks, b, t, all) && i <= b && k <= |all|
    ensures Back(b, t, k) <= |marks|
    ensures Depth(all, i, k) == Depth(marks, i, Back(b, t, k)) + if b < k <= t + 1 then 1 else 0
    decreases k
  {
    hide Encloses, Depth;
    EnclosesSize(marks, b, t, all);
    DepthStep(all, i, k);
    DepthStep(marks, i, Back(b, t, k));
    if k > i {
      MarkAt(marks, b, t, all, k - 1);
      DepthAround(marks, b, t, all, i, k - 1);
    }
  }

  lemma {:induction false} DepthBehind(marks: seq<Mark>, b: nat, t: nat, all: seq<Mark>, i: nat, k: nat)
    requires Encloses(marks, b, t, all) && t <= i && k <= |marks|
    ensures k + 2 <= |all| && Depth(all, i + 2, k + 2) == Depth(marks, i, k)
    decreases k
  {
    hide Encloses, Depth;
    EnclosesSize(marks, b, t, all);
    DepthStep(all, i + 2, k + 2);
    DepthStep(marks, i, k);
    if k > i {
      MarkAt(marks, b, t, all, k + 1);
      DepthBehind(marks, b, t, all, i, k - 1);
    }
  }

  // From a mark outside the range.
  lemma {:induction false} DepthFrom(marks: seq<Mark>, b: nat, t: nat, all: seq<Mark>, i: nat, k: nat)
    requires Encloses(marks, b, t, all) && (i < b || i >= t) && Pushed(b, t, i) <= k <= |all|
    ensures Back(b, t, k) <= |marks|
    ensures Depth(all, Pushed(b, t, i), k) == Depth(marks, i, Back(b, t, k)) + if i < b < k <= t + 1 then 1 else 0
  {
    hide Encloses, Depth;
    EnclosesSize(marks, b, t, all);
    if i < b { DepthAround(marks, b, t, all, i, k); } else { DepthBehind(marks, b, t, all, i, k - 2); }
  }

  lemma {:induction false} PlainDepth(marks: seq<Mark>, b: nat, i: nat, k: nat)
    requires i <= b <= k <= |marks| && forall m :: b <= m < k ==> marks[m].Plain?
    ensures Depth(marks, i, k) == Depth(marks, i, b)
    decreases k
  {
    if k > b { PlainDepth(marks, b, i, k - 1); }
  }

  lemma {:induction false} ClosesAtEnd(marks: seq<Mark>, i: nat, j: nat)
    requires Closes(marks, i, j)
    ensures i < j < |marks| && marks[i].Begin? && marks[j].End?
  {
    DepthStep(marks, i, j + 1);
    assert Depth(marks, i, j) > 0;
  }

  // Every pair is still one.
  lemma {:induction false} PairStays(marks: seq<Mark>, b: nat, t: nat, all: seq<Mark>, i: nat, j: nat)
    requires Encloses(marks, b, t, all) && Closes(marks, i, j)
    ensures Closes(all, Pushed(b, t, i), Pushed(b, t, j))
  {
    hide Encloses, Depth;
    EnclosesSize(marks, b, t, all);
    ClosesAtEnd(marks, i, j);
    var i', j' := Pushed(b, t, i), Pushed(b, t, j);
    NotInRange(marks, b, t, all, i);
    NotInRange(marks, b, t, all, j);
    MarkAt(marks, b, t, all, i');
    forall m | i' < m <= j' ensures Depth(all, i', m) > 0 {
      DepthFrom(marks, b, t, all, i, m);
      assert i < Back(b, t, m) <= j;
    }
    DepthFrom(marks, b, t, all, i, j' + 1);
  }

  lemma {:induction false} NotInRange(marks: seq<Mark>, b: nat, t: nat, all: seq<Mark>, k: nat)
    requires Encloses(marks, b, t, all) && k < |marks| && !marks[k].Plain?
    ensures k < b || k >= t
  {}

  // Outside the range.
  predicate Outside(b: nat, t: nat, k: nat) { k < b || k >= t + 2 }

  lemma {:induction false} OwnPair(marks: seq<Mark>, b: nat, t: nat, all: seq<Mark>)
    requires Encloses(marks, b, t, all)
    ensures Closes(all, b, t + 1)
  {
    hide Encloses, Closes, Depth;
    EnclosesSize(marks, b, t, all);
    MarkAt(marks, b, t, all, b);
    MarkAt(marks, b, t, all, t + 1);
    forall l | b < l < t + 1 ensures all[l].Plain? { MarkAt(marks, b, t, all, l); }
    RangeIsBlock(all, b, t + 1);
  }

  // Every other pair was one.
  lemma {:induction false} PairWas(marks: seq<Mark>, b: nat, t: nat, all: seq<Mark>, i': nat, j': nat)
    requires Encloses(marks, b, t, all) && Closes(all, i', j')
    ensures b < t
    ensures (i' == b && j' == t + 1)
      || (Outside(b, t, i') && Outside(b, t, j') && Closes(marks, Back(b, t, i'), Back(b, t, j')))
  {
    hide Encloses, Depth, Closes, Back;
    EnclosesSize(marks, b, t, all);
    ClosesAtEnd(all, i', j');
    OwnPair(marks, b, t, all);
    PairsAreApart(all, i', j', b, t + 1);
    MarkAt(marks, b, t, all, i');
    MarkAt(marks, b, t, all, j');
    if i' != b { OuterPairWas(marks, b, t, all, i', j'); }
  }

  lemma {:induction false} OuterPairWas(marks: seq<Mark>, b: nat, t: nat, all: seq<Mark>, i': nat, j': nat)
    requires Encloses(marks, b, t, all) && b < t && Closes(all, i', j')
    requires Outside(b, t, i') && Outside(b, t, j')
    ensures Closes(marks, Back(b, t, i'), Back(b, t, j'))
  {
    hide Encloses, Depth;
    EnclosesSize(marks, b, t, all);
    ClosesAtEnd(all, i', j');
    MarkAt(marks, b, t, all, i');
    var i, j := Back(b, t, i'), Back(b, t, j');
    forall m | i < m <= j ensures Depth(marks, i, m) > 0 {
      var m' := if m <= b then m else if m <= t then b else m + 2;
      if b < m <= t { PlainUpTo(marks, b, t, all, i, m); }
      assert i' < m' <= j';
      DepthFrom(marks, b, t, all, i, m');
    }
    DepthFrom(marks, b, t, all, i, j' + 1);
  }

  lemma {:induction false} PlainUpTo(marks: seq<Mark>, b: nat, t: nat, all: seq<Mark>, i: nat, m: nat)
    requires Encloses(marks, b, t, all) && i <= b <= m <= t
    ensures Depth(marks, i, m) == Depth(marks, i, b)
  {
    PlainDepth(marks, b, i, m);
  }

  lemma {:induction false} PairsAreApart(marks: seq<Mark>, i: nat, j: nat, i': nat, j': nat)
    requires Closes(marks, i, j) && Closes(marks, i', j')
    ensures i == i' <==> j == j'
  {
    if i == i' || j == j' { PairsAreUnique(marks, i, j, i', j'); }
  }

  // What is in a block then: what was, and the range.
  lemma {:induction false} BlocksStay(marks: seq<Mark>, b: nat, t: nat, all: seq<Mark>, l: nat)
    requires Encloses(marks, b, t, all)
    ensures InBlock(all, Pushed(b, t, l)) <==> InBlock(marks, l) || b <= l < t
    ensures InBlock(all, t + 1)
  {
    hide Encloses, Closes;
    EnclosesSize(marks, b, t, all);
    OwnPair(marks, b, t, all);
    if InBlock(marks, l) {
      var i: nat, j: nat :| i <= l <= j && Closes(marks, i, j);
      PairStays(marks, b, t, all, i, j);
    }
    if InBlock(all, Pushed(b, t, l)) {
      var i: nat, j: nat :| i <= Pushed(b, t, l) <= j && Closes(all, i, j);
      PairWas(marks, b, t, all, i, j);
    }
  }

  /* ---- what is active and suppressed ---- */

  // Lines with a block put around a range that has no block markers.
  predicate Surrounds(lines: seq<string>, a: Aliases, b: nat, t: nat, open: string, close: string, all: seq<string>) {
    && b < t <= |lines| && all == Enclose(lines, b, t, open, close)
    && MarkOf(open, a).Begin? && MarkOf(close, a).End? && forall k :: b <= k < t ==> MarkOf(lines[k], a).Plain?
  }

  lemma {:induction false} MarksEnclosed(lines: seq<string>, a: Aliases, b: nat, t: nat, open: string, close: string, all: seq<string>)
    requires Surrounds(lines, a, b, t, open, close, all)
    ensures Encloses(Marks(lines, a), b, t, Marks(all, a))
  {
    hide MarkOf, Enclose;
    var marks := Enclose(Marks(lines, a), b, t, Begin, End);
    ItemAt(lines, b, t, open, close, 0);
    ItemAt(Marks(lines, a), b, t, Begin, End, 0);
    forall k | 0 <= k < |lines| + 2 ensures Marks(all, a)[k] == marks[k] {
      ItemAt(lines, b, t, open, close, k);
      ItemAt(Marks(lines, a), b, t, Begin, End, k);
    }
    assert Marks(all, a) == marks;
  }

  lemma {:induction false} SurroundsIs(lines: seq<string>, a: Aliases, b: nat, t: nat, open: string, close: string, all: seq<string>, l: nat)
    requires Surrounds(lines, a, b, t, open, close, all) && l < |lines|
    ensures b < t <= |lines| && |all| == |lines| + 2 && all[Pushed(b, t, l)] == lines[l]
    ensures InBlock(Marks(all, a), Pushed(b, t, l)) <==> InBlock(Marks(lines, a), l) || b <= l < t
    ensures InBlock(Marks(all, a), t + 1)
  {
    hide MarkOf, InBlock, Enclose, Marks, Encloses;
    ItemAt(lines, b, t, open, close, Pushed(b, t, l));
    MarksEnclosed(lines, a, b, t, open, close, all);
    BlocksStay(Marks(lines, a), b, t, Marks(all, a), l);
  }

  lemma {:induction false} AloneThen(lines: seq<string>, a: Aliases, b: nat, t: nat, open: string, close: string, all: seq<string>, l: nat)
    requires Surrounds(lines, a, b, t, open, close, all) && l < |lines|
    ensures Alone(all, a, Pushed(b, t, l)) <==> Alone(lines, a, l) && !(b <= l < t)
    ensures !Alone(all, a, t + 1) && |all| == |lines| + 2
  {
    hide IsInlineAllow, InBlock, Marks, Surrounds;
    SurroundsIs(lines, a, b, t, open, close, all, l);
  }

  lemma {:induction false} ActiveInFront(lines: seq<string>, a: Aliases, b: nat, t: nat, open: string, close: string, all: seq<string>, l: nat)
    requires Surrounds(lines, a, b, t, open, close, all) && l < b && l < |lines|
    ensures |all| == |lines| + 2 && (Active(all, a, l) <==> Active(lines, a, l))
  {
    hide Alone, Active, Surrounds;
    SurroundsSize(lines, a, b, t, open, close, all);
    AloneThen(lines, a, b, t, open, close, all, l);
    ActiveIsAlone(lines, a, l);
    ActiveIsAlone(all, a, l);
    if l > 0 { ActiveInFront(lines, a, b, t, open, close, all, l - 1); }
  }

  lemma {:induction false} SameRunBehind(lines: seq<string>, a: Aliases, b: nat, t: nat, open: string, close: string, all: seq<string>, k: nat)
    requires Surrounds(lines, a, b, t, open, close, all) && t <= k
    ensures RunOf(all, a, k + 2) == RunOf(lines, a, k)
    decreases |lines| - k
  {
    hide Alone, Surrounds;
    SurroundsSize(lines, a, b, t, open, close, all);
    if k < |lines| {
      AloneThen(lines, a, b, t, open, close, all, k);
      SameRunBehind(lines, a, b, t, open, close, all, k + 1);
    }
  }

  lemma {:induction false} SurroundsSize(lines: seq<string>, a: Aliases, b: nat, t: nat, open: string, close: string, all: seq<string>)
    requires Surrounds(lines, a, b, t, open, close, all)
    ensures b < t <= |lines| && |all| == |lines| + 2
  {}

  // Behind a line that is not alone nothing is different; behind the block nothing is when the range's last line was
  // not active.
  lemma {:induction false} ActiveBehind(lines: seq<string>, a: Aliases, b: nat, t: nat, open: string, close: string, all: seq<string>, stop: nat, k: nat)
    requires Surrounds(lines, a, b, t, open, close, all) && 0 < t <= stop <= k < |lines|
    requires !Alone(lines, a, stop) || (stop == t && !Active(lines, a, t - 1))
    ensures |all| == |lines| + 2 && (Active(all, a, k + 2) <==> Active(lines, a, k))
    decreases k
  {
    hide Alone, Active, Surrounds;
    SurroundsSize(lines, a, b, t, open, close, all);
    AloneThen(lines, a, b, t, open, close, all, k);
    ActiveIsAlone(lines, a, k);
    ActiveIsAlone(all, a, k + 2);
    if k > stop { ActiveBehind(lines, a, b, t, open, close, all, stop, k - 1); }
    if k == t { ActiveIsAlone(all, a, t + 1); }
  }

  // Behind a range whose last line was active the run of markers turns over.
  lemma {:induction false} RunBehind(lines: seq<string>, a: Aliases, b: nat, t: nat, open: string, close: string, all: seq<string>, k: nat)
    requires Surrounds(lines, a, b, t, open, close, all) && t > 0 && t - 1 < |lines| && Active(lines, a, t - 1)
    requires t <= k + 1 && k < t + RunOf(lines, a, t) && k < |lines|
    ensures |all| == |lines| + 2
    ensures Active(lines, a, k) <==> (k + 1 - t) % 2 == 0
    ensures Active(all, a, k + 2) <==> (k + 1 - t) % 2 == 1
  {
    hide Alone, Active, Surrounds, RunOf;
    SurroundsSize(lines, a, b, t, open, close, all);
    AloneThen(lines, a, b, t, open, close, all, t - 1);
    ActiveIsAlone(all, a, t + 1);
    SameRunBehind(lines, a, b, t, open, close, all, t);
    EveryOther(lines, a, t - 1, k + 1 - t);
    EveryOther(all, a, t + 1, k + 1 - t);
  }

  // What is suppressed for all scanners then.
  lemma {:induction false} SuppressedThen(lines: seq<string>, a: Aliases, b: nat, t: nat, open: string, close: string, all: seq<string>, l: nat)
    requires Surrounds(lines, a, b, t, open, close, all) && l < |lines|
    ensures b < t <= |lines| && |all| == |lines| + 2 && all[Pushed(b, t, l)] == lines[l] && Suppressed(all, a, t + 1)
    ensures b <= l < t ==> Suppressed(all, a, Pushed(b, t, l))
    ensures !(b <= l < t) && !(Active(lines, a, t - 1) && l == t + RunOf(lines, a, t)) ==>
      (Suppressed(all, a, Pushed(b, t, l)) <==> Suppressed(lines, a, l))
    ensures Active(lines, a, t - 1) && l == t + RunOf(lines, a, t) ==>
      && (Suppressed(lines, a, l) <==> InBlock(Marks(lines, a), l) || RunOf(lines, a, t) % 2 == 0)
      && (Suppressed(all, a, Pushed(b, t, l)) <==> InBlock(Marks(lines, a), l) || RunOf(lines, a, t) % 2 == 1)
    ensures Active(lines, a, t - 1) && t <= l < t + RunOf(lines, a, t) ==> Suppressed(all, a, Pushed(b, t, l))
  {
    hide IsInlineAllow, InBlock, Marks, RunOf, Suppressed, Active, Surrounds;
    SurroundsIs(lines, a, b, t, open, close, all, l);
    SuppressedIs(lines, a, l);
    SuppressedIs(all, a, Pushed(b, t, l));
    SuppressedIs(all, a, t + 1);
    if l < b {
      ActiveInFront(lines, a, b, t, open, close, all, l);
      if l > 0 { ActiveInFront(lines, a, b, t, open, close, all, l - 1); }
    } else if l >= t {
      BehindThen(lines, a, b, t, open, close, all, l);
    }
  }

  // The same behind the block, in terms of what is active.
  lemma {:induction false} BehindThen(lines: seq<string>, a: Aliases, b: nat, t: nat, open: string, close: string, all: seq<string>, l: nat)
    requires Surrounds(lines, a, b, t, open, close, all) && 0 < t <= l < |lines|
    ensures |all| == |lines| + 2
    ensures var stop := t + RunOf(lines, a, t);
      var was, now := Active(lines, a, l) || Active(lines, a, l - 1), Active(all, a, l + 2) || Active(all, a, l + 1);
      if !Active(lines, a, t - 1) || l > stop then was <==> now
      else if l == stop then (was <==> RunOf(lines, a, t) % 2 == 0) && (now <==> RunOf(lines, a, t) % 2 == 1)
      else was && now
  {
    hide InBlock, Marks, RunOf, Suppressed, Active, Surrounds, Alone;
    SurroundsSize(lines, a, b, t, open, close, all);
    var r := RunOf(lines, a, t);
    var stop := t + r;
    if !Active(lines, a, t - 1) {
      ActiveBehind(lines, a, b, t, open, close, all, t, l);
      if l > t { ActiveBehind(lines, a, b, t, open, close, all, t, l - 1); } else { EndIsQuiet(lines, a, b, t, open, close, all); }
    } else if l > stop {
      ActiveBehind(lines, a, b, t, open, close, all, stop, l);
      ActiveBehind(lines, a, b, t, open, close, all, stop, l - 1);
    } else if l == stop {
      ActiveBehind(lines, a, b, t, open, close, all, stop, l);
      NotActive(lines, a, l);
      RunBehind(lines, a, b, t, open, close, all, l - 1);
    } else {
      RunBehind(lines, a, b, t, open, close, all, l);
      RunBehind(lines, a, b, t, open, close, all, l - 1);
    }
  }

  lemma {:induction false} EndIsQuiet(lines: seq<string>, a: Aliases, b: nat, t: nat, open: string, close: string, all: seq<string>)
    requires Surrounds(lines, a, b, t, open, close, all)
    ensures t + 1 < |all| && !Active(all, a, t + 1)
  {
    hide Surrounds, Active, Alone;
    SurroundsSize(lines, a, b, t, open, close, all);
    AloneThen(lines, a, b, t, open, close, all, t - 1);
    ActiveIsAlone(all, a, t + 1);
  }

  // A block annotation exposes at most one line to the scanners that look at all lines: when the last line of the range
  // had an active marker, the one behind the run of older markers that follows, if that run is even and no block covers
  // the line.
  lemma {:induction false} EnclosingExposes(lines: seq<string>, a: Aliases, b: nat, t: nat, open: string, close: string, all: seq<string>, l: nat)
    requires Surrounds(lines, a, b, t, open, close, all) && l < |lines|
    ensures b < t <= |lines| && |all| == |lines| + 2 && all[Pushed(b, t, l)] == lines[l]
    ensures Suppressed(lines, a, l) && !Suppressed(all, a, Pushed(b, t, l)) <==>
      Active(lines, a, t - 1) && l == t + RunOf(lines, a, t) && RunOf(lines, a, t) % 2 == 0 && !InBlock(Marks(lines, a), l)
  {
    hide InBlock, Marks, RunOf, Suppressed, Active, Surrounds;
    SuppressedThen(lines, a, b, t, open, close, all, l);
  }

  // What it does, to the secret scanner, to a line that an older marker hid: that line; the line behind the range that a
  // secrets-only marker on its last line hid; and the line a secrets-only marker behind the run hid.
  ghost predicate EnclosingExposesSecret(lines: seq<string>, a: Aliases, t: nat, l: nat)
    requires 0 < t <= |lines| && l < |lines|
  {
    var r, active := RunOf(lines, a, t), Active(lines, a, t - 1);
    var stop := t + r;
    && !IsSecretOnly(lines[l], a)
    && (|| (active && r % 2 == 0 && l == stop && !InBlock(Marks(lines, a), l))
        || (l == t && IsSecretOnly(lines[t - 1], a) && !Suppressed(lines, a, t - 1) && !Suppressed(lines, a, l))
        || (active && r % 2 == 1 && l == stop + 1 && IsSecretOnly(lines[stop], a) && !InBlock(Marks(lines, a), stop)
            && !Suppressed(lines, a, l)))
  }

  lemma {:induction false} ActiveIsSuppressed(lines: seq<string>, a: Aliases, k: nat)
    requires k < |lines| && Active(lines, a, k)
    ensures Suppressed(lines, a, k)
  {}

  lemma {:induction false} EnclosingExposesSecrets(lines: seq<string>, a: Aliases, b: nat, t: nat, open: string, close: string, all: seq<string>, l: nat)
    requires Surrounds(lines, a, b, t, open, close, all) && l < |lines|
    ensures b < t <= |lines| && |all| == |lines| + 2
    ensures Hidden(lines, a, l) && !Hidden(all, a, Pushed(b, t, l)) <==> EnclosingExposesSecret(lines, a, t, l)
  {
    hide IsSecretOnly, InBlock, Marks, RunOf, Suppressed, Active, Surrounds, Hidden;
    SuppressedThen(lines, a, b, t, open, close, all, l);
    HiddenIs(lines, a, l);
    HiddenIs(all, a, Pushed(b, t, l));
    if l > 0 { SuppressedThen(lines, a, b, t, open, close, all, l - 1); }
    if Active(lines, a, t - 1) { ActiveIsSuppressed(lines, a, t - 1); }
  }

  /* ---- a block annotation as it is inserted ---- */

  lemma {:induction false} BodiesConcat(x: seq<string>, y: seq<string>)
    ensures Bodies(x + y) == Bodies(x) + Bodies(y)
  {
    hide Body;
  }

  lemma {:induction false} BodiesEnclosed(lines: seq<string>, b: nat, t: nat, open: string, close: string)
    requires b < t <= |lines|
    ensures Bodies(Enclose(lines, b, t, open, close)) == Enclose(Bodies(lines), b, t, Body(open), Body(close))
  {
    hide Body, Bodies;
    var x, y, z := lines[..b], lines[b..t], lines[t..];
    BodiesConcat(x + [open] + y + [close], z);
    BodiesConcat(x + [open] + y, [close]);
    BodiesConcat(x + [open], y);
    BodiesConcat(x, [open]);
    BodiesOfOne(open);
    BodiesOfOne(close);
    BodiesOfSlice(lines, 0, b);
    BodiesOfSlice(lines, b, t);
    BodiesOfSlice(lines, t, |lines|);
    assert lines[0..b] == x && lines[t..|lines|] == z;
  }

  lemma {:induction false} BodiesOfOne(line: string)
    ensures Bodies([line]) == [Body(line)]
  {}

  lemma {:induction false} BodiesOfSlice(lines: seq<string>, i: nat, j: nat)
    requires i <= j <= |lines|
    ensures |Bodies(lines)| == |lines| && Bodies(lines[i..j]) == Bodies(lines)[i..j]
  {
    hide Body;
  }

  // Where the range's first line has text and its last line an end, the new text has the marker lines around it.
  lemma {:induction false} BlockApplied(content: string, ann: Annotation, prefix: string, a: Aliases)
    requires ann.Block? && Fits(ann, |SplitKeep(content)|) && Takes(SplitKeep(content), ann, prefix, a)
    requires Sound(ann) && Unmarked(prefix)
    requires NonBlank(SplitKeep(content)[ann.start - 1]) && Ended(SplitKeep(content)[ann.end - 1])
    ensures var lines, b, t := SplitKeep(content), ann.start - 1, ann.end;
      Surrounds(Split(content), a, b, t, Opening(lines[b], ann, prefix), Closing(lines[b], prefix),
                Split(Join(ApplyOne(lines, ann, prefix))))
  {
    hide SplitKeep, Join, Takes, Sound, Unmarked, Body, Bodies, BeginLine, EndLine, Opening, Closing, NonBlank, Ended, ApplyOne,
      MarkOf, Enclose, AreLines, ContainsAny;
    var lines, b, t := SplitKeep(content), ann.start - 1, ann.end;
    SplitAreLines(content);
    assert Descending([ann], |lines|) && Writable(lines, [ann], prefix, a);
    SplitIsShown(content, [ann], prefix, a);
    BlockShown(lines, ann, prefix);
    OrdinaryTakes(lines, ann, prefix, a);
    BlockReads(lines[b], ann, prefix, a);
    OrdinaryIsShown(lines, b, t, prefix);
    BodiesEnclosed(lines, b, t, BeginLine(lines[b], ann, prefix), EndLine(lines[b], prefix));
    BodiesOfSlice(lines, 0, 0);
    forall k | b <= k < t ensures MarkOf(Split(content)[k], a).Plain? { BodyOf(lines, k); }
  }

  lemma {:induction false} BlockReads(first: string, ann: Annotation, prefix: string, a: Aliases)
    requires NonBlank(first) && Unmarked(prefix) && Sound(ann) && !ContainsAny(Closing(first, prefix), a.begin)
    ensures Body(BeginLine(first, ann, prefix)) == Opening(first, ann, prefix) && MarkOf(Opening(first, ann, prefix), a).Begin?
    ensures MarkOf(Closing(first, prefix), a).End?
  {
    hide MarkOf, NonBlank, Unmarked, Sound, ContainsAny, Body, Indentation, TypeText;
    OpeningReads(first, ann, prefix, a);
    ClosingReads(first, prefix, a);
    FeedLine(Opening(first, ann, prefix));
  }

  lemma {:induction false} BlockShown(lines: seq<string>, ann: Annotation, prefix: string)
    requires ann.Block? && Fits(ann, |lines|) && Descending([ann], |lines|) && AreLines(lines) && Unmarked(prefix)
    requires NonBlank(lines[ann.start - 1]) && Ended(lines[ann.end - 1])
    ensures ApplyAll(lines, [ann], prefix) == ApplyOne(lines, ann, prefix)
    ensures var b, t := ann.start - 1, ann.end;
      Shown(lines, [ann], prefix) == Enclose(lines, b, t, BeginLine(lines[b], ann, prefix), EndLine(lines[b], prefix))
  {
    hide AreLines, Unmarked, Ended, ShownLines, BeginLine, EndLine, ApplyOne, Annotated, Texts;
    var b, t := ann.start - 1, ann.end;
    assert [ann][1..] == [];
    assert Shown(lines[..b], [], prefix) == lines[..b];
    OrdinaryLines(lines, ann, prefix);
    AnnotatedTexts(lines, ann, prefix);
  }

  // What one such annotation exposes, to the scanners that look at all lines and to the secret scanner.
  lemma {:induction false} BlockAnnotationExposes(content: string, ann: Annotation, prefix: string, a: Aliases, l: nat)
    requires ann.Block? && Fits(ann, |SplitKeep(content)|) && Takes(SplitKeep(content), ann, prefix, a)
    requires Sound(ann) && Unmarked(prefix) && l < |Split(content)|
    requires NonBlank(SplitKeep(content)[ann.start - 1]) && Ended(SplitKeep(content)[ann.end - 1])
    ensures var lines, modified := Split(content), Split(Join(ApplyOne(SplitKeep(content), ann, prefix)));
      var l', r := Pushed(ann.start - 1, ann.end, l), RunOf(lines, a, ann.end);
      && l' < |modified| && modified[l'] == lines[l]
      && (Suppressed(lines, a, l) && !Suppressed(modified, a, l') <==>
          Active(lines, a, ann.end - 1) && l == ann.end + r && r % 2 == 0 && !InBlock(Marks(lines, a), l))
      && (Hidden(lines, a, l) && !Hidden(modified, a, l') <==> EnclosingExposesSecret(lines, a, ann.end, l))
  {
    hide SplitKeep, Join, ApplyOne, Takes, Sound, Unmarked, Suppressed, RunOf, InBlock, Marks, Active, Hidden,
      EnclosingExposesSecret, Surrounds, NonBlank, Ended, Opening, Closing, Bodies;
    var lines, b, t := SplitKeep(content), ann.start - 1, ann.end;
    BlockApplied(content, ann, prefix, a);
    var open, close, all := Opening(lines[b], ann, prefix), Closing(lines[b], prefix), Split(Join(ApplyOne(lines, ann, prefix)));
    EnclosingExposes(Split(content), a, b, t, open, close, all, l);
    EnclosingExposesSecrets(Split(content), a, b, t, open, close, all, l);
  }

  /* ---- one such text ---- */

  const AROUND_TWO := Block(1, ["pii"], 1, 2)

  lemma {:induction false} FedReads(bodies: seq<string>, i: nat)
    requires i < |bodies| && Unbroken(bodies[i]) && bodies[i] != ""
    ensures Body(Fed(bodies)[i]) == bodies[i] && Ended(Fed(bodies)[i])
    ensures !Lexical.IsSpace(bodies[i][0]) ==> NonBlank(Fed(bodies)[i])
  {
    FeedLine(bodies[i]);
    BodyEndIs(bodies[i] + "\n", |bodies[i]|);
    assert (bodies[i] + "\n")[0] == bodies[i][0];
  }

  lemma {:induction false} ExampleTakes(a: Aliases)
    requires a.allow == [] && a.begin == [] && a.end == []
    ensures Takes(Fed(EXAMPLE), AROUND_TWO, "#", a) && Sound(AROUND_TWO)
    ensures NonBlank(Fed(EXAMPLE)[0]) && Ended(Fed(EXAMPLE)[1])
  {
    hide Contains, MarkOf, Unmarked, NonBlank, Ended, Takes, Body, Fed, AreLines, IsInlineAllow, Closing;
    ExampleIsPlain(a);
    assert forall i :: 0 <= i < |EXAMPLE| ==> Unbroken(EXAMPLE[i]) by { UnmarkedIsUnbroken(); }
    FedAreLines(EXAMPLE);
    assert |EXAMPLE| == 3 && EXAMPLE[0] == "a" && AROUND_TWO.types == ["pii"];
    FedReads(EXAMPLE, 0);
    FedReads(EXAMPLE, 1);
    forall i | 0 <= i < 2 ensures MarkOf(Body(Fed(EXAMPLE)[i]), a).Plain? { FedReads(EXAMPLE, i); }
    OrdinaryTakes(Fed(EXAMPLE), AROUND_TWO, "#", a);
  }

  lemma {:induction false} SecondIsActive(a: Aliases)
    requires a.allow == [] && a.begin == [] && a.end == []
    ensures Active(EXAMPLE, a, 1) && RunOf(EXAMPLE, a, 2) == 0
  {
    hide IsInlineAllow, MarkOf, InBlock;
    ExampleIsPlain(a);
    ExampleReads(a);
    assert |EXAMPLE| == 3;
    assert !Active(EXAMPLE, a, 0) && !Alone(EXAMPLE, a, 2);
  }

  // A block around the first two of three lines, the second of which has an inline marker, exposes the third.
  lemma {:induction false} BlockExampleIsExposed(a: Aliases)
    requires a.allow == [] && a.begin == [] && a.end == []
    ensures var content := Join(Fed(EXAMPLE));
      var modified := Join(ApplyOne(SplitKeep(content), AROUND_TWO, "#"));
      && |Split(content)| == 3 && |Split(modified)| == 5 && Split(modified)[4] == Split(content)[2] == "b"
      && Suppressed(Split(content), a, 2) && !Suppressed(Split(modified), a, 4)
  {
    hide Contains, Bodies, Body, Join, Split, SplitKeep, ApplyOne, Suppressed, RunOf, InBlock, MarkOf, Unmarked, Fed, AreLines,
      IsInlineAllow, Marks, Takes, NonBlank, Ended, Surrounds, Opening, Closing;
    ExampleIsPlain(a);
    assert forall i :: 0 <= i < |EXAMPLE| ==> Unbroken(EXAMPLE[i]) by { UnmarkedIsUnbroken(); }
    FedAreLines(EXAMPLE);
    SplitOfJoin(Fed(EXAMPLE));
    SplitIsBodies(Fed(EXAMPLE));
    ExampleReads(a);
    ExampleTakes(a);
    SecondIsActive(a);
    var content := Join(Fed(EXAMPLE));
    BlockApplied(content, AROUND_TWO, "#", a);
    SurroundsSize(Split(content), a, 0, 2, Opening(Fed(EXAMPLE)[0], AROUND_TWO, "#"), Closing(Fed(EXAMPLE)[0], "#"),
                  Split(Join(ApplyOne(SplitKeep(content), AROUND_TWO, "#"))));
    BlockAnnotationExposes(content, AROUND_TWO, "#", a, 2);
  }
}
