/**
 Offsets: where the members of a document lie in its text, which spans of it are cut out, and why
 cutting the spans out of the text is cutting the members out of the tree.
 */
module Spans {
  import opened Lexical
  import opened Syntax
  import opened Agreement
  import opened Values
  import opened Pruning

  // Located members of a container, offsets into the text; an entry starts at its key or its value.
  datatype JsonNode = JsonNode(start: nat, end: nat, members: seq<Member>)

  datatype Member = Member(key: Key, entry: nat, child: JsonNode)

  datatype Span = Span(start: nat, end: nat)

  /* ---- where things are ---- */

  function TreeOf(node: Node, off: nat): JsonNode {
    match node
    case Atom(raw) => JsonNode(off, off + |raw|, [])
    case Box(kind, body) => JsonNode(off, off + |Text(node)|, MembersOf(body, kind, 0, off + 1))
  }

  function MembersOf(body: Body, kind: Kind, idx: nat, off: nat): seq<Member> {
    match body
    case Done(_, _, _) => []
    case More(pre, head, val, post, next) =>
      [Member(KeyOf(kind, NameOf(head), idx), off + |pre|, TreeOf(val, off + |pre| + |HeadText(head)|))]
      + MembersOf(next, kind, idx + 1, NextOffset(body, off))
  }

  // Where a member's value starts and ends, where the gap after it ends, where the next member starts.
  function ValueStart(body: Body, off: nat): nat
    requires body.More?
  {
    off + |body.pre| + |HeadText(body.head)|
  }

  function ValueEnd(body: Body, off: nat): nat
    requires body.More?
  {
    ValueStart(body, off) + |Text(body.val)|
  }

  function CommaAt(body: Body, off: nat): nat
    requires body.More?
  {
    ValueEnd(body, off) + |body.post|
  }

  function NextOffset(body: Body, off: nat): nat
    requires body.More?
  {
    CommaAt(body, off) + (if body.next.More? then 1 else 0)
  }

  /* ---- what is cut ---- */

  function NodeSpans(node: Node, off: nat, path: Path, removed: set<Path>): seq<Span>
    decreases node, 0
  {
    match node
    case Atom(_) => []
    case Box(kind, body) =>
      BodySpans(body, kind, 0, off + 1, path, removed, AllKept(body, kind, 0, path, removed))
  }

  // Removed members from their entry to their end, and the commas no two surviving members need.
  function BodySpans(body: Body, kind: Kind, idx: nat, off: nat, path: Path, removed: set<Path>, whole: bool): seq<Span>
    decreases body, 1
  {
    match body
    case Done(before, stray, after) =>
      if stray && !whole then [Span(off + |before|, off + |before| + 1)] else []
    case More(pre, head, val, post, next) =>
      OwnSpans(body, kind, idx, off, path, removed)
      + (CommaSpan(body, kind, idx, off, path, removed, whole)
         + BodySpans(next, kind, idx + 1, NextOffset(body, off), path, removed, whole))
  }

  function OwnSpans(body: Body, kind: Kind, idx: nat, off: nat, path: Path, removed: set<Path>): seq<Span>
    requires body.More?
    decreases body, 0
  {
    var p := path + [KeyOf(kind, NameOf(body.head), idx)];
    if p in removed then [Span(off + |body.pre|, ValueEnd(body, off))]
    else NodeSpans(body.val, ValueStart(body, off), p, removed)
  }

  function CommaSpan(body: Body, kind: Kind, idx: nat, off: nat, path: Path, removed: set<Path>, whole: bool): seq<Span>
    requires body.More?
  {
    if CommaGoes(body, kind, idx, path, removed, whole) then [Span(CommaAt(body, off), CommaAt(body, off) + 1)] else []
  }

  predicate CommaGoes(body: Body, kind: Kind, idx: nat, path: Path, removed: set<Path>, whole: bool)
    requires body.More?
  {
    && body.next.More? && !whole
    && !(path + [KeyOf(kind, NameOf(body.head), idx)] !in removed && AnyKept(body.next, kind, idx + 1, path, removed))
  }

  ghost predicate Covered(spans: seq<Span>, k: int) {
    exists i :: 0 <= i < |spans| && spans[i].start <= k < spans[i].end
  }

  // The characters of t, the first of them at offset off, that no span covers.
  ghost function Keep(t: string, off: nat, spans: seq<Span>): string {
    if t == "" then ""
    else (if Covered(spans, off) then "" else t[..1]) + Keep(t[1..], off + 1, spans)
  }

  lemma {:induction false} KeepConcat(a: string, b: string, off: nat, spans: seq<Span>)
    ensures Keep(a + b, off, spans) == Keep(a, off, spans) + Keep(b, off + |a|, spans)
  {
    hide Covered;
    if a == "" {
      assert a + b == b;
    } else {
      KeepConcat(a[1..], b, off + 1, spans);
      assert (a + b)[1..] == a[1..] + b;
    }
  }

  lemma {:induction false} KeepAll(t: string, off: nat, spans: seq<Span>)
    requires forall k :: off <= k < off + |t| ==> !Covered(spans, k)
    ensures Keep(t, off, spans) == t
  {
    hide Covered;
    if t != "" { KeepAll(t[1..], off + 1, spans); }
  }

  lemma {:induction false} KeepNone(t: string, off: nat, spans: seq<Span>)
    requires forall k :: off <= k < off + |t| ==> Covered(spans, k)
    ensures Keep(t, off, spans) == ""
  {
    hide Covered;
    if t != "" { KeepNone(t[1..], off + 1, spans); }
  }

  lemma {:induction false} CoveredConcat(a: seq<Span>, b: seq<Span>, k: int)
    ensures Covered(a + b, k) == (Covered(a, k) || Covered(b, k))
  {
    if Covered(a, k) {
      var i :| 0 <= i < |a| && a[i].start <= k < a[i].end;
      assert (a + b)[i] == a[i];
    }
    if Covered(b, k) {
      var i :| 0 <= i < |b| && b[i].start <= k < b[i].end;
      assert (a + b)[|a| + i] == b[i];
    }
  }

  /* ---- spans stay inside what they were made for ---- */

  ghost predicate Within(spans: seq<Span>, from: nat, to: nat) {
    forall i :: 0 <= i < |spans| ==> from <= spans[i].start < spans[i].end <= to
  }

  lemma {:induction false} WithinConcat(a: seq<Span>, b: seq<Span>, from: nat, mid: nat, to: nat)
    requires Within(a, from, mid) && Within(b, mid, to) && from <= mid <= to
    ensures Within(a + b, from, to)
  {}

  lemma {:induction false} BodyTextSize(body: Body, off: nat)
    requires body.More?
    ensures off + |BodyText(body)| == NextOffset(body, off) + |BodyText(body.next)|
  {}

  // Every value's text is at least one character long.
  lemma {:induction false} TextIsSolid(node: Node, d: Dialect)
    requires WellFormed(node, d)
    ensures |Text(node)| > 0
  {}

  lemma {:induction false} NodeSpansWithin(node: Node, off: nat, path: Path, removed: set<Path>, d: Dialect)
    requires WellFormed(node, d)
    ensures Within(NodeSpans(node, off, path, removed), off, off + |Text(node)|)
    decreases node, 0
  {
    hide Within, AllKept, BodySpans, WellBodied, BodyText;
    if node.Box? {
      var whole := AllKept(node.body, node.kind, 0, path, removed);
      BodySpansWithin(node.body, node.kind, 0, off + 1, path, removed, whole, d);
      WithinWider(BodySpans(node.body, node.kind, 0, off + 1, path, removed, whole), off + 1, off + 1 + |BodyText(node.body)|, off);
    } else {
      NoneWithin(off, off + |Text(node)|);
    }
  }

  lemma {:induction false} WithinWider(spans: seq<Span>, from: nat, to: nat, wider: nat)
    requires Within(spans, from, to) && wider <= from
    ensures Within(spans, wider, to + 1)
  {}

  lemma {:induction false} NoneWithin(from: nat, to: nat)
    ensures Within([], from, to)
  {}

  lemma {:induction false} OwnSpansWithin(body: Body, kind: Kind, idx: nat, off: nat, path: Path, removed: set<Path>, d: Dialect)
    requires body.More? && WellBodied(body, kind, d)
    ensures Within(OwnSpans(body, kind, idx, off, path, removed), off + |body.pre|, ValueEnd(body, off))
    decreases body, 0
  {
    hide Text, BodyText, HeadText, WellFormed, NodeSpans, IsGap, WellHeaded;
    TextIsSolid(body.val, d);
    NodeSpansWithin(body.val, ValueStart(body, off), path + [KeyOf(kind, NameOf(body.head), idx)], removed, d);
  }

  lemma {:induction false} CommaSpanWithin(body: Body, kind: Kind, idx: nat, off: nat, path: Path, removed: set<Path>, whole: bool)
    requires body.More?
    ensures Within(CommaSpan(body, kind, idx, off, path, removed, whole), ValueEnd(body, off), NextOffset(body, off))
    ensures off + |body.pre| <= ValueEnd(body, off) <= NextOffset(body, off)
  {}

  lemma {:induction false} BodySpansWithin(body: Body, kind: Kind, idx: nat, off: nat, path: Path, removed: set<Path>, whole: bool, d: Dialect)
    requires WellBodied(body, kind, d)
    ensures Within(BodySpans(body, kind, idx, off, path, removed, whole), off, off + |BodyText(body)|)
    decreases body, 1
  {
    hide Text, HeadText, WellFormed, OwnSpans, CommaSpan, IsGap, WellHeaded, ValueStart, ValueEnd;
    if body.More? {
      BodyTextSize(body, off);
      var end := NextOffset(body, off) + |BodyText(body.next)|;
      OwnSpansWithin(body, kind, idx, off, path, removed, d);
      BodySpansWithin(body.next, kind, idx + 1, NextOffset(body, off), path, removed, whole, d);
      var comma := CommaSpan(body, kind, idx, off, path, removed, whole);
      var rest := BodySpans(body.next, kind, idx + 1, NextOffset(body, off), path, removed, whole);
      CommaSpanWithin(body, kind, idx, off, path, removed, whole);
      WithinConcat(comma, rest, ValueEnd(body, off), NextOffset(body, off), end);
      WithinConcat(OwnSpans(body, kind, idx, off, path, removed), comma + rest, off, ValueEnd(body, off), end);
    }
  }

  /* ---- cutting the spans out is cutting the members out ---- */

  // Two sets of spans cover the same positions of a stretch of text.
  ghost predicate CoverAlike(a: seq<Span>, b: seq<Span>, from: nat, to: nat) {
    forall k :: from <= k < to ==> Covered(a, k) == Covered(b, k)
  }

  lemma {:induction false} OutsideIsUncovered(spans: seq<Span>, from: nat, to: nat, k: int)
    requires Within(spans, from, to) && !(from <= k < to)
    ensures !Covered(spans, k)
  {}

  // Spans made for neighbouring stretches, seen from each of them.
  lemma {:induction false} SplitCover(spans: seq<Span>, a: seq<Span>, b: seq<Span>, from: nat, mid: nat, to: nat)
    requires from <= mid <= to && Within(a, from, mid) && Within(b, mid, to)
    requires CoverAlike(spans, a + b, from, to)
    ensures CoverAlike(spans, a, from, mid) && CoverAlike(spans, b, mid, to)
  {
    forall k | from <= k < to ensures Covered(a + b, k) == (if k < mid then Covered(a, k) else Covered(b, k)) {
      CoveredConcat(a, b, k);
      if k < mid { OutsideIsUncovered(b, mid, to, k); } else { OutsideIsUncovered(a, from, mid, k); }
    }
  }

  lemma {:induction false} KeepBracketed(open: char, t: string, close: char, off: nat, spans: seq<Span>)
    requires !Covered(spans, off) && !Covered(spans, off + 1 + |t|)
    ensures Keep([open] + t + [close], off, spans) == [open] + Keep(t, off + 1, spans) + [close]
  {
    hide Covered;
    KeepConcat([open], t, off, spans);
    KeepConcat([open] + t, [close], off, spans);
    KeepAll([open], off, spans);
    KeepAll([close], off + 1 + |t|, spans);
  }

  lemma {:induction false} CutTexts(node: Node, off: nat, path: Path, removed: set<Path>, spans: seq<Span>, d: Dialect)
    requires WellFormed(node, d)
    requires CoverAlike(spans, NodeSpans(node, off, path, removed), off, off + |Text(node)|)
    ensures Keep(Text(node), off, spans) == Text(Cut(node, path, removed))
    decreases node, 0
  {
    hide BodySpans, BodyText, WellBodied, CutBody, Keep, Covered, AllKept;
    match node
    case Atom(raw) =>
      forall k | off <= k < off + |raw| ensures !Covered(spans, k) { NothingCovered(k); }
      KeepAll(raw, off, spans);
    case Box(kind, body) =>
      var whole := AllKept(body, kind, 0, path, removed);
      var t := BodyText(body);
      var inner := BodySpans(body, kind, 0, off + 1, path, removed, whole);
      BodySpansWithin(body, kind, 0, off + 1, path, removed, whole, d);
      assert Covered(spans, off) == Covered(inner, off);
      assert Covered(spans, off + 1 + |t|) == Covered(inner, off + 1 + |t|);
      OutsideIsUncovered(inner, off + 1, off + 1 + |t|, off);
      OutsideIsUncovered(inner, off + 1, off + 1 + |t|, off + 1 + |t|);
      CutBodyTexts(body, kind, 0, off + 1, path, removed, whole, "", spans, d);
      KeepBracketed(Opening(kind), t, Closing(kind), off, spans);
      assert "" + Keep(t, off + 1, spans) == Keep(t, off + 1, spans);
  }

  lemma {:induction false} NothingCovered(k: int)
    ensures !Covered([], k)
  {}

  // The end of a container loses its stray comma unless the container is whole.
  lemma {:induction false} CutEndTexts(body: Body, off: nat, whole: bool, gap: string, spans: seq<Span>)
    requires body.Done? && (!body.stray ==> body.after == "")
    requires CoverAlike(spans, if body.stray && !whole then [Span(off + |body.before|, off + |body.before| + 1)] else [],
                        off, off + |BodyText(body)|)
    ensures gap + Keep(BodyText(body), off, spans)
      == if whole then gap + body.before + Comma(body.stray) + body.after else gap + body.before + body.after
  {
    hide Keep;
    var mid := off + |body.before|;
    KeepConcat(body.before, Comma(body.stray), off, spans);
    KeepConcat(body.before + Comma(body.stray), body.after, off, spans);
    KeepAll(body.before, off, spans);
    KeepAll(body.after, mid + |Comma(body.stray)|, spans);
    if body.stray && !whole {
      var cut := [Span(mid, mid + 1)];
      assert cut[0].start <= mid < cut[0].end;
      assert Covered(cut, mid);
      KeepNone(",", mid, spans);
    } else {
      KeepAll(Comma(body.stray), mid, spans);
    }
  }

  lemma {:induction false} JoinTexts(pre: string, head: Head, val: Node, post: string, next: Body)
    ensures BodyText(Join(pre, head, val, post, next))
      == pre + (HeadText(head) + (Text(val) + (post + (Comma(next.More?) + BodyText(next)))))
  {}

  // A member's gap, head and value: all cut but the gap, or cut inside the value only.
  lemma {:induction false} CutOwnTexts(body: Body, kind: Kind, idx: nat, off: nat, path: Path, removed: set<Path>, spans: seq<Span>, d: Dialect)
    requires body.More? && WellBodied(body, kind, d)
    requires CoverAlike(spans, OwnSpans(body, kind, idx, off, path, removed), off, ValueEnd(body, off))
    ensures var p := path + [KeyOf(kind, NameOf(body.head), idx)];
      Keep(body.pre + (HeadText(body.head) + Text(body.val)), off, spans)
      == if p in removed then body.pre else body.pre + (HeadText(body.head) + Text(Cut(body.val, p, removed)))
    decreases body, 0
  {
    hide Keep, WellHeaded, IsGap, Text, HeadText, WellFormed, Cut;
    var p := path + [KeyOf(kind, NameOf(body.head), idx)];
    var own := OwnSpans(body, kind, idx, off, path, removed);
    var entry, start := off + |body.pre|, ValueStart(body, off);
    var h, v := HeadText(body.head), Text(body.val);
    KeepConcat(body.pre, h + v, off, spans);
    OwnSpansWithin(body, kind, idx, off, path, removed, d);
    forall k | off <= k < entry ensures !Covered(spans, k) { OutsideIsUncovered(own, entry, ValueEnd(body, off), k); }
    KeepAll(body.pre, off, spans);
    if p in removed {
      forall k | entry <= k < entry + |h + v| ensures Covered(spans, k) {
        assert own[0].start <= k < own[0].end;
        assert Covered(own, k);
      }
      KeepNone(h + v, entry, spans);
    } else {
      NodeSpansWithin(body.val, start, p, removed, d);
      forall k | entry <= k < start ensures !Covered(spans, k) { OutsideIsUncovered(own, start, ValueEnd(body, off), k); }
      KeepConcat(h, v, entry, spans);
      KeepAll(h, entry, spans);
      CutTexts(body.val, start, p, removed, spans, d);
    }
  }

  // The gap after a member stays; the comma after it goes when CommaGoes says so.
  lemma {:induction false} CutCommaTexts(body: Body, kind: Kind, idx: nat, off: nat, path: Path, removed: set<Path>, whole: bool, spans: seq<Span>)
    requires body.More?
    requires CoverAlike(spans, CommaSpan(body, kind, idx, off, path, removed, whole), ValueEnd(body, off), NextOffset(body, off))
    ensures Keep(body.post + Comma(body.next.More?), ValueEnd(body, off), spans)
      == body.post + Comma(body.next.More? && !CommaGoes(body, kind, idx, path, removed, whole))
  {
    hide Keep, ValueEnd, AnyKept;
    var cut := CommaSpan(body, kind, idx, off, path, removed, whole);
    var at := CommaAt(body, off);
    KeepConcat(body.post, Comma(body.next.More?), ValueEnd(body, off), spans);
    KeepAll(body.post, ValueEnd(body, off), spans);
    if CommaGoes(body, kind, idx, path, removed, whole) {
      if body.next.More? {
        assert cut[0].start <= at < cut[0].end;
        assert Covered(cut, at);
        KeepNone(",", at, spans);
      }
    } else {
      KeepAll(Comma(body.next.More?), at, spans);
    }
  }

  // Whether any member survives, on both sides.
  lemma {:induction false} CutHasMore(body: Body, kind: Kind, idx: nat, path: Path, removed: set<Path>, whole: bool, gap: string)
    ensures CutBody(body, kind, idx, path, removed, whole, gap).More? == AnyKept(body, kind, idx, path, removed)
    ensures AllKept(body, kind, idx, path, removed) ==> AnyKept(body, kind, idx, path, removed) == body.More?
  {
    if body.More? {
      CutHasMore(body.next, kind, idx + 1, path, removed, whole, gap + body.pre + body.post);
      CutHasMore(body.next, kind, idx + 1, path, removed, whole, "");
    }
  }

  lemma {:induction false} KeepMember(own: string, tail: string, rest: string, off: nat, spans: seq<Span>)
    ensures Keep(own + (tail + rest), off, spans)
      == Keep(own, off, spans) + (Keep(tail, off + |own|, spans) + Keep(rest, off + |own| + |tail|, spans))
  {
    hide Keep;
    KeepConcat(own, tail + rest, off, spans);
    KeepConcat(tail, rest, off + |own|, spans);
  }

  lemma {:induction false} RegroupMember(pre: string, h: string, v: string, post: string, c: string, rest: string)
    ensures pre + (h + (v + (post + (c + rest)))) == (pre + (h + v)) + ((post + c) + rest)
  {}

  lemma {:induction false} CutBodyTexts(body: Body, kind: Kind, idx: nat, off: nat, path: Path, removed: set<Path>, whole: bool, gap: string, spans: seq<Span>, d: Dialect)
    requires WellBodied(body, kind, d)
    requires CoverAlike(spans, BodySpans(body, kind, idx, off, path, removed, whole), off, off + |BodyText(body)|)
    requires whole ==> AllKept(body, kind, idx, path, removed)
    ensures gap + Keep(BodyText(body), off, spans) == BodyText(CutBody(body, kind, idx, path, removed, whole, gap))
    decreases body, 3
  {
    if body.Done? {
      CutEndTexts(body, off, whole, gap, spans);
    } else {
      CutMemberTexts(body, kind, idx, off, path, removed, whole, gap, spans, d);
    }
  }

  // What is kept of a body: what is kept of its first member, of the comma after it, and of the rest.
  lemma {:induction false} KeepOfMember(body: Body, kind: Kind, idx: nat, off: nat, path: Path, removed: set<Path>, whole: bool, spans: seq<Span>, d: Dialect)
    requires WellBodied(body, kind, d) && body.More?
    requires CoverAlike(spans, BodySpans(body, kind, idx, off, path, removed, whole), off, off + |BodyText(body)|)
    ensures var p := path + [KeyOf(kind, NameOf(body.head), idx)];
      Keep(BodyText(body), off, spans)
      == (if p in removed then body.pre else body.pre + (HeadText(body.head) + Text(Cut(body.val, p, removed))))
         + ((body.post + Comma(body.next.More? && !CommaGoes(body, kind, idx, path, removed, whole)))
            + Keep(BodyText(body.next), NextOffset(body, off), spans))
    decreases body, 1
  {
    hide Keep, Covered, CoverAlike, Within, OwnSpans, CommaSpan, BodySpans, IsGap, WellHeaded, WellFormed, HeadText, Text, Cut, CommaGoes;
    var More(pre, head, val, post, next) := body;
    MemberCover(body, kind, idx, off, path, removed, whole, spans, d);
    CutOwnTexts(body, kind, idx, off, path, removed, spans, d);
    CutCommaTexts(body, kind, idx, off, path, removed, whole, spans);
    var tail := post + Comma(next.More?);
    RegroupMember(pre, HeadText(head), Text(val), post, Comma(next.More?), BodyText(next));
    KeepMember(pre + (HeadText(head) + Text(val)), tail, BodyText(next), off, spans);
  }

  lemma {:induction false} CutMemberTexts(body: Body, kind: Kind, idx: nat, off: nat, path: Path, removed: set<Path>, whole: bool, gap: string, spans: seq<Span>, d: Dialect)
    requires WellBodied(body, kind, d) && body.More?
    requires CoverAlike(spans, BodySpans(body, kind, idx, off, path, removed, whole), off, off + |BodyText(body)|)
    requires whole ==> AllKept(body, kind, idx, path, removed)
    ensures gap + Keep(BodyText(body), off, spans) == BodyText(CutBody(body, kind, idx, path, removed, whole, gap))
    decreases body, 2
  {
    hide Keep, Covered, Within, AnyKept, OwnSpans, CommaSpan, CoverAlike, BodySpans, BodyText, Comma, IsGap, WellHeaded, WellFormed, HeadText, Text, Cut, Join, NextOffset, NodeSpans, NameOf, KeyOf;
    var More(pre, head, val, post, next) := body;
    var p := path + [KeyOf(kind, NameOf(head), idx)];
    MemberCover(body, kind, idx, off, path, removed, whole, spans, d);
    KeepOfMember(body, kind, idx, off, path, removed, whole, spans, d);
    CutHasMore(next, kind, idx + 1, path, removed, whole, "");
    var kept := Keep(BodyText(next), NextOffset(body, off), spans);
    if p in removed {
      CutBodyTexts(next, kind, idx + 1, NextOffset(body, off), path, removed, whole, gap + pre + post, spans, d);
      RegroupGone(gap, pre, post, kept);
    } else {
      CutBodyTexts(next, kind, idx + 1, NextOffset(body, off), path, removed, whole, "", spans, d);
      var cut := CutBody(next, kind, idx + 1, path, removed, whole, "");
      KeptTexts(gap, pre, head, Cut(val, p, removed), post, cut, kept);
    }
  }

  lemma {:induction false} KeptTexts(gap: string, pre: string, head: Head, val: Node, post: string, next: Body, kept: string)
    requires "" + kept == BodyText(next)
    ensures gap + ((pre + (HeadText(head) + Text(val))) + ((post + Comma(next.More?)) + kept))
      == BodyText(Join(gap + pre, head, val, post, next))
  {
    hide HeadText, Text, BodyText, Join, Comma;
    assert kept == BodyText(next);
    JoinTexts(gap + pre, head, val, post, next);
    RegroupMember(gap + pre, HeadText(head), Text(val), post, Comma(next.More?), BodyText(next));
    RegroupGap(gap, pre, HeadText(head) + Text(val), (post + Comma(next.More?)) + kept);
  }

  lemma {:induction false} RegroupGone(gap: string, pre: string, post: string, rest: string)
    ensures gap + (pre + ((post + Comma(false)) + rest)) == (gap + pre + post) + rest
  {
    assert post + "" == post;
  }

  lemma {:induction false} RegroupGap(gap: string, pre: string, h: string, rest: string)
    ensures gap + ((pre + h) + rest) == ((gap + pre) + h) + rest
  {}

  // Spans that cover a body as its own do cover its parts as theirs do.
  lemma {:induction false} MemberCover(body: Body, kind: Kind, idx: nat, off: nat, path: Path, removed: set<Path>, whole: bool, spans: seq<Span>, d: Dialect)
    requires WellBodied(body, kind, d) && body.More?
    requires CoverAlike(spans, BodySpans(body, kind, idx, off, path, removed, whole), off, off + |BodyText(body)|)
    ensures CoverAlike(spans, OwnSpans(body, kind, idx, off, path, removed), off, ValueEnd(body, off))
    ensures CoverAlike(spans, CommaSpan(body, kind, idx, off, path, removed, whole), ValueEnd(body, off), NextOffset(body, off))
    ensures CoverAlike(spans, BodySpans(body.next, kind, idx + 1, NextOffset(body, off), path, removed, whole),
                       NextOffset(body, off), NextOffset(body, off) + |BodyText(body.next)|)
  {
    hide Covered, CoverAlike, OwnSpans, IsGap, WellHeaded, WellFormed, HeadText, Text, ValueStart;
    BodyTextSize(body, off);
    var end := NextOffset(body, off) + |BodyText(body.next)|;
    var own := OwnSpans(body, kind, idx, off, path, removed);
    var comma := CommaSpan(body, kind, idx, off, path, removed, whole);
    var rest := BodySpans(body.next, kind, idx + 1, NextOffset(body, off), path, removed, whole);
    OwnSpansWithin(body, kind, idx, off, path, removed, d);
    BodySpansWithin(body.next, kind, idx + 1, NextOffset(body, off), path, removed, whole, d);
    CommaSpanWithin(body, kind, idx, off, path, removed, whole);
    WithinConcat(comma, rest, ValueEnd(body, off), NextOffset(body, off), end);
    SplitCover(spans, own, comma + rest, off, ValueEnd(body, off), end);
    SplitCover(spans, comma, rest, ValueEnd(body, off), NextOffset(body, off), end);
  }

  // Cutting a document's spans out of its text leaves the text of the document without the members.
  lemma {:induction false} CutDocumentTexts(doc: Document, removed: set<Path>, d: Dialect)
    requires WellFormed(doc.root, d)
    ensures Keep(DocumentText(doc), 0, NodeSpans(doc.root, |doc.lead|, [], removed))
      == DocumentText(CutDocument(doc, removed))
  {
    hide Keep, Covered, Text, NodeSpans, Cut, WellFormed;
    var at := |doc.lead|;
    var end := at + |Text(doc.root)|;
    var spans := NodeSpans(doc.root, at, [], removed);
    NodeSpansWithin(doc.root, at, [], removed, d);
    CutTexts(doc.root, at, [], removed, spans, d);
    forall k | !(at <= k < end) ensures !Covered(spans, k) { OutsideIsUncovered(spans, at, end, k); }
    KeepAll(doc.lead, 0, spans);
    KeepAll(doc.trail, end, spans);
    KeepConcat(doc.lead, Text(doc.root), 0, spans);
    KeepConcat(doc.lead + Text(doc.root), doc.trail, 0, spans);
  }

  /* ---- trees that differ only in the characters of their gaps have their members in the same places ---- */

  lemma {:induction false} SameSize(a: Node, b: Node)
    requires Same(a, b)
    ensures |Text(a)| == |Text(b)|
  {
    if a.Box? { SameBodySize(a.body, b.body); }
  }

  lemma {:induction false} SameBodySize(a: Body, b: Body)
    requires SameBody(a, b)
    ensures |BodyText(a)| == |BodyText(b)|
  {
    if a.More? {
      SameSize(a.val, b.val);
      SameBodySize(a.next, b.next);
    }
  }

  lemma {:induction false} SameTree(a: Node, b: Node, off: nat)
    requires Same(a, b)
    ensures TreeOf(a, off) == TreeOf(b, off)
  {
    SameSize(a, b);
    if a.Box? { SameMembers(a.body, b.body, a.kind, 0, off + 1); }
  }

  // The first located member of a body and the ones after it.
  lemma {:induction false} MembersAre(body: Body, kind: Kind, idx: nat, off: nat)
    ensures MembersOf(body, kind, idx, off) == [] <==> body.Done?
    ensures body.More? ==>
      MembersOf(body, kind, idx, off) == [Member(KeyOf(kind, NameOf(body.head), idx), off + |body.pre|, TreeOf(body.val, ValueStart(body, off)))]
        + MembersOf(body.next, kind, idx + 1, NextOffset(body, off))
  {}

  lemma {:induction false} SameMembers(a: Body, b: Body, kind: Kind, idx: nat, off: nat)
    requires SameBody(a, b)
    ensures MembersOf(a, kind, idx, off) == MembersOf(b, kind, idx, off)
  {
    hide HeadText, Text, TreeOf, Same, MembersOf, NameOf;
    MembersAre(a, kind, idx, off);
    MembersAre(b, kind, idx, off);
    if a.More? {
      SameSize(a.val, b.val);
      SameHeadSize(a.head, b.head);
      SameTree(a.val, b.val, ValueStart(a, off));
      SameMembers(a.next, b.next, kind, idx + 1, NextOffset(a, off));
    } else {
      assert MembersOf(a, kind, idx, off) == [] == MembersOf(b, kind, idx, off);
    }
  }

  lemma {:induction false} SameHeadSize(a: Head, b: Head)
    requires SameHead(a, b)
    ensures |HeadText(a)| == |HeadText(b)| && NameOf(a) == NameOf(b)
  {}
}
