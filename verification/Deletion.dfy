/** delete_json_members: collecting spans over the located members and cutting them out. */
module Deletion {
  import opened Lexical
  import opened Masking
  import opened Syntax
  import opened Agreement
  import opened Printing
  import opened Options
  import opened Values
  import opened Pruning
  import opened Spans
  import opened Editing

  /* ---- commas in the comment-free text ---- */

  predicate NoComma(s: string, from: nat, to: nat) {
    to <= |s| && forall k :: from <= k < to ==> s[k] != ','
  }

  // The only commas between members, and before closing brackets, are those of the tree.
  predicate CommasAt(s: string, node: Node, off: nat) {
    node.Box? ==> BodyCommas(s, node.body, off + 1)
  }

  predicate BodyCommas(s: string, body: Body, off: nat) {
    match body
    case Done(before, stray, _) =>
      NoComma(s, off, off + |before|) && (stray ==> off + |before| < |s| && s[off + |before|] == ',')
    case More(_, _, val, _, next) =>
      && CommasAt(s, val, ValueStart(body, off))
      && NoComma(s, ValueEnd(body, off), CommaAt(body, off))
      && (next.More? ==> CommaAt(body, off) < |s| && s[CommaAt(body, off)] == ',')
      && BodyCommas(s, next, NextOffset(body, off))
  }

  // From off on, s is the comment-free form of t.
  ghost predicate Reads(s: string, off: nat, t: string) {
    Lexes(t) && off <= |s| && s[off..] == MaskComments(t)
  }

  lemma {:induction false} ReadsOver(s: string, off: nat, a: string, m: string, b: string)
    requires Reads(s, off, a + b) && Lexes(b) && |m| == |a| && MaskComments(a + b) == m + MaskComments(b)
    ensures Reads(s, off + |a|, b) && s[off..off + |a|] == m
  {
    assert s[off + |a|..] == s[off..][|a|..];
    assert s[off..off + |a|] == s[off..][..|a|];
  }

  lemma {:induction false} GapIsBlank(g: string, u: string)
    requires IsGap(g, Jsonc) && Lexes(u)
    ensures Lexes(g + u) && WsThen(MaskComments(g + u), |g|, MaskComments(u))
  {
    hide Lexes, MaskComments, Mask, IsGap, FirstLen, WsThen, LexemeLen, Gap;
    GapLexes(g, u);
    if g == "" {
      assert g + u == u;
      WsNothing(MaskComments(u));
    } else {
      var n := FirstLen(g);
      FirstOfGap(g, u);
      GapUncons(g, u, Jsonc);
      GapIsBlank(g[n..], u);
      GapStep(g + u);
      WsJoin(MaskComments(g + u), n, MaskComments(g[n..] + u), |g| - n, MaskComments(u));
    }
  }

  lemma {:induction false} FirstOfGap(g: string, u: string)
    requires g != "" && IsGap(g, Jsonc)
    ensures GapLexeme(g + u)
  {
    if !IsWs(g[0]) { CommentLocal(g, u); }
  }

  lemma {:induction false} ReadsGap(s: string, off: nat, g: string, u: string)
    requires Reads(s, off, g + u) && IsGap(g, Jsonc) && Lexes(u)
    ensures Reads(s, off + |g|, u) && NoComma(s, off, off + |g|)
  {
    hide Lexes, MaskComments, IsGap;
    GapIsBlank(g, u);
    var m := MaskComments(g + u);
    assert m == m[..|g|] + m[|g|..];
    ReadsOver(s, off, g, m[..|g|], u);
    forall k | off <= k < off + |g| ensures s[k] != ',' { assert s[k] == s[off..off + |g|][k - off]; }
  }

  lemma {:induction false} ReadsChar(s: string, off: nat, c: char, u: string)
    requires Reads(s, off, [c] + u) && c != '/' && c != '"' && Lexes(u)
    ensures Reads(s, off + 1, u) && off < |s| && s[off] == c
  {}

  lemma {:induction false} ReadsLiteral(s: string, off: nat, raw: string, u: string)
    requires Reads(s, off, raw + u) && IsLiteral(raw) && Lexes(u)
    ensures Reads(s, off + |raw|, u)
  {
    assert raw[..|raw|] == raw;
    StringLocal(raw, u);
    assert (raw + u)[|raw|..] == u;
    ReadsOver(s, off, raw, raw, u);
  }

  lemma {:induction false} ReadsScalar(s: string, off: nat, raw: string, u: string)
    requires Reads(s, off, raw + u) && Run(raw) == |raw| && Lexes(u)
    ensures Reads(s, off + |raw|, u)
    decreases |raw|
  {
    hide Lexes, Reads, Run;
    if raw == "" {
      assert raw + u == u;
    } else {
      RunTail(raw);
      assert raw + u == [raw[0]] + (raw[1..] + u);
      ScalarLexes(raw[1..], u);
      ReadsChar(s, off, raw[0], raw[1..] + u);
      ReadsScalar(s, off + 1, raw[1..], u);
    }
  }

  lemma {:induction false} ReadsNode(s: string, off: nat, node: Node, r: string)
    requires Reads(s, off, Write(node, r)) && WellFormed(node, Jsonc) && Lexes(r)
    ensures CommasAt(s, node, off) && Reads(s, off + |Text(node)|, r)
    decreases node, 0
  {
    hide Lexes, Reads, WellBodied, WriteBody, BodyText, BodyCommas;
    match node
    case Atom(raw) => if raw[0] == '"' { ReadsLiteral(s, off, raw, r); } else { ReadsScalar(s, off, raw, r); }
    case Box(kind, body) =>
      CharLexes(Closing(kind), r);
      BodyLexes(body, kind, [Closing(kind)] + r);
      ReadsChar(s, off, Opening(kind), WriteBody(body, [Closing(kind)] + r));
      ReadsBody(s, off + 1, body, kind, [Closing(kind)] + r);
      ReadsChar(s, off + 1 + |BodyText(body)|, Closing(kind), r);
  }

  lemma {:induction false} ReadsHead(s: string, off: nat, head: Head, kind: Kind, v: string)
    requires Reads(s, off, WriteHead(head, v)) && WellHeaded(head, kind, Jsonc) && Lexes(v)
    ensures Reads(s, off + |HeadText(head)|, v)
  {
    hide Lexes, Reads, IsGap, IsLiteral;
    match head
    case Position =>
    case Field(literal, before, after) =>
      GapLexes(after, v);
      CharLexes(':', after + v);
      GapLexes(before, ":" + (after + v));
      ReadsLiteral(s, off, literal, before + (":" + (after + v)));
      ReadsGap(s, off + |literal|, before, ":" + (after + v));
      ReadsChar(s, off + |literal| + |before|, ':', after + v);
      ReadsGap(s, off + |literal| + |before| + 1, after, v);
  }

  lemma {:induction false} ReadsComma(s: string, off: nat, present: bool, u: string)
    requires Reads(s, off, Comma(present) + u) && Lexes(u)
    ensures Reads(s, off + |Comma(present)|, u) && (present ==> off < |s| && s[off] == ',')
  {
    hide Lexes, Reads;
    if present { ReadsChar(s, off, ',', u); } else { assert "" + u == u; }
  }

  lemma {:induction false} ReadsEnd(s: string, off: nat, body: Body, kind: Kind, r: string)
    requires body.Done? && Reads(s, off, WriteBody(body, r)) && WellBodied(body, kind, Jsonc) && Lexes(r)
    ensures BodyCommas(s, body, off) && Reads(s, off + |BodyText(body)|, r)
  {
    hide Lexes, Reads, IsGap;
    GapLexes(body.after, r);
    CommaLexes(body.stray, body.after + r);
    ReadsGap(s, off, body.before, Comma(body.stray) + (body.after + r));
    ReadsComma(s, off + |body.before|, body.stray, body.after + r);
    ReadsGap(s, off + |body.before| + |Comma(body.stray)|, body.after, r);
  }

  // A member's text after its value, in front of r.
  function Rest(body: Body, r: string): string
    requires body.More?
  {
    body.post + (Comma(body.next.More?) + WriteBody(body.next, r))
  }

  lemma {:induction false} RestLexes(body: Body, kind: Kind, r: string)
    requires body.More? && WellBodied(body, kind, Jsonc) && Lexes(r)
    ensures Lexes(Rest(body, r)) && Lexes(WriteBody(body.next, r)) && Lexes(Comma(body.next.More?) + WriteBody(body.next, r))
  {
    hide Lexes, IsGap, WriteBody, WellHeaded, WellFormed;
    BodyLexes(body.next, kind, r);
    CommaLexes(body.next.More?, WriteBody(body.next, r));
    GapLexes(body.post, Comma(body.next.More?) + WriteBody(body.next, r));
  }

  lemma {:induction false} WrittenAs(body: Body, r: string)
    requires body.More?
    ensures WriteBody(body, r) == body.pre + WriteHead(body.head, Write(body.val, Rest(body, r)))
  {}

  lemma {:induction false} ReadsBody(s: string, off: nat, body: Body, kind: Kind, r: string)
    requires Reads(s, off, WriteBody(body, r)) && WellBodied(body, kind, Jsonc) && Lexes(r)
    ensures BodyCommas(s, body, off) && Reads(s, off + |BodyText(body)|, r)
    decreases body, 1
  {
    hide Lexes, Reads, IsGap, WellHeaded, WellFormed, WriteBody, WriteHead, Write, BodyText, Text, HeadText, CommasAt, NoComma, Rest;
    if body.Done? {
      ReadsEnd(s, off, body, kind, r);
    } else {
      WrittenAs(body, r);
      RestLexes(body, kind, r);
      ReadsMember(s, off, body.pre, body.head, kind, body.val, Rest(body, r));
      ReadsRest(s, ValueEnd(body, off), body, kind, r);
      ReadsBody(s, NextOffset(body, off), body.next, kind, r);
      BodyTextSize(body, off);
    }
  }

  lemma {:induction false} ReadsRest(s: string, at: nat, body: Body, kind: Kind, r: string)
    requires body.More? && WellBodied(body, kind, Jsonc) && Lexes(r) && Reads(s, at, Rest(body, r))
    ensures var comma := at + |body.post|;
      && NoComma(s, at, comma) && (body.next.More? ==> comma < |s| && s[comma] == ',')
      && Reads(s, if body.next.More? then comma + 1 else comma, WriteBody(body.next, r))
  {
    hide Lexes, Reads, IsGap, WellHeaded, WellFormed, WriteBody, NoComma;
    RestLexes(body, kind, r);
    ReadsGap(s, at, body.post, Comma(body.next.More?) + WriteBody(body.next, r));
    ReadsComma(s, at + |body.post|, body.next.More?, WriteBody(body.next, r));
  }

  lemma {:induction false} ReadsMember(s: string, off: nat, pre: string, head: Head, kind: Kind, val: Node, t: string)
    requires Reads(s, off, pre + WriteHead(head, Write(val, t))) && IsGap(pre, Jsonc)
    requires WellHeaded(head, kind, Jsonc) && WellFormed(val, Jsonc) && Lexes(t)
    ensures var start := off + |pre| + |HeadText(head)|; CommasAt(s, val, start) && Reads(s, start + |Text(val)|, t)
    decreases val, 1
  {
    hide Lexes, Reads, IsGap, WellHeaded, WellFormed, Write, WriteHead, Text, HeadText, CommasAt, NoComma;
    NodeLexes(val, t);
    HeadLexes(head, kind, Write(val, t));
    ReadsGap(s, off, pre, WriteHead(head, Write(val, t)));
    ReadsHead(s, off + |pre|, head, kind, Write(val, t));
    ReadsNode(s, off + |pre| + |HeadText(head)|, val, t);
  }

  lemma {:induction false} HeadLexes(head: Head, kind: Kind, v: string)
    requires WellHeaded(head, kind, Jsonc) && Lexes(v)
    ensures Lexes(WriteHead(head, v))
  {
    hide Lexes, IsGap, IsLiteral;
    match head
    case Position =>
    case Field(literal, before, after) =>
      GapLexes(after, v);
      CharLexes(':', after + v);
      GapLexes(before, ":" + (after + v));
      LiteralLexes(literal, before + (":" + (after + v)));
  }

  /* ---- visit ---- */

  // Index of the first comma in s[from..to], -1 when there is none.
  method FindComma(s: string, from: nat, to: nat) returns (at: int)
    requires from <= to <= |s|
    ensures at < 0 ==> NoComma(s, from, to)
    ensures at >= 0 ==> from <= at < to && s[at] == ',' && NoComma(s, from, at)
  {
    for k := from to to
      invariant NoComma(s, from, k)
    {
      if s[k] == ',' { return k; }
    }
    at := -1;
  }

  lemma {:induction false} FirstComma(s: string, from: nat, at: int, comma: nat)
    requires at >= 0 ==> from <= at < |s| && s[at] == ',' && NoComma(s, from, at)
    requires NoComma(s, from, comma) && from <= comma < |s| && s[comma] == ','
    ensures at >= 0 ==> at == comma
  {}

  // What the flags of the members say about the tree they were located in.
  lemma {:induction false} FlagsMean(members: seq<Member>, body: Body, kind: Kind, idx: nat, off: nat, path: Path, removed: set<Path>)
    requires idx <= |members| && members[idx..] == MembersOf(body, kind, idx, off)
    ensures AllKept(body, kind, idx, path, removed) <==>
      forall j :: idx <= j < |members| ==> path + [members[j].key] !in removed
    ensures AnyKept(body, kind, idx, path, removed) <==>
      exists j :: idx <= j < |members| && path + [members[j].key] !in removed
  {
    if body.More? {
      hide TreeOf;
      assert members[idx + 1..] == members[idx..][1..];
      assert members[idx] == members[idx..][0];
      FlagsMean(members, body.next, kind, idx + 1, NextOffset(body, off), path, removed);
    }
  }

  // The last index with a true flag, -1 when there is none.
  method LastTrue(flags: seq<bool>) returns (last: int)
    ensures -1 <= last < |flags|
    ensures last >= 0 ==> flags[last]
    ensures forall j :: last < j < |flags| ==> !flags[j]
  {
    last := -1;
    for i := 0 to |flags|
      invariant -1 <= last < i
      invariant last >= 0 ==> flags[last]
      invariant forall j :: last < j < i ==> !flags[j]
    {
      if flags[i] { last := i; }
    }
  }

  // The spans that end a turn of the loop over the members: the comma after the member, if it goes, and
  // after a last member that comma is the stray one of the container's end.
  function AfterSpans(body: Body, kind: Kind, idx: nat, off: nat, path: Path, removed: set<Path>, whole: bool): seq<Span>
    requires body.More?
  {
    if body.next.More? then CommaSpan(body, kind, idx, off, path, removed, whole)
    else BodySpans(body.next, kind, idx + 1, NextOffset(body, off), path, removed, whole)
  }

  // Looks for the comma after a member and cuts it unless two surviving members need it.
  method CutComma(commentsMasked: string, from: nat, following: nat, goes: bool,
                  ghost body: Body, ghost kind: Kind, ghost idx: nat, ghost off: nat, ghost path: Path,
                  ghost removed: set<Path>, ghost whole: bool)
    returns (spans: seq<Span>)
    requires body.More? && BodyCommas(commentsMasked, body, off) && WellBodied(body, kind, Jsonc)
    requires from == ValueEnd(body, off) <= following <= |commentsMasked|
    requires following == NextOffset(body, off) + (if body.next.More? then |body.next.pre| else |BodyText(body.next)|)
    requires goes == if body.next.More? then !whole && !(path + [KeyOf(kind, NameOf(body.head), idx)] !in removed
                                                         && AnyKept(body.next, kind, idx + 1, path, removed))
                     else !whole
    ensures spans == AfterSpans(body, kind, idx, off, path, removed, whole)
  {
    hide CommasAt, WellFormed, WellHeaded, IsGap, ValueEnd, AnyKept;
    var comma := FindComma(commentsMasked, from, following);
    ghost var place := CommaPlace(commentsMasked, body, kind, off);
    if place >= 0 {
      FirstComma(commentsMasked, from, comma, place);
    }
    spans := if comma >= 0 && goes then [Span(comma, comma + 1)] else [];
  }

  // Where the comma after a member is, -1 when there is none.
  ghost function CommaPlace(s: string, body: Body, kind: Kind, off: nat): (at: int)
    requires body.More? && BodyCommas(s, body, off) && WellBodied(body, kind, Jsonc)
    ensures at >= 0 ==> ValueEnd(body, off) <= at < |s| && s[at] == ',' && NoComma(s, ValueEnd(body, off), at)
    ensures body.next.More? ==> at == CommaAt(body, off)
    ensures body.next.Done? ==> NextOffset(body, off) == ValueEnd(body, off)
    ensures body.next.Done? ==> at == (if body.next.stray then NextOffset(body, off) + |body.next.before| else -1)
    ensures body.next.Done? && !body.next.stray ==> NoComma(s, ValueEnd(body, off), NextOffset(body, off) + |BodyText(body.next)|)
  {
    assert BodyCommas(s, body.next, NextOffset(body, off)) && WellBodied(body.next, kind, Jsonc);
    if body.next.More? then CommaAt(body, off)
    else if body.next.stray then NextOffset(body, off) + |body.next.before|
    else -1
  }

  // Collects the spans to cut for a located value. The ghost arguments are the tree it was located in.
  method Visit(commentsMasked: string, node: JsonNode, path: Path, removed: set<Path>, ghost tree: Node, ghost off: nat)
    returns (spans: seq<Span>)
    requires node == TreeOf(tree, off) && WellFormed(tree, Jsonc)
    requires off + |Text(tree)| <= |commentsMasked| && CommasAt(commentsMasked, tree, off)
    ensures spans == NodeSpans(tree, off, path, removed)
    decreases tree, 1
  {
    hide CommasAt, BodySpans, AnyKept, WellFormed, Text, TreeOf, NodeSpans, AfterSpans, NextOffset, VisitAt, Pending, OwnSpans;
    var n := |node.members|;
    var retained := seq(n, i requires 0 <= i < n => path + [node.members[i].key] !in removed);
    var whole := forall i :: 0 <= i < n ==> retained[i];
    var lastRetained := LastTrue(retained);
    assert forall i :: 0 <= i < n ==> retained[i] == (path + [node.members[i].key] !in removed);
    spans := [];
    ghost var kind, left := VisitStarts(commentsMasked, node, path, removed, whole, tree, off);
    ghost var at: nat := off + 1;
    for index := 0 to n
      invariant VisitAt(commentsMasked, node, tree, kind, left, index, at)
      invariant spans + Pending(left, kind, index, n, at, path, removed, whole) == NodeSpans(tree, off, path, removed)
    {
      VisitParts(commentsMasked, node, tree, kind, left, index, at);
      var own, comma :=
        VisitMember(commentsMasked, node, index, retained, whole, lastRetained, path, removed, tree, kind, left, at);
      PendingSteps(left, kind, index, n, at, path, removed, whole);
      AppendTwice(spans, own, comma, Pending(left.next, kind, index + 1, n, NextOffset(left, at), path, removed, whole));
      spans := spans + own + comma;
      at, left := NextOffset(left, at), left.next;
    }
    NonePending(left, kind, n, at, path, removed, whole);
  }

  // The spans of one member and of the comma after it.
  method VisitMember(commentsMasked: string, node: JsonNode, index: nat, retained: seq<bool>, whole: bool, lastRetained: int,
                     path: Path, removed: set<Path>, ghost tree: Node, ghost kind: Kind, ghost left: Body, ghost at: nat)
    returns (own: seq<Span>, comma: seq<Span>)
    requires index < |node.members| == |retained| && left.More? && VisitAt(commentsMasked, node, tree, kind, left, index, at)
    requires forall i :: 0 <= i < |retained| ==> retained[i] == (path + [node.members[i].key] !in removed)
    requires -1 <= lastRetained < |retained| && (lastRetained >= 0 ==> retained[lastRetained])
    requires forall j :: lastRetained < j < |retained| ==> !retained[j]
    ensures own == OwnSpans(left, kind, index, at, path, removed)
    ensures comma == AfterSpans(left, kind, index, at, path, removed, whole)
    decreases tree, 0
  {
    hide CommasAt, BodyCommas, BodySpans, AnyKept, WellBodied, WellFormed, Text, BodyText, MembersOf, TreeOf, NodeSpans, AfterSpans, NextOffset, VisitAt, ValueStart, ValueEnd, NoComma, KeyOf, NameOf, OwnSpans;
    var n, member := |node.members|, node.members[index];
    VisitParts(commentsMasked, node, tree, kind, left, index, at);
    VisitFollowing(commentsMasked, node, tree, kind, left, index, at);
    if retained[index] {
      own := Visit(commentsMasked, member.child, path + [member.key], removed, left.val, ValueStart(left, at));
    } else {
      own := [Span(member.entry, member.child.end)];
    }
    OwnSpansAre(left, kind, index, at, path, removed);
    var following := if index + 1 < n then node.members[index + 1].entry else node.end - 1;
    var goes := !whole && !(retained[index] && index < lastRetained);
    NeededLater(node.members, left.next, kind, index + 1, NextOffset(left, at), path, removed, retained, lastRetained);
    comma := CutComma(commentsMasked, member.child.end, following, goes, left, kind, index, at, path, removed, whole);
  }

  lemma {:induction false} OwnSpansAre(left: Body, kind: Kind, index: nat, at: nat, path: Path, removed: set<Path>)
    requires left.More?
    ensures var p := path + [KeyOf(kind, NameOf(left.head), index)];
      OwnSpans(left, kind, index, at, path, removed) ==
        if p in removed then [Span(at + |left.pre|, ValueEnd(left, at))] else NodeSpans(left.val, ValueStart(left, at), p, removed)
  {}

  lemma {:induction false} AppendTwice<T>(done: seq<T>, own: seq<T>, after: seq<T>, rest: seq<T>)
    ensures done + ((own + after) + rest) == (done + own + after) + rest
  {}

  // The state of the loop over the members: which members are left, and from where.
  ghost predicate VisitAt(s: string, node: JsonNode, tree: Node, kind: Kind, left: Body, index: nat, at: nat) {
    && index <= |node.members| && node.members[index..] == MembersOf(left, kind, index, at)
    && WellBodied(left, kind, Jsonc) && BodyCommas(s, left, at)
    && (index < |node.members| ==> left < tree && at + |BodyText(left)| == node.end - 1 && node.end <= |s|)
  }

  // The spans still to come.
  function Pending(left: Body, kind: Kind, index: nat, n: nat, at: nat, path: Path, removed: set<Path>, whole: bool): seq<Span> {
    if index < n then BodySpans(left, kind, index, at, path, removed, whole) else []
  }

  lemma {:induction false} NonePending(left: Body, kind: Kind, n: nat, at: nat, path: Path, removed: set<Path>, whole: bool)
    ensures Pending(left, kind, n, n, at, path, removed, whole) == []
  {}

  lemma {:induction false} AtomHasNone(tree: Node, off: nat, path: Path, removed: set<Path>)
    ensures tree.Atom? ==> TreeOf(tree, off).members == [] && NodeSpans(tree, off, path, removed) == []
  {}

  lemma {:induction false} NothingLeft(s: string, off: nat, path: Path, removed: set<Path>, whole: bool)
    ensures var none := Done("", false, "");
      && MembersOf(none, Arr, 0, off + 1) == [] && WellBodied(none, Arr, Jsonc)
      && (off + 1 <= |s| ==> BodyCommas(s, none, off + 1))
  {}

  lemma {:induction false} NoMembersIsWhole(body: Body, kind: Kind, off: nat, path: Path, removed: set<Path>)
    ensures MembersOf(body, kind, 0, off) == [] ==>
      AllKept(body, kind, 0, path, removed) && BodySpans(body, kind, 0, off, path, removed, true) == []
  {}

  lemma {:induction false} VisitStarts(s: string, node: JsonNode, path: Path, removed: set<Path>, whole: bool, tree: Node, off: nat)
    returns (kind: Kind, left: Body)
    requires node == TreeOf(tree, off) && WellFormed(tree, Jsonc) && off + |Text(tree)| <= |s| && CommasAt(s, tree, off)
    requires whole == forall i :: 0 <= i < |node.members| ==> path + [node.members[i].key] !in removed
    ensures VisitAt(s, node, tree, kind, left, 0, off + 1)
    ensures Pending(left, kind, 0, |node.members|, off + 1, path, removed, whole) == NodeSpans(tree, off, path, removed)
  {
    hide AllKept, AnyKept, BodySpans, MembersOf, BodyText, IsGap, NoComma, CommaAt, WellHeaded;
    TextIsSolid(tree, Jsonc);
    if tree.Atom? {
      AtomHasNone(tree, off, path, removed);
      NothingLeft(s, off, path, removed, whole);
      kind, left := Arr, Done("", false, "");
    } else {
      kind, left := tree.kind, tree.body;
      assert node.members[0..] == node.members;
      NoMembersIsWhole(left, kind, off + 1, path, removed);
      FlagsMean(node.members, left, kind, 0, off + 1, path, removed);
    }
  }

  // The member at index and what follows it, in the located tree and in the tree it was located in.
  lemma {:induction false} VisitParts(s: string, node: JsonNode, tree: Node, kind: Kind, left: Body, index: nat, at: nat)
    requires VisitAt(s, node, tree, kind, left, index, at) && index < |node.members|
    ensures left.More? && left.val < tree && WellBodied(left, kind, Jsonc) && BodyCommas(s, left, at)
    ensures node.members[index] == Member(KeyOf(kind, NameOf(left.head), index), at + |left.pre|, TreeOf(left.val, ValueStart(left, at)))
    ensures WellFormed(left.val, Jsonc) && CommasAt(s, left.val, ValueStart(left, at))
    ensures node.members[index].child.end == ValueEnd(left, at) <= |s|
    ensures ValueStart(left, at) + |Text(left.val)| == ValueEnd(left, at)
    ensures index + 1 < |node.members| <==> left.next.More?
    ensures VisitAt(s, node, tree, kind, left.next, index + 1, NextOffset(left, at))
    ensures node.members[index + 1..] == MembersOf(left.next, kind, index + 1, NextOffset(left, at))
  {
    hide TreeOf, Text, HeadText, WellHeaded, IsGap, NoComma, CommasAt, WellFormed, MembersOf;
    MembersAre(left, kind, index, at);
    MembersAre(left.next, kind, index + 1, NextOffset(left, at));
    assert node.members[index] == node.members[index..][0];
    assert node.members[index..][1..] == node.members[index + 1..];
    TreeEnds(left.val, ValueStart(left, at));
    BodyTextSize(left, at);
  }

  // Where the search for a member's comma stops.
  lemma {:induction false} VisitFollowing(s: string, node: JsonNode, tree: Node, kind: Kind, left: Body, index: nat, at: nat)
    requires VisitAt(s, node, tree, kind, left, index, at) && index < |node.members| && left.More?
    ensures index + 1 < |node.members| ==>
      left.next.More? && node.members[index + 1].entry == NextOffset(left, at) + |left.next.pre| <= |s|
    ensures index + 1 == |node.members| ==>
      left.next.Done? && node.end > 0 && node.end - 1 == NextOffset(left, at) + |BodyText(left.next)| <= |s|
    ensures ValueEnd(left, at) <= NextOffset(left, at)
  {
    hide TreeOf, Text, HeadText, WellHeaded, IsGap, NoComma, CommasAt, WellFormed, MembersOf, ValueStart;
    MembersAre(left, kind, index, at);
    MembersAre(left.next, kind, index + 1, NextOffset(left, at));
    assert node.members[index..][1..] == node.members[index + 1..];
    BodyTextSize(left, at);
    if index + 1 < |node.members| {
      assert node.members[index + 1] == node.members[index + 1..][0];
      BodyTextSize(left.next, NextOffset(left, at));
    }
  }

  // A later member survives just when the last surviving one is later.
  lemma {:induction false} NeededLater(members: seq<Member>, body: Body, kind: Kind, idx: nat, off: nat, path: Path,
                                       removed: set<Path>, retained: seq<bool>, last: int)
    requires 0 < idx <= |members| == |retained| && members[idx..] == MembersOf(body, kind, idx, off)
    requires forall i :: 0 <= i < |retained| ==> retained[i] == (path + [members[i].key] !in removed)
    requires -1 <= last < |retained| && (last >= 0 ==> retained[last]) && forall j :: last < j < |retained| ==> !retained[j]
    ensures AnyKept(body, kind, idx, path, removed) <==> idx - 1 < last
  {
    hide AllKept, AnyKept, MembersOf;
    FlagsMean(members, body, kind, idx, off, path, removed);
    if idx - 1 < last { assert retained[last]; }
  }

  lemma {:induction false} PendingSteps(left: Body, kind: Kind, index: nat, n: nat, at: nat, path: Path, removed: set<Path>, whole: bool)
    requires left.More? && index < n && (index + 1 < n <==> left.next.More?)
    ensures Pending(left, kind, index, n, at, path, removed, whole)
      == (OwnSpans(left, kind, index, at, path, removed) + AfterSpans(left, kind, index, at, path, removed, whole))
         + Pending(left.next, kind, index + 1, n, NextOffset(left, at), path, removed, whole)
  {}

  /* ---- delete_json_members ---- */

  // The tree of a text the JSONC grammar accepts.
  ghost function DocumentOf(text: string): Document
    requires ParseDocument(text, Jsonc).Got?
  {
    ParseDocument(text, Jsonc).val
  }

  // Removes members from a text, keeping every other byte but the commas that went with them. The text is
  // one load_json has accepted; the result is None only for texts it would not have.
  method DeleteJsonMembers(text: string, removed: set<Path>) returns (r: Option<string>)
    requires LoadJson(text).Some?
    ensures ParseDocument(text, Jsonc).Got? && r.Some?
    ensures var doc := DocumentOf(text);
      && r.value == Keep(text, 0, NodeSpans(doc.root, |doc.lead|, [], removed))
      && r.value == DocumentText(CutDocument(doc, removed))
    ensures LoadJson(r.value) == Some(Prune(LoadJson(text).value, [], removed))
  {
    hide Lexes, Mask, MaskComments, WellFormed, Text, NodeSpans, Keep, TreeOf, Cut, Prune, Meaning, Unique, CommasAt;
    ghost var doc, strict := Documents(text);
    var masks := JsoncText(text);
    if masks.None? { return None; }
    var (masked, commentsMasked) := masks.value;
    var tree := JsonTree(masked, 0, strict.lead, strict.root, strict.trail);
    var spans := Visit(commentsMasked, tree, [], removed, doc.root, |doc.lead|);
    SpansFit(doc, text, removed);
    var output := WithoutSpans(text, spans);
    CutDocumentTexts(doc, removed, Jsonc);
    LoadOfCut(doc, removed);
    r := Some(output);
  }

  // What the parsers found: the tree of the text, and the tree of the masked text, in the same places.
  lemma {:induction false} Documents(text: string) returns (doc: Document, strict: Document)
    requires LoadJson(text).Some?
    ensures Lexes(text) && ParseDocument(text, Jsonc) == Got(doc, "") && text == DocumentText(doc)
    ensures WellDocumented(doc, Jsonc) && Unique(Meaning(doc.root)) && LoadJson(text) == Some(Meaning(doc.root))
    ensures Mask(text)[0..] == strict.lead + Write(strict.root, strict.trail)
    ensures IsGap(strict.lead, Json) && WellFormed(strict.root, Json) && Follows(strict.root, strict.trail)
    ensures TreeOf(strict.root, |strict.lead|) == TreeOf(doc.root, |doc.lead|)
    ensures CommasAt(MaskComments(text), doc.root, |doc.lead|)
  {
    hide Lexes, Mask, MaskComments, WellFormed, Text, TreeOf, Meaning, Unique, CommasAt, ParseDocument, IsGap, Gap, Write, Same;
    LoadIsJsonc(text);
    AgreeOnDocument(text);
    doc, strict := ParseDocument(text, Jsonc).val, ParseDocument(Mask(text), Json).val;
    DocumentSound(text, Jsonc);
    DocumentSound(Mask(text), Json);
    SameTree(strict.root, doc.root, |doc.lead|);
    DocumentWritten(strict);
    TrailFollows(strict, Json);
    GotDocument(text, Jsonc);
    DocumentCommas(doc);
    assert Mask(text)[0..] == Mask(text);
  }

  lemma {:induction false} GotDocument(s: string, d: Dialect)
    ensures ParseDocument(s, d).Got? ==> ParseDocument(s, d).rest == ""
  {}

  lemma {:induction false} TrailFollows(doc: Document, d: Dialect)
    requires Gap(doc.trail, d) == |doc.trail|
    ensures Follows(doc.root, doc.trail)
  {}

  lemma {:induction false} DocumentCommas(doc: Document)
    requires WellDocumented(doc, Jsonc)
    ensures Lexes(DocumentText(doc)) && CommasAt(MaskComments(DocumentText(doc)), doc.root, |doc.lead|)
  {
    hide Lexes, MaskComments, WellFormed, Text, Write, IsGap, CommasAt, Gap, NoComma;
    var u := Write(doc.root, doc.trail);
    DocumentLexes(doc);
    var s := MaskComments(DocumentText(doc));
    DocumentWritten(doc);
    TrailLexes(doc.trail);
    NodeLexes(doc.root, doc.trail);
    assert s[0..] == s;
    ReadsGap(s, 0, doc.lead, u);
    ReadsNode(s, |doc.lead|, doc.root, doc.trail);
  }

  lemma {:induction false} SpansFit(doc: Document, text: string, removed: set<Path>)
    requires text == DocumentText(doc) && WellDocumented(doc, Jsonc)
    ensures |doc.lead| + |Text(doc.root)| <= |text|
    ensures forall s :: s in NodeSpans(doc.root, |doc.lead|, [], removed) ==> s.start <= s.end <= |text|
  {
    hide NodeSpans, Text, WellFormed, IsGap, Gap;
    var spans := NodeSpans(doc.root, |doc.lead|, [], removed);
    NodeSpansWithin(doc.root, |doc.lead|, [], removed, Jsonc);
    forall s | s in spans ensures s.start <= s.end <= |text| {
      var i :| 0 <= i < |spans| && spans[i] == s;
    }
  }
}
