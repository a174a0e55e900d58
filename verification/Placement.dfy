/** How the located members of json_tree lie in the text, and that they are the members the parser found. */
module Placement {
  import opened Lexical
  import opened Syntax
  import opened Values
  import opened Pruning
  import opened Spans

  // Entries and children follow one another between the brackets, and so do the members of every child. The
  // elements of an array count up from 0 and have no key text before them.
  predicate Placed(tree: JsonNode) {
    && tree.start < tree.end
    && PlacedFrom(tree.members, 0, tree.start + 1, tree.end - 1)
    && forall i :: 0 <= i < |tree.members| ==> Placed(tree.members[i].child)
  }

  predicate PlacedFrom(members: seq<Member>, idx: nat, from: int, to: int)
  {
    forall i :: 0 <= i < |members| ==> PlacedAt(members, i, idx, from, to)
  }

  predicate PlacedAt(members: seq<Member>, i: nat, idx: nat, from: int, to: int)
    requires i < |members|
  {
    var m := members[i];
    && from <= m.entry <= m.child.start < m.child.end
    && m.child.end <= (if i + 1 < |members| then members[i + 1].entry else to)
    && (m.key.Index? ==> m.key.i == idx + i && m.entry == m.child.start)
  }

  lemma {:induction false} PlacedCons(m: Member, rest: seq<Member>, idx: nat, from: int, mid: int, to: int)
    requires from <= m.entry <= m.child.start < m.child.end <= mid <= to
    requires m.key.Index? ==> m.key.i == idx && m.entry == m.child.start
    requires PlacedFrom(rest, idx + 1, mid, to)
    ensures PlacedFrom([m] + rest, idx, from, to)
  {
    var all := [m] + rest;
    forall i | 0 <= i < |all| ensures PlacedAt(all, i, idx, from, to) {
      if i > 0 {
        assert PlacedAt(rest, i - 1, idx + 1, mid, to);
      } else if |rest| > 0 {
        assert PlacedAt(rest, 0, idx + 1, mid, to);
      }
    }
  }

  lemma {:induction false} TreeIsPlaced(node: Node, off: nat, d: Dialect)
    requires WellFormed(node, d)
    ensures Placed(TreeOf(node, off))
    decreases node, 0
  {
    hide TreeOf, MembersOf, Text, BodyText, WellBodied, IsAtom;
    TreeShape(node, off, d);
    if node.Box? { MembersArePlaced(node.body, node.kind, 0, off + 1, d); }
  }

  lemma {:induction false} TreeShape(node: Node, off: nat, d: Dialect)
    requires WellFormed(node, d)
    ensures TreeOf(node, off).start == off < TreeOf(node, off).end == off + |Text(node)|
    ensures node.Atom? ==> TreeOf(node, off).members == []
    ensures node.Box? ==> TreeOf(node, off).members == MembersOf(node.body, node.kind, 0, off + 1)
    ensures node.Box? ==> TreeOf(node, off).end - 1 == off + 1 + |BodyText(node.body)|
  {}

  lemma {:induction false} MembersArePlaced(body: Body, kind: Kind, idx: nat, off: nat, d: Dialect)
    requires WellBodied(body, kind, d)
    ensures PlacedFrom(MembersOf(body, kind, idx, off), idx, off, off + |BodyText(body)|)
    ensures forall m :: m in MembersOf(body, kind, idx, off) ==> Placed(m.child)
    decreases body, 1
  {
    hide Placed, PlacedFrom, TreeOf, Text, HeadText, BodyText, MembersOf, WellFormed, IsGap, NameOf;
    MembersAre(body, kind, idx, off);
    if body.More? {
      var start := ValueStart(body, off);
      var m := Member(KeyOf(kind, NameOf(body.head), idx), off + |body.pre|, TreeOf(body.val, start));
      TreeIsPlaced(body.val, start, d);
      TreeShape(body.val, start, d);
      PositionHasNoText(body.head, kind, d);
      BodyTextSize(body, off);
      MembersArePlaced(body.next, kind, idx + 1, NextOffset(body, off), d);
      PlacedCons(m, MembersOf(body.next, kind, idx + 1, NextOffset(body, off)), idx, off, NextOffset(body, off),
                 off + |BodyText(body)|);
    } else {
      assert MembersOf(body, kind, idx, off) == [];
      NonePlaced(idx, off, off + |BodyText(body)|);
    }
  }

  lemma {:induction false} NonePlaced(idx: nat, from: int, to: int)
    ensures PlacedFrom([], idx, from, to)
  {}

  lemma {:induction false} PositionHasNoText(head: Head, kind: Kind, d: Dialect)
    requires WellHeaded(head, kind, d)
    ensures kind.Arr? ==> HeadText(head) == ""
  {}

  /* ---- the keys ---- */

  function KeysOf(items: Items, kind: Kind, idx: nat): seq<Key> {
    match items
    case Nil => []
    case Item(name, _, rest) => [KeyOf(kind, name, idx)] + KeysOf(rest, kind, idx + 1)
  }

  function MemberKeys(members: seq<Member>): (r: seq<Key>)
    ensures |r| == |members|
  {
    seq(|members|, i requires 0 <= i < |members| => members[i].key)
  }

  // The located keys are those of the parsed value, in its order; in an array they count the elements.
  lemma {:induction false} KeysInOrder(body: Body, kind: Kind, idx: nat, off: nat)
    ensures MemberKeys(MembersOf(body, kind, idx, off)) == KeysOf(ItemsOf(body), kind, idx)
  {
    hide TreeOf, HeadText, Text, NextOffset, MemberKeys;
    if body.More? {
      var rest := MembersOf(body.next, kind, idx + 1, NextOffset(body, off));
      KeysInOrder(body.next, kind, idx + 1, NextOffset(body, off));
      KeysOfFirst(MembersOf(body, kind, idx, off)[0], rest);
    }
  }

  lemma {:induction false} KeysOfFirst(first: Member, rest: seq<Member>)
    ensures MemberKeys([first] + rest) == [first.key] + MemberKeys(rest)
  {}

  /* ---- what lies between the members ---- */

  predicate Between(s: string, from: int, to: int) {
    0 <= from <= to <= |s| && forall i :: from <= i < to ==> IsWs(s[i]) || s[i] == ','
  }

  // In front of a field's value: a string literal, then spaces and a colon. In front of an element: nothing.
  predicate KeyText(s: string, m: Member) {
    && 0 <= m.entry <= m.child.start <= |s|
    && (m.key.Index? ==> m.entry == m.child.start)
    && (m.key.Named? ==>
        var n := StringLen(s[m.entry..m.child.start]);
        n > 0 && forall i :: m.entry + n <= i < m.child.start ==> IsWs(s[i]) || s[i] == ':')
  }

  // Between the brackets of every container there are its members and, around them, spaces and commas.
  predicate Separated(s: string, tree: JsonNode) {
    && 0 <= tree.start < |s|
    && (s[tree.start] == '[' || s[tree.start] == '{' ==> SeparatedFrom(s, tree.members, tree.start + 1, tree.end - 1))
    && forall i :: 0 <= i < |tree.members| ==> Separated(s, tree.members[i].child)
  }

  predicate SeparatedFrom(s: string, members: seq<Member>, from: int, to: int) {
    if members == [] then Between(s, from, to)
    else
      && Between(s, from, members[0].entry) && KeyText(s, members[0])
      && SeparatedFrom(s, members[1..], members[0].child.end, to)
  }

  lemma {:induction false} GapSeparates(g: string)
    requires IsGap(g, Json)
    ensures forall i :: 0 <= i < |g| ==> IsWs(g[i])
  {
    if g != "" { GapSeparates(g[1..]); }
  }

  predicate ReadsAt(s: string, off: nat, text: string) { off + |text| <= |s| && s[off..off + |text|] == text }

  lemma {:induction false} ReadsParts(s: string, off: nat, a: string, b: string)
    requires ReadsAt(s, off, a + b)
    ensures ReadsAt(s, off, a) && ReadsAt(s, off + |a|, b)
  {
    assert (a + b)[..|a|] == a && (a + b)[|a|..] == b;
    assert s[off..off + |a + b|][..|a|] == s[off..off + |a|];
    assert s[off..off + |a + b|][|a|..] == s[off + |a|..off + |a + b|];
  }

  lemma {:induction false} GapBetween(s: string, off: nat, g: string)
    requires ReadsAt(s, off, g) && forall i :: 0 <= i < |g| ==> IsWs(g[i]) || g[i] == ','
    ensures Between(s, off, off + |g|)
  {
    forall i | off <= i < off + |g| ensures IsWs(s[i]) || s[i] == ',' { assert s[off..off + |g|][i - off] == s[i]; }
  }

  lemma {:induction false} Wider(s: string, members: seq<Member>, from: int, mid: int, to: int)
    requires Between(s, from, mid) && SeparatedFrom(s, members, mid, to)
    ensures SeparatedFrom(s, members, from, to)
  {}

  lemma {:induction false} HeadReads(s: string, off: nat, head: Head, kind: Kind, m: Member)
    requires WellHeaded(head, kind, Json) && ReadsAt(s, off, HeadText(head))
    requires m.entry == off && m.child.start == off + |HeadText(head)| && (m.key.Index? <==> kind.Arr?)
    ensures KeyText(s, m)
  {
    hide IsGap, StringLen, HeadText, IsWs, IsLiteral;
    if kind.Obj? {
      var literal, rest := head.literal, head.before + ":" + head.after;
      HeadParts(head);
      assert s[m.entry..m.child.start] == literal + rest;
      LiteralReads(literal, rest);
      ReadsParts(s, off, literal, rest);
      ColonReads(s, off + |literal|, head.before, head.after);
    } else {
      assert HeadText(head) == "" by { NoHead(head, kind); }
    }
  }

  lemma {:induction false} HeadParts(head: Head)
    requires head.Field?
    ensures HeadText(head) == head.literal + (head.before + ":" + head.after)
  {}

  lemma {:induction false} NoHead(head: Head, kind: Kind)
    requires WellHeaded(head, kind, Json) && kind.Arr?
    ensures HeadText(head) == ""
  {}

  lemma {:induction false} ColonReads(s: string, off: nat, before: string, after: string)
    requires IsGap(before, Json) && IsGap(after, Json) && ReadsAt(s, off, before + ":" + after)
    ensures forall i :: off <= i < off + |before + ":" + after| ==> IsWs(s[i]) || s[i] == ':'
  {
    hide IsGap, IsWs;
    GapSeparates(before);
    GapSeparates(after);
    var text := before + ":" + after;
    forall i | off <= i < off + |text| ensures IsWs(s[i]) || s[i] == ':' {
      assert s[off..off + |text|][i - off] == s[i];
      assert text[i - off] == if i - off < |before| then before[i - off] else if i - off == |before| then ':' else after[i - off - |before| - 1];
    }
  }

  lemma {:induction false} LiteralReads(literal: string, rest: string)
    requires IsLiteral(literal)
    ensures StringLen(literal + rest) == |literal| > 0
  {
    hide StringLen;
    StringLocal(literal, rest);
    assert literal[..|literal|] == literal;
  }

  // In masked text only spaces and separators lie between the brackets and the members, at every depth.
  lemma {:induction false} TreeIsSeparated(s: string, node: Node, off: nat)
    requires WellFormed(node, Json) && ReadsAt(s, off, Text(node))
    ensures Separated(s, TreeOf(node, off))
    decreases node, 0
  {
    hide BodyText, WellBodied, IsAtom, SeparatedFrom, MembersOf;
    TextIsSolid(node, Json);
    assert s[off] == s[off..off + |Text(node)|][0];
    TreeShape(node, off, Json);
    match node
    case Atom(raw) =>
      AtomOpensNothing(raw);
    case Box(kind, body) =>
      assert Text(node) == [Opening(kind)] + (BodyText(body) + [Closing(kind)]);
      ReadsParts(s, off, [Opening(kind)], BodyText(body) + [Closing(kind)]);
      ReadsParts(s, off + 1, BodyText(body), [Closing(kind)]);
      MembersAreSeparated(s, body, kind, 0, off + 1);
  }

  lemma {:induction false} AtomOpensNothing(raw: string)
    requires IsAtom(raw)
    ensures raw[0] != '[' && raw[0] != '{'
  {}

  lemma {:induction false} MembersAreSeparated(s: string, body: Body, kind: Kind, idx: nat, off: nat)
    requires WellBodied(body, kind, Json) && ReadsAt(s, off, BodyText(body))
    ensures SeparatedFrom(s, MembersOf(body, kind, idx, off), off, off + |BodyText(body)|)
    ensures forall m :: m in MembersOf(body, kind, idx, off) ==> Separated(s, m.child)
    decreases body, 1
  {
    hide TreeOf, Text, HeadText, MembersOf, WellFormed, WellHeaded, IsGap, NameOf, Between, KeyText, Separated, ReadsAt;
    MembersAre(body, kind, idx, off);
    if body.More? {
      var More(pre, head, val, post, next) := body;
      var start := ValueStart(body, off);
      var m := Member(KeyOf(kind, NameOf(head), idx), off + |pre|, TreeOf(val, start));
      BodyTextSize(body, off);
      BodyReads(s, body, off);
      TreeShape(val, start, Json);
      GapSeparates(pre);
      GapBetween(s, off, pre);
      HeadReads(s, off + |pre|, head, kind, m);
      TreeIsSeparated(s, val, start);
      GapSeparates(post);
      GapBetween(s, ValueEnd(body, off), post + Comma(next.More?));
      MembersAreSeparated(s, next, kind, idx + 1, NextOffset(body, off));
      Wider(s, MembersOf(next, kind, idx + 1, NextOffset(body, off)), ValueEnd(body, off), NextOffset(body, off), off + |BodyText(body)|);
    } else {
      assert BodyText(body) == body.before;
      GapSeparates(body.before);
      GapBetween(s, off, body.before);
    }
  }

  lemma {:induction false} BodyReads(s: string, body: Body, off: nat)
    requires body.More? && ReadsAt(s, off, BodyText(body))
    ensures ReadsAt(s, off, body.pre) && ReadsAt(s, off + |body.pre|, HeadText(body.head))
    ensures ReadsAt(s, ValueStart(body, off), Text(body.val)) && ReadsAt(s, ValueEnd(body, off), body.post + Comma(body.next.More?))
    ensures ReadsAt(s, NextOffset(body, off), BodyText(body.next))
  {
    hide ReadsAt, Text, HeadText;
    var More(pre, head, val, post, next) := body;
    var rest := BodyText(next);
    ReadsParts(s, off, pre, HeadText(head) + (Text(val) + (post + (Comma(next.More?) + rest))));
    ReadsParts(s, off + |pre|, HeadText(head), Text(val) + (post + (Comma(next.More?) + rest)));
    ReadsParts(s, ValueStart(body, off), Text(val), post + (Comma(next.More?) + rest));
    assert post + (Comma(next.More?) + rest) == (post + Comma(next.More?)) + rest;
    ReadsParts(s, ValueEnd(body, off), post + Comma(next.More?), rest);
  }
}
