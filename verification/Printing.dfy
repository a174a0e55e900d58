/**
 Parsing and writing out are inverse: what the parser returns is well formed and writes back to the text
 that was read, and every well-formed tree is read back from its text, whatever follows it.
 */
module Printing {
  import opened Lexical
  import opened Masking
  import opened Syntax

  /* ---- writing in front of a given rest ---- */

  function WriteHead(head: Head, r: string): string {
    match head
    case Position => r
    case Field(literal, before, after) => literal + (before + (":" + (after + r)))
  }

  function Write(node: Node, r: string): string {
    match node
    case Atom(raw) => raw + r
    case Box(kind, body) => [Opening(kind)] + WriteBody(body, [Closing(kind)] + r)
  }

  function WriteBody(body: Body, r: string): string {
    match body
    case Done(before, stray, after) => before + (Comma(stray) + (after + r))
    case More(pre, head, val, post, next) =>
      pre + WriteHead(head, Write(val, post + (Comma(next.More?) + WriteBody(next, r))))
  }

  lemma {:induction false} WriteHeadIsText(head: Head, r: string)
    ensures WriteHead(head, r) == HeadText(head) + r
  {}

  lemma {:induction false} Regroup(a: string, b: string, c: string, e: string, f: string, r: string)
    ensures a + (b + (c + (e + (f + r)))) == (a + (b + (c + (e + f)))) + r
  {
    var x := e + f;
    assert e + (f + r) == x + r;
    assert c + (x + r) == (c + x) + r;
    assert b + ((c + x) + r) == (b + (c + x)) + r;
  }

  lemma {:induction false} WriteIsText(node: Node, r: string)
    ensures Write(node, r) == Text(node) + r
  {
    if node.Box? { WriteBodyIsText(node.body, [Closing(node.kind)] + r); }
  }

  lemma {:induction false} WriteBodyIsText(body: Body, r: string)
    ensures WriteBody(body, r) == BodyText(body) + r
  {
    match body
    case Done(before, stray, after) =>
    case More(pre, head, val, post, next) =>
      hide HeadText, WriteHead, Text, Write;
      WriteBodyIsText(next, r);
      var t := Comma(next.More?) + BodyText(next);
      assert Comma(next.More?) + (BodyText(next) + r) == t + r;
      WriteIsText(val, post + (t + r));
      WriteHeadIsText(head, Text(val) + (post + (t + r)));
      Regroup(pre, HeadText(head), Text(val), post, t, r);
  }

  /* ---- gaps ---- */

  lemma {:induction false} CommentLocal(g: string, x: string)
    requires ClosedComment(g)
    ensures CommentLen(g + x) == CommentLen(g)
  {
    assert (g + x)[2..] == g[2..] + x;
    if OpensLine(g) {
      LineLocal(g[2..], x);
    } else {
      var k := BlockLen(g[2..]);
      BlockLocal(g[2..], g[2..][k..] + x);
      assert g[2..] + x == g[2..][..k] + (g[2..][k..] + x);
    }
  }

  // Length of the first lexeme of a gap.
  function FirstLen(g: string): nat {
    if g != "" && IsWs(g[0]) then 1 else CommentLen(g)
  }

  // A gap in front of u: its first lexeme, then a shorter gap in front of u.
  lemma {:induction false} GapUncons(g: string, u: string, d: Dialect)
    requires IsGap(g, d) && g != ""
    ensures 0 < FirstLen(g) <= |g| && IsGap(g[FirstLen(g)..], d)
    ensures (g + u)[FirstLen(g)..] == g[FirstLen(g)..] + u
    ensures Gap(g + u, d) == FirstLen(g) + Gap(g[FirstLen(g)..] + u, d)
    ensures IsGap(g[FirstLen(g)..] + u, d) ==> IsGap(g + u, d)
    ensures g + u != "" && LexemeLen(g + u) == FirstLen(g)
    ensures Lexes(g[FirstLen(g)..] + u) ==> Lexes(g + u)
  {
    if !IsWs(g[0]) { CommentLocal(g, u); }
    var n := FirstLen(g);
    assert (g + u)[n..] == g[n..] + u;
    FirstStays(g, u, d);
  }

  lemma {:induction false} FirstStays(g: string, u: string, d: Dialect)
    requires g != "" && (IsWs(g[0]) || (d.Jsonc? && ClosedComment(g))) && (g + u)[FirstLen(g)..] == g[FirstLen(g)..] + u
    ensures IsGap(g[FirstLen(g)..] + u, d) ==> IsGap(g + u, d)
  {
    if !IsWs(g[0]) { CommentLocal(g, u); }
  }

  lemma {:induction false} GapAppend(g: string, u: string, d: Dialect)
    requires IsGap(g, d)
    ensures Gap(g + u, d) == |g| + Gap(u, d)
  {
    hide IsGap, Gap, LexemeLen, FirstLen, Lexes;
    if g == "" {
      assert g + u == u;
    } else {
      GapUncons(g, u, d);
      GapAppend(g[FirstLen(g)..], u, d);
    }
  }

  lemma {:induction false} GapConcat(g: string, h: string, d: Dialect)
    requires IsGap(g, d) && IsGap(h, d)
    ensures IsGap(g + h, d)
  {
    hide IsGap, Gap, LexemeLen, FirstLen, Lexes;
    if g == "" {
      assert g + h == h;
    } else {
      GapUncons(g, h, d);
      GapConcat(g[FirstLen(g)..], h, d);
    }
  }

  lemma {:induction false} LinePrefix(s: string, m: nat)
    requires LineLen(s) < m <= |s|
    ensures LineLen(s[..m]) == LineLen(s)
  {
    if s[0] != '\n' {
      LinePrefix(s[1..], m - 1);
      assert s[..m][1..] == s[1..][..m - 1];
    }
  }

  lemma {:induction false} LineStops(s: string)
    ensures LineLen(s) == |s| || s[LineLen(s)] == '\n'
  {
    if s != "" && s[0] != '\n' { LineStops(s[1..]); }
  }

  lemma {:induction false} CommentPrefix(s: string, m: nat)
    requires 0 < CommentLen(s) <= m <= |s| && (OpensLine(s) ==> CommentLen(s) < m)
    ensures ClosedComment(s[..m]) && CommentLen(s[..m]) == CommentLen(s)
  {
    assert s[..m][2..] == s[2..][..m - 2];
    if OpensLine(s) {
      LinePrefix(s[2..], m - 2);
    } else {
      var k := BlockLen(s[2..]);
      BlockLocal(s[2..], s[2..][k..m - 2]);
      assert s[2..][..m - 2] == s[2..][..k] + s[2..][k..m - 2];
    }
  }

  // A gap that something follows is closed.
  lemma {:induction false} GapSound(s: string, d: Dialect)
    requires Gap(s, d) < |s|
    ensures IsGap(s[..Gap(s, d)], d)
  {
    var n := Gap(s, d);
    if IsWs(s[0]) {
      GapSound(s[1..], d);
      assert s[..n][1..] == s[1..][..n - 1];
    } else if d.Jsonc? && CommentLen(s) > 0 {
      var k := CommentLen(s);
      if OpensLine(s) {
        LineStops(s[2..]);
        assert s[k] == s[2..][k - 2];
        assert s[k..][0] == s[k];
      }
      GapSound(s[k..], d);
      CommentPrefix(s, n);
      assert s[..n][k..] == s[k..][..n - k];
    }
  }

  /* ---- reading back what was written ---- */

  // What may follow a node: a scalar must not run on.
  predicate Follows(node: Node, r: string) {
    node.Atom? && node.raw != "" && node.raw[0] != '"' ==> r == "" || !IsScalarChar(r[0])
  }

  // The characters a value or a key starts with.
  predicate Starts(s: string) {
    s != "" && (s[0] == '"' || s[0] == '[' || s[0] == '{' || IsScalarChar(s[0]))
  }

  lemma {:induction false} StartIsSolid(s: string, d: Dialect)
    requires s != "" && (Starts(s) || s[0] == ':' || s[0] == ',' || s[0] == ']' || s[0] == '}')
    ensures Gap(s, d) == 0 && s[0..] == s
  {}

  lemma {:induction false} WriteStarts(node: Node, r: string, d: Dialect)
    requires WellFormed(node, d)
    ensures Starts(Write(node, r))
  {}

  lemma {:induction false} GapThen(g: string, u: string, d: Dialect)
    requires IsGap(g, d) && u != ""
    requires Starts(u) || u[0] == ':' || u[0] == ',' || u[0] == ']' || u[0] == '}'
    ensures Gap(g + u, d) == |g| && (g + u)[..|g|] == g && (g + u)[|g|..] == u
  {
    GapAppend(g, u, d);
    StartIsSolid(u, d);
  }

  lemma {:induction false} EndReads(body: Body, kind: Kind, r: string, d: Dialect)
    requires body.Done? && WellBodied(body, kind, d)
    ensures ParseEnd(WriteBody(body, [Closing(kind)] + r), kind, d) == Got(body, r)
  {
    hide Gap, IsGap;
    var z := [Closing(kind)] + r;
    assert z[1..] == r;
    GapThen(body.after, z, d);
    if body.stray {
      var w := body.after + z;
      var u := "," + w;
      assert u[1..] == w && w[|body.after| + 1..] == z[1..];
      GapThen(body.before, u, d);
    } else {
      assert body.after + z == z;
      assert Comma(false) + z == z;
      GapThen(body.before, z, d);
    }
  }

  lemma {:induction false} HeadReads(head: Head, kind: Kind, u: string, d: Dialect)
    requires WellHeaded(head, kind, d) && Starts(u)
    ensures ParseHead(WriteHead(head, u), kind, d) == Got(head, u)
    ensures Starts(WriteHead(head, u))
  {
    if head.Field? {
      hide Gap, IsGap;
      var literal := head.literal;
      var v := head.after + u;
      var t := head.before + (":" + v);
      assert literal[..|literal|] == literal;
      StringLocal(literal, t);
      assert (literal + t)[|literal|..] == t && (literal + t)[..|literal|] == literal;
      assert (":" + v)[1..] == v;
      GapThen(head.before, ":" + v, d);
      assert t[|head.before| + 1..] == (":" + v)[1..];
      GapThen(head.after, u, d);
    }
  }

  lemma {:induction false} ValueReads(node: Node, r: string, d: Dialect)
    requires WellFormed(node, d) && Follows(node, r)
    ensures ParseValue(Write(node, r), d) == Got(node, r)
    decreases node, 0
  {
    hide ParseEnd, ParseMembers, WriteBody, WellBodied;
    match node
    case Atom(raw) =>
      assert raw[..|raw|] == raw;
      AtomLocal(raw, r);
      assert (raw + r)[..|raw|] == raw && (raw + r)[|raw|..] == r;
    case Box(kind, body) =>
      var z := WriteBody(body, [Closing(kind)] + r);
      assert ([Opening(kind)] + z)[1..] == z;
      BodyReads(body, kind, r, d);
  }

  // A gap and the start of a member do not end a container, not even after a comma.
  lemma {:induction false} NoEndAtMember(post: string, pre: string, u: string, kind: Kind, d: Dialect)
    requires IsGap(pre, d) && IsGap(post, d) && Starts(u)
    ensures ParseEnd(pre + u, kind, d) == Fail
    ensures ParseEnd(post + ("," + (pre + u)), kind, d) == Fail
    ensures Gap(post + ("," + (pre + u)), d) == |post|
    ensures (post + ("," + (pre + u)))[..|post|] == post
    ensures (post + ("," + (pre + u)))[|post|..] == "," + (pre + u)
  {
    hide Gap, IsGap;
    GapThen(pre, u, d);
    var w := "," + (pre + u);
    assert w[1..] == pre + u;
    GapThen(post, w, d);
  }

  lemma {:induction false} GapNotScalar(g: string, x: string, d: Dialect)
    requires IsGap(g, d) && x != "" && !IsScalarChar(x[0])
    ensures g + x != "" && !IsScalarChar((g + x)[0])
  {}

  // A container's body is read back by one of the two ways of reading a body.
  lemma {:induction false} BodyReads(body: Body, kind: Kind, r: string, d: Dialect)
    requires WellBodied(body, kind, d)
    ensures var s := WriteBody(body, [Closing(kind)] + r);
      if body.Done? then ParseEnd(s, kind, d) == Got(body, r)
      else ParseEnd(s, kind, d) == Fail && ParseMembers(s, kind, d) == Got(body, r)
    decreases body, 1
  {
    if body.Done? {
      EndReads(body, kind, r, d);
    } else {
      MembersRead(body, kind, r, d);
    }
  }

  // How a body with a member in it is written: a gap and the start of a member.
  lemma {:induction false} MemberStarts(body: Body, kind: Kind, r: string, d: Dialect) returns (u: string)
    requires WellBodied(body, kind, d) && body.More?
    ensures u != "" && Starts(u) && IsGap(body.pre, d) && IsGap("", d) && WriteBody(body, r) == body.pre + u
    ensures var tail := body.post + (Comma(body.next.More?) + WriteBody(body.next, r));
      u == WriteHead(body.head, Write(body.val, tail)) && ParseHead(u, kind, d) == Got(body.head, Write(body.val, tail))
  {
    hide Gap, Starts, ParseHead, WellHeaded, WriteHead, Write, WellFormed;
    var tail := body.post + (Comma(body.next.More?) + WriteBody(body.next, r));
    WriteStarts(body.val, tail, d);
    u := WriteHead(body.head, Write(body.val, tail));
    HeadReads(body.head, kind, Write(body.val, tail), d);
  }

  lemma {:induction false} MembersRead(body: Body, kind: Kind, r: string, d: Dialect)
    requires WellBodied(body, kind, d) && body.More?
    ensures var s := WriteBody(body, [Closing(kind)] + r);
      ParseEnd(s, kind, d) == Fail && ParseMembers(s, kind, d) == Got(body, r)
    decreases body, 0
  {
    hide Gap, IsGap, Starts, ParseHead, ParseEnd, ParseTail, ParseValue, WellHeaded, WriteHead, Write, WriteBody, WellFormed;
    var z := [Closing(kind)] + r;
    var u := MemberStarts(body, kind, z, d);
    NoEndAtMember("", body.pre, u, kind, d);
    GapThen(body.pre, u, d);
    TailReads(body.post, body.next, kind, r, d);
    ValueReads(body.val, body.post + (Comma(body.next.More?) + WriteBody(body.next, z)), d);
  }

  lemma {:induction false} TailReads(post: string, next: Body, kind: Kind, r: string, d: Dialect)
    requires IsGap(post, d) && WellBodied(next, kind, d) && (next.Done? ==> post == "")
    ensures var s := post + (Comma(next.More?) + WriteBody(next, [Closing(kind)] + r));
      ParseTail(s, kind, d) == Got((post, next), r) && s != "" && !IsScalarChar(s[0])
    decreases next, 1
  {
    hide Gap, IsGap, Starts, ParseHead, ParseEnd, ParseMembers, ParseValue, WriteBody;
    var z := [Closing(kind)] + r;
    var w := WriteBody(next, z);
    if next.Done? {
      assert post + (Comma(false) + w) == w;
      EndReads(next, kind, r, d);
      EndNotScalar(next, kind, r, d);
    } else {
      MembersRead(next, kind, r, d);
      var u := MemberStarts(next, kind, z, d);
      NoEndAtMember(post, next.pre, u, kind, d);
      GapNotScalar(post, "," + w, d);
      assert (post + ("," + w))[|post| + 1..] == w;
    }
  }

  lemma {:induction false} EndNotScalar(body: Body, kind: Kind, r: string, d: Dialect)
    requires body.Done? && WellBodied(body, kind, d)
    ensures var s := WriteBody(body, [Closing(kind)] + r); s != "" && !IsScalarChar(s[0])
  {
    var z := [Closing(kind)] + r;
    GapNotScalar(body.after, z, d);
    assert Comma(false) + (body.after + z) == body.after + z;
    GapNotScalar(body.before, Comma(body.stray) + (body.after + z), d);
  }

  /* ---- writing back what was read ---- */

  lemma {:induction false} AtomSound(s: string)
    requires AtomLen(s) > 0
    ensures IsAtom(s[..AtomLen(s)]) && (s[0] == '"' ==> IsLiteral(s[..AtomLen(s)]))
  {
    var n := AtomLen(s);
    AtomLocal(s, "");
    assert s[..n] + "" == s[..n];
    assert s[0] == '"' ==> s[..n][0] == '"';
  }

  lemma {:induction false} HeadSound(s: string, kind: Kind, d: Dialect)
    requires ParseHead(s, kind, d).Got? && ParseHead(s, kind, d).rest != ""
    ensures var p := ParseHead(s, kind, d); WellHeaded(p.val, kind, d) && s == WriteHead(p.val, p.rest)
  {
    if kind.Obj? {
      hide Gap, IsGap, StringLen, IsLiteral;
      var n := StringLen(s);
      KeySound(s);
      ColonSound(s[..n], s[n..], d);
      assert s == s[..n] + s[n..];
    }
  }

  lemma {:induction false} ColonSound(key: string, s: string, d: Dialect)
    requires ParseColon(key, s, d).Got? && ParseColon(key, s, d).rest != ""
    ensures var p := ParseColon(key, s, d);
      p.val.Field? && p.val.literal == key && IsGap(p.val.before, d) && IsGap(p.val.after, d)
      && s == p.val.before + (":" + (p.val.after + p.rest))
  {
    hide Gap, IsGap;
    var g := Gap(s, d);
    var u := s[g + 1..];
    GapSound(s, d);
    GapSound(u, d);
    Halves(u, Gap(u, d));
    Halves(s, g);
    FirstAndRest(s[g..]);
    assert s[g..][1..] == u;
  }

  lemma {:induction false} Halves(s: string, n: nat)
    requires n <= |s|
    ensures s == s[..n] + s[n..]
  {}

  lemma {:induction false} KeySound(s: string)
    requires StringLen(s) > 0
    ensures IsLiteral(s[..StringLen(s)])
  {
    AtomSound(s);
  }

  lemma {:induction false} EndSound(s: string, kind: Kind, d: Dialect)
    requires ParseEnd(s, kind, d).Got?
    ensures var p := ParseEnd(s, kind, d);
      WellBodied(p.val, kind, d) && s == WriteBody(p.val, [Closing(kind)] + p.rest)
  {
    hide Gap, IsGap, WriteBody;
    var g := Gap(s, d);
    GapSound(s, d);
    EmptyIsGap(d);
    var u := s[g..];
    Halves(s, g);
    if u[0] == Closing(kind) {
      PlainEndText(s[..g], u, kind);
    } else {
      StrayEnd(u[1..], kind, d);
      StrayEndText(s[..g], u, Gap(u[1..], d), kind);
    }
  }

  lemma {:induction false} PlainEndText(before: string, u: string, kind: Kind)
    requires u != "" && u[0] == Closing(kind)
    ensures WriteBody(Done(before, false, ""), [Closing(kind)] + u[1..]) == before + u
  {
    FirstAndRest(u);
    assert Comma(false) + ("" + u) == u;
  }

  lemma {:induction false} StrayEndText(before: string, u: string, k: nat, kind: Kind)
    requires u != "" && u[0] == ',' && k < |u[1..]| && u[1..][k] == Closing(kind)
    ensures WriteBody(Done(before, true, u[1..][..k]), [Closing(kind)] + u[1..][k + 1..]) == before + u
  {
    FirstAndRest(u);
    var w := u[1..];
    assert w == w[..k] + ([Closing(kind)] + w[k + 1..]);
  }

  lemma {:induction false} FirstAndRest(u: string)
    requires u != ""
    ensures u == [u[0]] + u[1..]
  {}

  lemma {:induction false} StrayEnd(w: string, kind: Kind, d: Dialect)
    requires Gap(w, d) < |w| && w[Gap(w, d)] == Closing(kind)
    ensures IsGap(w[..Gap(w, d)], d)
  {
    GapSound(w, d);
  }

  lemma {:induction false} EmptyIsGap(d: Dialect)
    ensures IsGap("", d)
  {}

  lemma {:induction false} ValueSound(s: string, d: Dialect)
    requires ParseValue(s, d).Got?
    ensures var p := ParseValue(s, d); WellFormed(p.val, d) && s == Write(p.val, p.rest)
    decreases |s|, 0
  {
    hide ParseEnd, ParseMembers, WriteBody, WellBodied, IsAtom;
    if s[0] == '[' || s[0] == '{' {
      var kind := if s[0] == '[' then Arr else Obj;
      assert s == [Opening(kind)] + s[1..];
      if ParseEnd(s[1..], kind, d).Got? { EndSound(s[1..], kind, d); } else { MembersSound(s[1..], kind, d); }
    } else {
      AtomSound(s);
      assert s == s[..AtomLen(s)] + s[AtomLen(s)..];
    }
  }

  lemma {:induction false} MembersSound(s: string, kind: Kind, d: Dialect)
    requires ParseMembers(s, kind, d).Got?
    ensures var p := ParseMembers(s, kind, d);
      WellBodied(p.val, kind, d) && s == WriteBody(p.val, [Closing(kind)] + p.rest)
    decreases |s|, 1
  {
    hide Gap, IsGap, WellHeaded, WriteHead, Write, ParseHead, ParseTail, ParseValue, WellFormed;
    var g := Gap(s, d);
    var head := ParseHead(s[g..], kind, d);
    var val := ParseValue(head.rest, d);
    GapSound(s, d);
    assert s == s[..g] + s[g..];
    HeadSound(s[g..], kind, d);
    ValueSound(head.rest, d);
    TailSound(val.rest, kind, d);
  }

  lemma {:induction false} TailSound(s: string, kind: Kind, d: Dialect)
    requires ParseTail(s, kind, d).Got?
    ensures var p := ParseTail(s, kind, d);
      var (post, next) := p.val;
      IsGap(post, d) && WellBodied(next, kind, d) && (next.Done? ==> post == "")
      && s == post + (Comma(next.More?) + WriteBody(next, [Closing(kind)] + p.rest))
    decreases |s|, 0
  {
    hide Gap, IsGap, ParseMembers, ParseEnd, WriteBody, WellBodied;
    if ParseEnd(s, kind, d).Got? {
      EndSound(s, kind, d);
      EmptyIsGap(d);
      assert "" + (Comma(false) + s) == s;
    } else {
      var g := Gap(s, d);
      GapSound(s, d);
      assert s == s[..g] + ("," + s[g + 1..]);
      MembersSound(s[g + 1..], kind, d);
      MembersAreMore(s[g + 1..], kind, d);
    }
  }

  lemma {:induction false} MembersAreMore(s: string, kind: Kind, d: Dialect)
    requires ParseMembers(s, kind, d).Got?
    ensures ParseMembers(s, kind, d).val.More?
  {}

  /* ---- the first masking pass gets through written-out trees ---- */

  lemma {:induction false} GapLexes(g: string, u: string)
    requires IsGap(g, Jsonc) && Lexes(u)
    ensures Lexes(g + u)
  {
    hide IsGap, Gap, LexemeLen, FirstLen, Lexes;
    if g == "" {
      assert g + u == u;
    } else {
      GapUncons(g, u, Jsonc);
      GapLexes(g[FirstLen(g)..], u);
    }
  }

  lemma {:induction false} CharLexes(c: char, u: string)
    requires c != '/' && c != '"' && Lexes(u)
    ensures Lexes([c] + u)
  {
    assert ([c] + u)[1..] == u;
  }

  lemma {:induction false} RunTail(raw: string)
    requires raw != "" && Run(raw) == |raw|
    ensures IsScalarChar(raw[0]) && Run(raw[1..]) == |raw[1..]|
  {}

  lemma {:induction false} ScalarLexes(raw: string, u: string)
    requires Run(raw) == |raw| && Lexes(u)
    ensures Lexes(raw + u)
  {
    hide Run, Lexes;
    if raw == "" {
      assert raw + u == u;
    } else {
      RunTail(raw);
      ScalarLexes(raw[1..], u);
      CharLexes(raw[0], raw[1..] + u);
      assert raw + u == [raw[0]] + (raw[1..] + u);
    }
  }

  lemma {:induction false} LiteralLexes(raw: string, u: string)
    requires IsLiteral(raw) && Lexes(u)
    ensures Lexes(raw + u)
  {
    assert raw[..|raw|] == raw;
    StringLocal(raw, u);
    assert (raw + u)[|raw|..] == u;
  }

  lemma {:induction false} NodeLexes(node: Node, r: string)
    requires WellFormed(node, Jsonc) && Lexes(r)
    ensures Lexes(Write(node, r))
  {
    hide Lexes, WellBodied, WriteBody;
    match node
    case Atom(raw) => if raw[0] == '"' { LiteralLexes(raw, r); } else { ScalarLexes(raw, r); }
    case Box(kind, body) =>
      CharLexes(Closing(kind), r);
      BodyLexes(body, kind, [Closing(kind)] + r);
      CharLexes(Opening(kind), WriteBody(body, [Closing(kind)] + r));
  }

  lemma {:induction false} CommaLexes(present: bool, u: string)
    requires Lexes(u)
    ensures Lexes(Comma(present) + u)
  {
    if present { CharLexes(',', u); } else { assert "" + u == u; }
  }

  lemma {:induction false} BodyLexes(body: Body, kind: Kind, r: string)
    requires WellBodied(body, kind, Jsonc) && Lexes(r)
    ensures Lexes(WriteBody(body, r))
  {
    hide Lexes, IsGap, Write, WellFormed;
    match body
    case Done(before, stray, after) =>
      GapLexes(after, r);
      CommaLexes(stray, after + r);
      GapLexes(before, Comma(stray) + (after + r));
    case More(pre, head, val, post, next) =>
      BodyLexes(next, kind, r);
      var w := WriteBody(next, r);
      CommaLexes(next.More?, w);
      GapLexes(post, Comma(next.More?) + w);
      var t := post + (Comma(next.More?) + w);
      NodeLexes(val, t);
      var v := Write(val, t);
      match head {
        case Position =>
        case Field(literal, before, after) =>
          GapLexes(after, v);
          CharLexes(':', after + v);
          GapLexes(before, ":" + (after + v));
          LiteralLexes(literal, before + (":" + (after + v)));
      }
      GapLexes(pre, WriteHead(head, v));
  }
}
