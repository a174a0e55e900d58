/**
 The grammar, twice over: as concrete syntax trees that can be written out again, and as a recursive
 descent parser. The dialect Json is RFC 8259; Jsonc adds comments and trailing commas.
 */
module Syntax {
  import opened Lexical

  datatype Dialect = Json | Jsonc

  datatype Kind = Arr | Obj

  function Opening(kind: Kind): char { if kind.Arr? then '[' else '{' }

  function Closing(kind: Kind): char { if kind.Arr? then ']' else '}' }

  // What stands before a member's value: nothing in an array, a key and a colon in an object.
  datatype Head = Position | Field(literal: string, before: string, after: string)

  datatype Node =
    | Atom(raw: string)
    | Box(kind: Kind, body: Body)

  // The members of a container. A comma separates a member from a following More. Done is what stands
  // before the closing bracket: a gap, perhaps with one stray comma in it.
  datatype Body =
    | Done(before: string, stray: bool, after: string)
    | More(pre: string, head: Head, val: Node, post: string, next: Body)

  datatype Document = Document(lead: string, root: Node, trail: string)

  /* ---- writing a tree out ---- */

  function HeadText(head: Head): string {
    match head
    case Position => ""
    case Field(literal, before, after) => literal + before + ":" + after
  }

  function Text(node: Node): string {
    match node
    case Atom(raw) => raw
    case Box(kind, body) => [Opening(kind)] + BodyText(body) + [Closing(kind)]
  }

  function Comma(present: bool): string { if present then "," else "" }

  function BodyText(body: Body): string {
    match body
    case Done(before, stray, after) => before + Comma(stray) + after
    case More(pre, head, val, post, next) =>
      pre + (HeadText(head) + (Text(val) + (post + (Comma(next.More?) + BodyText(next)))))
  }

  function DocumentText(doc: Document): string { doc.lead + Text(doc.root) + doc.trail }

  /* ---- parsing ---- */

  datatype Parsed<+T> = Fail | Got(val: T, rest: string)

  // Length of the longest gap s starts with.
  function Gap(s: string, d: Dialect): (n: nat)
    ensures n <= |s|
  {
    if s == "" then 0
    else if IsWs(s[0]) then 1 + Gap(s[1..], d)
    else if d.Jsonc? && CommentLen(s) > 0 then CommentLen(s) + Gap(s[CommentLen(s)..], d)
    else 0
  }

  function ParseHead(s: string, kind: Kind, d: Dialect): (p: Parsed<Head>)
    ensures p.Got? ==> |p.rest| <= |s|
  {
    if kind.Arr? then Got(Position, s)
    else
      var n := StringLen(s);
      if n == 0 then Fail else ParseColon(s[..n], s[n..], d)
  }

  // The rest of an object member's head, after its key.
  function ParseColon(key: string, s: string, d: Dialect): (p: Parsed<Head>)
    ensures p.Got? ==> |p.rest| <= |s|
  {
    var g := Gap(s, d);
    if g == |s| || s[g] != ':' then Fail
    else
      var u := s[g + 1..];
      Got(Field(key, s[..g], u[..Gap(u, d)]), u[Gap(u, d)..])
  }

  // The end of a container: its closing bracket, in Jsonc perhaps after one comma.
  function ParseEnd(s: string, kind: Kind, d: Dialect): (p: Parsed<Body>)
    ensures p.Got? ==> |p.rest| < |s| && p.val.Done?
  {
    var g := Gap(s, d);
    var u := s[g..];
    if u == "" then Fail
    else if u[0] == Closing(kind) then Got(Done(s[..g], false, ""), u[1..])
    else if d.Jsonc? && u[0] == ',' then
      var w := u[1..];
      var k := Gap(w, d);
      if k < |w| && w[k] == Closing(kind) then Got(Done(s[..g], true, w[..k]), w[k + 1..]) else Fail
    else Fail
  }

  function ParseValue(s: string, d: Dialect): (p: Parsed<Node>)
    ensures p.Got? ==> |p.rest| < |s|
    decreases |s|, 0
  {
    if s != "" && (s[0] == '[' || s[0] == '{') then
      var kind := if s[0] == '[' then Arr else Obj;
      var end := ParseEnd(s[1..], kind, d);
      var body := if end.Got? then end else ParseMembers(s[1..], kind, d);
      if body.Got? then Got(Box(kind, body.val), body.rest) else Fail
    else
      var n := AtomLen(s);
      if n == 0 then Fail else Got(Atom(s[..n]), s[n..])
  }

  // One member and whatever follows it up to and including the closing bracket.
  function ParseMembers(s: string, kind: Kind, d: Dialect): (p: Parsed<Body>)
    ensures p.Got? ==> |p.rest| < |s|
    decreases |s|, 1
  {
    var g := Gap(s, d);
    var head := ParseHead(s[g..], kind, d);
    if head.Fail? then Fail
    else
      var val := ParseValue(head.rest, d);
      if val.Fail? then Fail
      else
        var tail := ParseTail(val.rest, kind, d);
        if tail.Fail? then Fail
        else Got(More(s[..g], head.val, val.val, tail.val.0, tail.val.1), tail.rest)
  }

  // What follows a member: the end of the container, or a comma and more members.
  function ParseTail(s: string, kind: Kind, d: Dialect): (p: Parsed<(string, Body)>)
    ensures p.Got? ==> |p.rest| < |s|
    decreases |s|, 0
  {
    var end := ParseEnd(s, kind, d);
    var g := Gap(s, d);
    if end.Got? then Got(("", end.val), end.rest)
    else if g == |s| || s[g] != ',' then Fail
    else
      var next := ParseMembers(s[g + 1..], kind, d);
      if next.Fail? then Fail else Got((s[..g], next.val), next.rest)
  }

  // A whole text: one value with gaps around it.
  function ParseDocument(s: string, d: Dialect): (p: Parsed<Document>) {
    var g := Gap(s, d);
    var root := ParseValue(s[g..], d);
    if root.Got? && Gap(root.rest, d) == |root.rest| then Got(Document(s[..g], root.val, root.rest), "")
    else Fail
  }

  /* ---- trees the parser can return ---- */

  // A comment that is over before the end of s, whatever follows s.
  predicate ClosedComment(s: string) {
    CommentLen(s) > 0 && (OpensLine(s) ==> CommentLen(s) < |s|)
  }

  predicate IsGap(g: string, d: Dialect) {
    g == ""
    || (IsWs(g[0]) && IsGap(g[1..], d))
    || (d.Jsonc? && ClosedComment(g) && IsGap(g[CommentLen(g)..], d))
  }

  predicate IsLiteral(s: string) { s != "" && StringLen(s) == |s| }

  predicate IsAtom(s: string) { s != "" && AtomLen(s) == |s| }

  predicate WellHeaded(head: Head, kind: Kind, d: Dialect) {
    match head
    case Position => kind.Arr?
    case Field(literal, before, after) => kind.Obj? && IsLiteral(literal) && IsGap(before, d) && IsGap(after, d)
  }

  predicate WellFormed(node: Node, d: Dialect) {
    match node
    case Atom(raw) => IsAtom(raw)
    case Box(kind, body) => WellBodied(body, kind, d)
  }

  predicate WellBodied(body: Body, kind: Kind, d: Dialect) {
    match body
    case Done(before, stray, after) =>
      IsGap(before, d) && IsGap(after, d) && (stray ==> d.Jsonc?) && (!stray ==> after == "")
    case More(pre, head, val, post, next) =>
      && IsGap(pre, d) && WellHeaded(head, kind, d) && WellFormed(val, d) && IsGap(post, d)
      && (next.Done? ==> post == "") && WellBodied(next, kind, d)
  }
}
