/**
 Masking implements the grammar: a strict JSON parser run over the masked text and a JSONC parser run
 over the text itself move in lockstep. They accept together, with the same keys and atoms and with
 gaps of the same lengths.
 */
module Agreement {
  import opened Lexical
  import opened Masking
  import opened Syntax

  /* ---- trees that differ only in the characters of their gaps ---- */

  predicate SameHead(a: Head, b: Head) {
    match (a, b)
    case (Position, Position) => true
    case (Field(l, p, q), Field(m, r, s)) => l == m && |p| == |r| && |q| == |s|
    case _ => false
  }

  function EndLen(body: Body): nat
    requires body.Done?
  {
    |body.before| + (if body.stray then 1 else 0) + |body.after|
  }

  predicate Same(a: Node, b: Node) {
    match (a, b)
    case (Atom(r), Atom(t)) => r == t
    case (Box(k, m), Box(l, n)) => k == l && SameBody(m, n)
    case _ => false
  }

  predicate SameBody(a: Body, b: Body) {
    match (a, b)
    case (Done(_, _, _), Done(_, _, _)) => EndLen(a) == EndLen(b)
    case (More(p, h, v, q, n), More(p', h', v', q', n')) =>
      |p| == |p'| && SameHead(h, h') && Same(v, v') && |q| == |q'| && SameBody(n, n')
    case _ => false
  }

  /* ---- gaps ---- */

  // t is g whitespace characters, then rest.
  predicate WsThen(t: string, g: nat, rest: string) {
    g <= |t| && t[g..] == rest && forall i :: 0 <= i < g ==> IsWs(t[i])
  }

  lemma {:induction false} WsJoin(t: string, n: nat, mid: string, g: nat, rest: string)
    requires WsThen(t, n, mid) && WsThen(mid, g, rest)
    ensures WsThen(t, n + g, rest)
  {
    assert t[n..][g..] == t[n + g..];
    forall i | n <= i < n + g ensures IsWs(t[i]) { assert t[i] == mid[i - n]; }
  }

  lemma {:induction false} GapOver(t: string, g: nat, rest: string)
    requires WsThen(t, g, rest)
    ensures Gap(t, Json) == g + Gap(rest, Json)
  {
    if g == 0 {
      assert t[0..] == t;
    } else {
      assert t[1..][g - 1..] == t[g..];
      GapOver(t[1..], g - 1, rest);
    }
  }

  predicate GapLexeme(s: string) { s != "" && (IsWs(s[0]) || CommentLen(s) > 0) }

  // One lexeme of a gap, in the text, in its first masking and in its full masking.
  lemma {:induction false} GapStep(s: string)
    requires Lexes(s) && GapLexeme(s)
    ensures var n := LexemeLen(s);
      && n > 0 && Lexes(s[n..])
      && Gap(s, Jsonc) == n + Gap(s[n..], Jsonc)
      && WsThen(Mask(s), n, Mask(s[n..]))
      && WsThen(MaskComments(s), n, MaskComments(s[n..]))
  {
    if OpensComment(s) { MaskComment(s); } else { MaskPlain(s); }
  }

  // A gap masks to whitespace of the same length.
  lemma {:induction false} GapMasks(s: string) returns (g: nat, u: string)
    requires Lexes(s)
    ensures g == Gap(s, Jsonc) && u == s[g..] && Lexes(u)
    ensures WsThen(Mask(s), g, Mask(u))
    ensures WsThen(MaskComments(s), g, MaskComments(u))
    ensures u != "" ==> !IsWs(u[0]) && !OpensComment(u)
  {
    hide Mask, MaskComments, WsThen, CommentLen, OpensComment;
    GapStops(s);
    if GapLexeme(s) {
      GapStep(s);
      var n := LexemeLen(s);
      var k;
      k, u := GapMasks(s[n..]);
      g := n + k;
      assert s[n..][k..] == s[n + k..];
      WsJoin(Mask(s), n, Mask(s[n..]), k, Mask(u));
      WsJoin(MaskComments(s), n, MaskComments(s[n..]), k, MaskComments(u));
    } else {
      g, u := 0, s;
      assert s[0..] == s;
      WsNothing(Mask(s));
      WsNothing(MaskComments(s));
    }
  }

  lemma {:induction false} WsNothing(t: string)
    ensures WsThen(t, 0, t)
  {
    assert t[0..] == t;
  }

  lemma {:induction false} GapStops(s: string)
    requires Lexes(s)
    ensures !GapLexeme(s) ==> Gap(s, Jsonc) == 0 && (s != "" ==> !IsWs(s[0]) && !OpensComment(s))
  {}

  // The first character after a gap survives masking unless it is a comma before a closing bracket.
  lemma {:induction false} SolidMasks(u: string)
    requires Lexes(u) && u != "" && !OpensComment(u) && !Trails(u)
    ensures Mask(u)[0] == u[0]
    ensures u[0] != '"' ==> Lexes(u[1..]) && Mask(u)[1..] == Mask(u[1..])
    ensures !IsWs(u[0]) ==> Gap(Mask(u), Json) == 0
  {
    if u[0] == '"' { MaskString(u); } else { MaskPlain(u); }
  }

  lemma {:induction false} ClosesOver(x: string, g: nat, rest: string)
    requires WsThen(x, g, rest)
    ensures ClosesNext(x) == ClosesNext(rest)
  {
    if g == 0 {
      assert x[0..] == x;
    } else {
      assert x[1..][g - 1..] == x[g..];
      ClosesOver(x[1..], g - 1, rest);
    }
  }

  // A closing bracket, or a space that JSON does not know.
  predicate Odd(c: char) { c == ']' || c == '}' || (IsSpace(c) && !IsWs(c)) }

  // After a comma and a gap, a closing bracket makes the comma a trailing one; conversely a trailing
  // comma and its gap are followed by an odd character.
  lemma {:induction false} TrailsMeans(w: string) returns (k: nat, x: string)
    requires Lexes(w)
    ensures k == Gap(w, Jsonc) && x == w[k..] && Lexes(x)
    ensures WsThen(Mask(w), k, Mask(x))
    ensures x != "" && (x[0] == ']' || x[0] == '}') ==> ClosesNext(MaskComments(w))
    ensures ClosesNext(MaskComments(w)) ==> x != "" && Odd(x[0]) && !OpensComment(x)
  {
    k, x := GapMasks(w);
    ClosesOver(MaskComments(w), k, MaskComments(x));
    if x != "" {
      var n := LexemeLen(x);
      assert MaskComments(x) == x[..n] + MaskComments(x[n..]);
      assert MaskComments(x)[0] == x[0];
    }
  }

  // What the strict parser finds after the whitespace of a masked text: what the JSONC parser finds
  // after the gap ...
  lemma {:induction false} NextMasks(s: string) returns (g: nat, u: string)
    requires Lexes(s)
    ensures g == Gap(s, Jsonc) && u == s[g..] && Lexes(u)
    ensures u != "" ==> !OpensComment(u) && !IsWs(u[0])
    ensures Trails(u) ==> u != "" && u[0] == ','
    ensures !Trails(u) ==> Gap(Mask(s), Json) == g && Mask(s)[g..] == Mask(u)
    ensures u != "" && !Trails(u) ==> Mask(u)[0] == u[0]
    ensures u != "" && !Trails(u) && u[0] != '"' ==> Lexes(u[1..]) && Mask(u)[1..] == Mask(u[1..])
  {
    g, u := GapMasks(s);
    GapOver(Mask(s), g, Mask(u));
    if u != "" && !Trails(u) { SolidMasks(u); }
  }

  lemma {:induction false} CommaMasks(u: string) returns (k: nat, x: string)
    requires Lexes(u) && Trails(u)
    ensures Lexes(u[1..]) && k == Gap(u[1..], Jsonc) && x == u[1..][k..] && Lexes(x) && x != ""
    ensures Odd(x[0]) && !OpensComment(x)
    ensures WsThen(Mask(u), 1 + k, Mask(x))
  {
    MaskPlain(u);
    assert WsThen(Mask(u), 1, Mask(u[1..]));
    k, x := TrailsMeans(u[1..]);
    WsJoin(Mask(u), 1, Mask(u[1..]), k, Mask(x));
  }

  // ... or, past a trailing comma, an odd character.
  lemma {:induction false} TrailMasks(s: string, u: string) returns (k: nat, x: string)
    requires Lexes(s) && u == s[Gap(s, Jsonc)..] && Lexes(u) && Trails(u)
    ensures Lexes(u[1..]) && k == Gap(u[1..], Jsonc) && x == u[1..][k..] && Lexes(x) && x != ""
    ensures Odd(x[0]) && !OpensComment(x)
    ensures WsThen(Mask(s), Gap(s, Jsonc) + (1 + k), Mask(x))
  {
    hide Mask, MaskComments, Trails, CommentLen, WsThen, OpensComment, Odd, Gap, Lexes;
    var g, v := GapMasks(s);
    k, x := CommaMasks(u);
    WsJoin(Mask(s), g, Mask(u), 1 + k, Mask(x));
  }

  lemma {:induction false} OddMasks(x: string)
    requires Lexes(x) && x != "" && Odd(x[0]) && !OpensComment(x)
    ensures Mask(x)[0] == x[0] && Lexes(x[1..]) && Mask(x)[1..] == Mask(x[1..])
    ensures Gap(Mask(x), Json) == 0
  {
    SolidMasks(x);
  }

  /* ---- tokens ---- */

  lemma {:induction false} FirstMasks(s: string)
    requires Lexes(s) && s != ""
    ensures Mask(s)[0] == s[0] || (Mask(s)[0] == ' ' && (OpensComment(s) || s[0] == ','))
    ensures OpensComment(s) ==> Mask(s)[0] == ' '
  {
    if s[0] == '"' { MaskString(s); } else if OpensComment(s) { MaskComment(s); } else { MaskPlain(s); }
  }

  lemma {:induction false} ScalarIsPlain(s: string)
    requires Lexes(s) && s != "" && IsScalarChar(s[0])
    ensures Plain(s) && !Trails(s)
  {}

  lemma {:induction false} RunMasks(s: string)
    requires Lexes(s)
    ensures Run(Mask(s)) == Run(s) && Mask(s)[..Run(s)] == s[..Run(s)]
    ensures Lexes(s[Run(s)..]) && Mask(s)[Run(s)..] == Mask(s[Run(s)..])
  {
    hide Mask, Lexes, OpensComment;
    if s == "" {
    } else if IsScalarChar(s[0]) {
      ScalarIsPlain(s);
      MaskPlain(s);
      RunMasks(s[1..]);
      Shift(s[0], s[1..], Mask(s[1..]), Run(s[1..]));
      assert s == [s[0]] + s[1..];
    } else {
      FirstMasks(s);
      assert s[0..] == s && Mask(s)[0..] == Mask(s);
    }
  }

  lemma {:induction false} Shift(c: char, s: string, m: string, n: nat)
    requires n <= |s| == |m| && m[..n] == s[..n] && IsScalarChar(c) && Run(m) == n
    ensures ([c] + m)[..n + 1] == ([c] + s)[..n + 1]
    ensures ([c] + m)[n + 1..] == m[n..] && ([c] + s)[n + 1..] == s[n..]
    ensures Run([c] + m) == n + 1
  {
    assert ([c] + m)[1..] == m;
  }

  // An atom masks to itself, and what follows it masks to what follows its image.
  lemma {:induction false} AtomMasks(s: string)
    requires Lexes(s)
    ensures AtomLen(Mask(s)) == AtomLen(s) && Mask(s)[..AtomLen(s)] == s[..AtomLen(s)]
    ensures Lexes(s[AtomLen(s)..]) && Mask(s)[AtomLen(s)..] == Mask(s[AtomLen(s)..])
  {
    if s != "" { FirstMasks(s); }
    if s != "" && s[0] == '"' {
      MaskString(s);
      StringLocal(s, Mask(s[StringLen(s)..]));
    } else {
      RunMasks(s);
      assert s[0..] == s && Mask(s)[0..] == Mask(s);
    }
  }

  // No value and no key starts with a comma or an odd character.
  lemma {:induction false} NoValue(s: string, d: Dialect)
    requires s != "" && (s[0] == ',' || Odd(s[0]))
    ensures ParseValue(s, d) == Fail && StringLen(s) == 0
  {}

  /* ---- the two parsers in lockstep ---- */

  // Both parsers fail, or both succeed with trees of the same shape and rests that mask to each other.
  predicate HeadsAgree(p: Parsed<Head>, q: Parsed<Head>) {
    p.Got? && q.Got? && SameHead(p.val, q.val) && Lexes(q.rest) && p.rest == Mask(q.rest)
  }

  predicate ValuesAgree(p: Parsed<Node>, q: Parsed<Node>) {
    (p.Fail? && q.Fail?) ||
    (p.Got? && q.Got? && Same(p.val, q.val) && Lexes(q.rest) && p.rest == Mask(q.rest))
  }

  predicate BodiesAgree(p: Parsed<Body>, q: Parsed<Body>) {
    (p.Fail? && q.Fail?) ||
    (p.Got? && q.Got? && SameBody(p.val, q.val) && Lexes(q.rest) && p.rest == Mask(q.rest))
  }

  // No value can follow what has been read of this head.
  predicate Dead(p: Parsed<Head>, d: Dialect) { p.Fail? || ParseValue(p.rest, d).Fail? }

  // A gap before a value: the rests agree, or no value follows either of them.
  lemma {:induction false} ValueAfterGap(s: string)
    requires Lexes(s)
    ensures var a := Mask(s)[Gap(Mask(s), Json)..]; var b := s[Gap(s, Jsonc)..];
      || (Lexes(b) && a == Mask(b) && Gap(Mask(s), Json) == Gap(s, Jsonc))
      || (ParseValue(a, Json).Fail? && ParseValue(b, Jsonc).Fail? && StringLen(a) == StringLen(b) == 0)
  {
    hide Mask, Lexes, Gap, StringLen, ParseValue, Trails, OpensComment;
    var g, u := NextMasks(s);
    if Trails(u) {
      var k, x := TrailMasks(s, u);
      OddMasks(x);
      GapOver(Mask(s), g + (1 + k), Mask(x));
      NoValue(Mask(x), Json);
      NoValue(u, Jsonc);
    }
  }

  lemma {:induction false} FieldsAgree(s: string)
    requires Lexes(s)
    ensures var p := ParseHead(Mask(s), Obj, Json); var q := ParseHead(s, Obj, Jsonc);
      HeadsAgree(p, q) || (Dead(p, Json) && Dead(q, Jsonc))
  {
    var n := StringLen(s);
    if n == 0 {
      if s != "" { FirstMasks(s); AtomMasks(s); }
    } else {
      MaskString(s);
      StringLocal(s, Mask(s[n..]));
      assert Mask(s)[..n] == s[..n] && Mask(s)[n..] == Mask(s[n..]);
      ColonsAgree(s[..n], s[n..]);
    }
  }

  lemma {:induction false} ColonsAgree(key: string, t: string)
    requires Lexes(t)
    ensures var p := ParseColon(key, Mask(t), Json); var q := ParseColon(key, t, Jsonc);
      HeadsAgree(p, q) || (Dead(p, Json) && Dead(q, Jsonc))
  {
    hide Mask, Lexes, Gap, StringLen, ParseValue, Trails, OpensComment;
    var g, u := NextMasks(t);
    if Trails(u) {
      var k, x := TrailMasks(t, u);
      OddMasks(x);
      GapOver(Mask(t), g + (1 + k), Mask(x));
    } else if u != "" && u[0] == ':' {
      assert t[g + 1..] == u[1..];
      assert Mask(t)[g + 1..] == Mask(u)[1..];
      ValueAfterGap(u[1..]);
    }
  }

  lemma {:induction false} EndsAgree(s: string, kind: Kind)
    requires Lexes(s)
    ensures BodiesAgree(ParseEnd(Mask(s), kind, Json), ParseEnd(s, kind, Jsonc))
  {
    hide Mask, Lexes, Gap, MaskComments, OpensComment;
    var g, u := NextMasks(s);
    if Trails(u) {
      var k, x := TrailMasks(s, u);
      OddMasks(x);
      GapOver(Mask(s), g + (1 + k), Mask(x));
      assert u[1..][k + 1..] == x[1..];
    } else if u != "" && u[0] == ',' {
      assert !ClosesNext(MaskComments(u[1..]));
      var k, x := TrailsMeans(u[1..]);
    }
  }

  lemma {:induction false} AgreeOnValue(s: string)
    requires Lexes(s)
    ensures ValuesAgree(ParseValue(Mask(s), Json), ParseValue(s, Jsonc))
    decreases |s|, 0
  {
    hide Mask, Lexes, SameBody, ParseEnd, ParseMembers, AtomLen;
    if s == "" {
    } else if s[0] == '[' || s[0] == '{' {
      SolidMasks(s);
      var kind := if s[0] == '[' then Arr else Obj;
      EndsAgree(s[1..], kind);
      AgreeOnMembers(s[1..], kind);
    } else {
      FirstMasks(s);
      AtomMasks(s);
    }
  }

  // The start of a member, up to its value.
  lemma {:induction false} StartsAgree(s: string, kind: Kind)
    requires Lexes(s)
    ensures var p := ParseHead(Mask(s)[Gap(Mask(s), Json)..], kind, Json);
      var q := ParseHead(s[Gap(s, Jsonc)..], kind, Jsonc);
      (HeadsAgree(p, q) && Gap(Mask(s), Json) == Gap(s, Jsonc)) || (Dead(p, Json) && Dead(q, Jsonc))
  {
    hide Mask, Gap, StringLen, ParseValue, Lexes;
    ValueAfterGap(s);
    var b := s[Gap(s, Jsonc)..];
    if Lexes(b) && kind.Obj? { FieldsAgree(b); }
  }

  lemma {:induction false} AgreeOnMembers(s: string, kind: Kind)
    requires Lexes(s)
    ensures BodiesAgree(ParseMembers(Mask(s), kind, Json), ParseMembers(s, kind, Jsonc))
    decreases |s|, 1
  {
    hide Mask, Lexes, Gap, SameHead, ParseTail, ParseHead, ParseValue, Same;
    StartsAgree(s, kind);
    var q := ParseHead(s[Gap(s, Jsonc)..], kind, Jsonc);
    if q.Got? && Lexes(q.rest) {
      AgreeOnValue(q.rest);
      var v := ParseValue(q.rest, Jsonc);
      if v.Got? { AgreeOnTail(v.rest, kind); }
    }
  }

  predicate TailsAgree(p: Parsed<(string, Body)>, q: Parsed<(string, Body)>) {
    (p.Fail? && q.Fail?) ||
    (p.Got? && q.Got? && |p.val.0| == |q.val.0| && SameBody(p.val.1, q.val.1)
     && Lexes(q.rest) && p.rest == Mask(q.rest))
  }

  lemma {:induction false} AgreeOnTail(s: string, kind: Kind)
    requires Lexes(s)
    ensures TailsAgree(ParseTail(Mask(s), kind, Json), ParseTail(s, kind, Jsonc))
    decreases |s|, 0
  {
    hide Mask, Lexes, Gap, SameBody, ParseEnd, ParseMembers, Trails, OpensComment;
    EndsAgree(s, kind);
    var g, u := NextMasks(s);
    assert g < |s| ==> u[1..] == s[g + 1..];
    if Trails(u) {
      NothingAfterTrail(s, u, kind);
    } else if u != "" && u[0] == ',' {
      assert Mask(s)[g + 1..] == Mask(u)[1..];
      AgreeOnMembers(u[1..], kind);
    }
  }

  // Past a trailing comma that does not end the container, neither parser goes on.
  lemma {:induction false} NothingAfterTrail(s: string, u: string, kind: Kind)
    requires Lexes(s) && u == s[Gap(s, Jsonc)..] && Lexes(u) && Trails(u)
    ensures ParseMembers(u[1..], kind, Jsonc) == Fail
    ensures var a := Mask(s)[Gap(Mask(s), Json)..]; a != "" && a[0] != ','
  {
    hide Mask, MaskComments, Lexes, Gap, Trails, OpensComment;
    var k, x := TrailMasks(s, u);
    OddMasks(x);
    GapOver(Mask(s), Gap(s, Jsonc) + (1 + k), Mask(x));
    NoValue(x, Jsonc);
  }

  predicate DocumentsAgree(p: Parsed<Document>, q: Parsed<Document>) {
    (p.Fail? && q.Fail?) ||
    (p.Got? && q.Got? && |p.val.lead| == |q.val.lead| && Same(p.val.root, q.val.root)
     && |p.val.trail| == |q.val.trail|)
  }

  // For every text the first pass gets through, strict JSON on the masked text is JSONC on the text.
  lemma {:induction false} AgreeOnDocument(s: string)
    requires Lexes(s)
    ensures DocumentsAgree(ParseDocument(Mask(s), Json), ParseDocument(s, Jsonc))
  {
    hide Mask, Lexes, Gap, Same, ParseValue, OpensComment, Trails;
    ValueAfterGap(s);
    var b := s[Gap(s, Jsonc)..];
    if Lexes(b) {
      AgreeOnValue(b);
      var v := ParseValue(b, Jsonc);
      if v.Got? { AgreeOnRest(v.rest); }
    }
  }

  lemma {:induction false} AgreeOnRest(r: string)
    requires Lexes(r)
    ensures (Gap(Mask(r), Json) == |r|) == (Gap(r, Jsonc) == |r|)
  {
    hide Mask, Lexes, Gap, OpensComment, Trails;
    var g, u := NextMasks(r);
    if Trails(u) {
      var k, x := TrailMasks(r, u);
      OddMasks(x);
      GapOver(Mask(r), g + (1 + k), Mask(x));
    }
  }
}
