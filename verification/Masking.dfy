/** The two maskings of jsonc_text: comments blanked, then trailing commas blanked. */
module Masking {
  import opened Lexical

  function BlankChar(c: char): char { if c == '\n' then '\n' else ' ' }

  function Blank(s: string): (r: string)
    ensures |r| == |s|
  {
    seq(|s|, i requires 0 <= i < |s| => BlankChar(s[i]))
  }

  // What the first pass steps over at once: a string literal, a comment or one character.
  // 0 stands for the errors: an illegal or unclosed literal, an unclosed block comment.
  function LexemeLen(s: string): (n: nat)
    requires s != ""
    ensures n <= |s|
  {
    if s[0] == '"' then StringLen(s) else if OpensComment(s) then CommentLen(s) else 1
  }

  // The first pass runs to the end of the text without an error.
  predicate Lexes(s: string) {
    s == "" || (LexemeLen(s) > 0 && Lexes(s[LexemeLen(s)..]))
  }

  // First pass: comments become blanks.
  function MaskComments(s: string): (r: string)
    requires Lexes(s)
    ensures |r| == |s|
  {
    if s == "" then ""
    else
      var n := LexemeLen(s);
      (if OpensComment(s) then Blank(s[..n]) else s[..n]) + MaskComments(s[n..])
  }

  // The first character that is not a space is a closing bracket.
  predicate ClosesNext(s: string) {
    s != "" && if IsSpace(s[0]) then ClosesNext(s[1..]) else s[0] == '}' || s[0] == ']'
  }

  // Second pass, over text whose comments are blank: a comma before a closing bracket becomes a blank.
  function MaskCommas(s: string): (r: string)
    ensures |r| == |s|
  {
    if s == "" then ""
    else if s[0] == '"' then
      var n := StringLen(s);
      if n == 0 then s else s[..n] + MaskCommas(s[n..])
    else
      (if s[0] == ',' && ClosesNext(s[1..]) then " " else s[..1]) + MaskCommas(s[1..])
  }

  function Mask(s: string): (r: string)
    requires Lexes(s)
    ensures |r| == |s|
  {
    MaskCommas(MaskComments(s))
  }

  lemma {:induction false} MaskCommasBlank(g: string, x: string)
    requires forall i :: 0 <= i < |g| ==> IsWs(g[i])
    ensures MaskCommas(g + x) == g + MaskCommas(x)
  {
    hide ClosesNext, StringLen;
    if g == "" {
      assert g + x == x;
    } else {
      MaskCommasBlank(g[1..], x);
      var t := g[1..] + x;
      assert g + x == [g[0]] + t;
      assert ([g[0]] + t)[1..] == t;
      assert g + MaskCommas(x) == [g[0]] + (g[1..] + MaskCommas(x));
    }
  }

  /* How Mask acts on the first lexeme of a text. */

  lemma {:induction false} MaskString(s: string)
    requires Lexes(s) && s != "" && s[0] == '"'
    ensures StringLen(s) > 0 && Lexes(s[StringLen(s)..])
    ensures Mask(s) == s[..StringLen(s)] + Mask(s[StringLen(s)..])
  {
    var n := StringLen(s);
    var x := MaskComments(s[n..]);
    var c := MaskComments(s);
    assert c == s[..n] + x;
    StringLocal(s, x);
    assert c[..n] == s[..n] && c[n..] == x;
  }

  lemma {:induction false} MaskComment(s: string)
    requires Lexes(s) && OpensComment(s)
    ensures CommentLen(s) > 0 && Lexes(s[CommentLen(s)..])
    ensures Mask(s) == Blank(s[..CommentLen(s)]) + Mask(s[CommentLen(s)..])
  {
    var n := CommentLen(s);
    MaskCommasBlank(Blank(s[..n]), MaskComments(s[n..]));
  }

  predicate Plain(s: string) { s != "" && s[0] != '"' && !OpensComment(s) }

  // A comma the second pass blanks.
  predicate Trails(s: string)
    requires Lexes(s)
  {
    Plain(s) && s[0] == ',' && ClosesNext(MaskComments(s[1..]))
  }

  lemma {:induction false} MaskPlain(s: string)
    requires Lexes(s) && Plain(s)
    ensures Lexes(s[1..])
    ensures Mask(s) == (if Trails(s) then " " else s[..1]) + Mask(s[1..])
  {}

  /* ---- what masking does to each character ---- */

  datatype Ink = Code | Quoted | Comment

  // Whether a character belongs to a string literal, to a comment or to neither.
  function InkOf(s: string): Ink
    requires s != ""
  {
    if s[0] == '"' then Quoted else if OpensComment(s) then Comment else Code
  }

  function Inks(s: string): (r: seq<Ink>)
    requires Lexes(s)
    ensures |r| == |s|
  {
    if s == "" then []
    else
      var n := LexemeLen(s);
      seq(n, i => InkOf(s)) + Inks(s[n..])
  }

  ghost predicate MasksCommentsAt(s: string, i: nat)
    requires Lexes(s) && i < |s|
  {
    MaskComments(s)[i] == if Inks(s)[i].Comment? then BlankChar(s[i]) else s[i]
  }

  ghost predicate MasksCommasAt(s: string, i: nat)
    requires Lexes(s) && i < |s|
  {
    Mask(s)[i] ==
      if Inks(s)[i].Code? && s[i] == ',' && ClosesNext(MaskComments(s)[i + 1..]) then ' ' else MaskComments(s)[i]
  }

  // Both masked texts, character by character: comment characters become blanks, and the second text
  // differs from the first exactly at the unquoted commas whose next character that is not a space is a
  // closing bracket. Line feeds and string literals stay as they are, and no character moves.
  lemma {:induction false} MaskPointwise(s: string, i: nat)
    requires Lexes(s) && i < |s|
    ensures MasksCommentsAt(s, i) && MasksCommasAt(s, i)
    ensures s[i] == '\n' <==> Mask(s)[i] == '\n'
    ensures Inks(s)[i].Quoted? ==> Mask(s)[i] == MaskComments(s)[i] == s[i]
    ensures Inks(s)[i].Comment? ==> IsWs(Mask(s)[i])
  {
    hide MaskComments, MaskCommas, ClosesNext, LexemeLen, Inks, InkOf;
    var n := LexemeLen(s);
    var _, _ := FirstLexeme(s);
    if i < n {
      FirstLexemeMasks(s, i);
    } else {
      MaskPointwise(s[n..], i - n);
      LaterLexemeMasks(s, i);
    }
  }

  lemma {:induction false} FirstLexemeMasks(s: string, i: nat)
    requires Lexes(s) && s != "" && i < LexemeLen(s)
    ensures MasksCommentsAt(s, i) && MasksCommasAt(s, i) && Inks(s)[i] == InkOf(s)
    ensures Inks(s)[i].Comment? ==> Mask(s)[i] == BlankChar(s[i])
  {
    hide ClosesNext, MaskCommas, CommentLen, StringLen;
    if s[0] == '"' {
      MaskString(s);
    } else if OpensComment(s) {
      MaskComment(s);
    } else {
      MaskPlain(s);
      assert MaskComments(s)[1..] == MaskComments(s[1..]);
    }
  }

  lemma {:induction false} LaterLexemeMasks(s: string, i: nat)
    requires Lexes(s) && s != "" && LexemeLen(s) <= i < |s|
    ensures var n := LexemeLen(s);
      && Inks(s)[i] == Inks(s[n..])[i - n] && MaskComments(s)[i] == MaskComments(s[n..])[i - n]
      && MaskComments(s)[i + 1..] == MaskComments(s[n..])[i - n + 1..] && Mask(s)[i] == Mask(s[n..])[i - n]
  {
    hide Mask, MaskComments, LexemeLen, InkOf;
    var n := LexemeLen(s);
    var masked, commas := FirstLexeme(s);
    LaterAt(masked, MaskComments(s[n..]), n, i);
    LaterAt(commas, Mask(s[n..]), n, i);
    InksStep(s);
  }

  // Both masked texts are those of the first lexeme and those of the rest.
  lemma {:induction false} FirstLexeme(s: string) returns (masked: string, commas: string)
    requires Lexes(s) && s != ""
    ensures var n := LexemeLen(s);
      && n > 0 && Lexes(s[n..]) && |masked| == |commas| == n
      && MaskComments(s) == masked + MaskComments(s[n..]) && Mask(s) == commas + Mask(s[n..])
  {
    hide ClosesNext, MaskCommas, CommentLen, StringLen;
    var n := LexemeLen(s);
    if s[0] == '"' {
      MaskString(s);
      masked, commas := s[..n], s[..n];
    } else if OpensComment(s) {
      MaskComment(s);
      masked, commas := Blank(s[..n]), Blank(s[..n]);
    } else {
      MaskPlain(s);
      masked, commas := s[..1], if Trails(s) then " " else s[..1];
    }
  }

  lemma {:induction false} LaterAt(first: string, rest: string, n: nat, i: nat)
    requires |first| == n <= i < n + |rest|
    ensures (first + rest)[i] == rest[i - n] && (first + rest)[i + 1..] == rest[i - n + 1..]
  {}

  lemma {:induction false} InksStep(s: string)
    requires Lexes(s) && s != ""
    ensures Inks(s) == seq(LexemeLen(s), i => InkOf(s)) + Inks(s[LexemeLen(s)..])
  {}
}
