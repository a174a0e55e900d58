/** The imperative side: jsonc_text, json_tree, without_spans and delete_json_members. */
module Editing {
  import opened Lexical
  import opened Masking
  import opened Syntax
  import opened Agreement
  import opened Printing
  import opened Options
  import opened Values
  import opened Pruning
  import opened Spans
  import opened Sorting

  /* ---- jsonc_text ---- */

  // Every quote that opens a literal, opens a legal one.
  predicate StringsClose(s: string) {
    s == "" ||
    if s[0] == '"' then StringLen(s) > 0 && StringsClose(s[StringLen(s)..]) else StringsClose(s[1..])
  }

  lemma {:induction false} BlanksClose(g: string, x: string)
    requires forall i :: 0 <= i < |g| ==> IsWs(g[i])
    ensures StringsClose(g + x) == StringsClose(x)
  {
    if g == "" {
      assert g + x == x;
    } else {
      BlanksClose(g[1..], x);
      assert (g + x)[1..] == g[1..] + x;
    }
  }

  lemma {:induction false} MaskedStringsClose(s: string)
    requires Lexes(s)
    ensures StringsClose(MaskComments(s))
  {
    if s != "" {
      var n := LexemeLen(s);
      var x := MaskComments(s[n..]);
      MaskedStringsClose(s[n..]);
      if OpensComment(s) {
        BlanksClose(Blank(s[..n]), x);
      } else if s[0] == '"' {
        StringLocal(s, x);
        assert (s[..n] + x)[n..] == x;
      } else {
        assert (s[..n] + x)[1..] == x;
      }
    }
  }

  // The first pass having reached i: what lies before is done, what lies behind is still to be read.
  predicate FirstPassAt(text: string, chars: seq<char>, i: nat) {
    && i <= |text| == |chars|
    && Lexes(text) == Lexes(text[i..])
    && (Lexes(text) ==> MaskComments(text) == chars[..i] + MaskComments(text[i..]))
    && chars[i..] == text[i..]
  }

  function Piece(s: string): string
    requires s != ""
  {
    if OpensComment(s) then Blank(s[..LexemeLen(s)]) else s[..LexemeLen(s)]
  }

  lemma {:induction false} LexStep(s: string)
    requires s != ""
    ensures LexemeLen(s) == 0 ==> !Lexes(s)
    ensures LexemeLen(s) > 0 ==> Lexes(s) == Lexes(s[LexemeLen(s)..])
    ensures Lexes(s) ==> MaskComments(s) == Piece(s) + MaskComments(s[LexemeLen(s)..])
  {}

  lemma {:induction false} FirstPassSteps(text: string, chars: seq<char>, i: nat, n: nat, chars': seq<char>)
    requires FirstPassAt(text, chars, i) && i < |text|
    requires n == LexemeLen(text[i..]) && n > 0
    requires |chars'| == |text| && chars'[..i] == chars[..i] && chars'[i..i + n] == Piece(text[i..])
    requires chars'[i + n..] == text[i + n..]
    ensures FirstPassAt(text, chars', i + n)
  {
    hide MaskComments, Lexes, LexemeLen;
    var rest := text[i..];
    LexStep(rest);
    assert |Piece(rest)| == n;
    assert rest[n..] == text[i + n..];
    assert chars'[..i + n] == chars'[..i] + chars'[i..i + n];
    if Lexes(text) {
      assert chars[..i] + (Piece(rest) + MaskComments(rest[n..])) == chars'[..i + n] + MaskComments(rest[n..]);
    }
  }

  lemma {:induction false} PieceIs(text: string, chars: seq<char>, i: nat, n: nat)
    requires i < |text| && n == LexemeLen(text[i..]) && i + n <= |text| == |chars|
    requires forall j :: i <= j < i + n ==> chars[j] == if OpensComment(text[i..]) then BlankChar(text[j]) else text[j]
    ensures chars[i..i + n] == Piece(text[i..])
  {}

  // An error of the first pass at i.
  predicate FirstPassFails(text: string, chars: seq<char>, i: nat) {
    i < |text| && FirstPassAt(text, chars, i) && LexemeLen(text[i..]) == 0
  }

  lemma {:induction false} FirstPassStops(text: string, chars: seq<char>, i: nat)
    ensures FirstPassFails(text, chars, i) ==> !Lexes(text)
  {}

  predicate ClosesAt(s: string, k: nat) { k + 1 < |s| && s[k] == '*' && s[k + 1] == '/' }

  lemma {:induction false} LineLenIs(s: string, n: nat)
    requires n <= |s| && '\n' !in s[..n] && (n < |s| ==> s[n] == '\n')
    ensures LineLen(s) == n
  {
    if n > 0 { LineLenIs(s[1..], n - 1) by { assert s[1..][..n - 1] == s[..n][1..]; } }
  }

  lemma {:induction false} BlockLenIs(s: string, n: nat)
    requires ClosesAt(s, n) && forall k :: 0 <= k < n ==> !ClosesAt(s, k)
    ensures BlockLen(s) == n + 2
  {
    if n > 0 {
      assert !ClosesAt(s, 0);
      forall k | 0 <= k < n - 1 ensures !ClosesAt(s[1..], k) { assert !ClosesAt(s, k + 1); }
      BlockLenIs(s[1..], n - 1);
    }
  }

  lemma {:induction false} BlockNeverCloses(s: string)
    requires forall k :: 0 <= k < |s| ==> !ClosesAt(s, k)
    ensures BlockLen(s) == 0
  {
    if |s| >= 2 {
      assert !ClosesAt(s, 0);
      forall k | 0 <= k < |s[1..]| ensures !ClosesAt(s[1..], k) { assert !ClosesAt(s, k + 1); }
      BlockNeverCloses(s[1..]);
    }
  }

  // Searches for the end of a comment: the first line feed or the end of the text for a line comment, the first
  // closing mark behind the opening one for a block comment. 0 when a block comment does not end.
  method CommentEnd(s: string) returns (end: nat)
    requires OpensComment(s)
    ensures OpensLine(s) ==> 2 <= end <= |s| && '\n' !in s[2..end] && (end < |s| ==> s[end] == '\n')
    ensures !OpensLine(s) && end == 0 ==> forall k :: 2 <= k < |s| ==> !ClosesAt(s, k)
    ensures !OpensLine(s) && end > 0 ==> end >= 4 && ClosesAt(s, end - 2) && forall k :: 2 <= k < end - 2 ==> !ClosesAt(s, k)
    ensures end == CommentLen(s)
  {
    end := 2;
    if OpensLine(s) {
      while end < |s| && s[end] != '\n'
        invariant 2 <= end <= |s| && '\n' !in s[2..end]
      {
        end := end + 1;
      }
      assert s[2..][..end - 2] == s[2..end];
      LineLenIs(s[2..], end - 2);
      return;
    }
    while end < |s|
      invariant 2 <= end <= |s| && forall k :: 2 <= k < end ==> !ClosesAt(s, k)
    {
      if ClosesAt(s, end) {
        forall k | 0 <= k < end - 2 ensures !ClosesAt(s[2..], k) { assert !ClosesAt(s, k + 2); }
        BlockLenIs(s[2..], end - 2);
        return end + 2;
      }
      end := end + 1;
    }
    forall k | 0 <= k < |s[2..]| ensures !ClosesAt(s[2..], k) { assert !ClosesAt(s, k + 2); }
    BlockNeverCloses(s[2..]);
    end := 0;
  }

  // First pass, in place: the comments of text become blanks in chars. False on an error.
  method BlankComments(text: string, chars: array<char>) returns (ok: bool)
    requires chars[..] == text
    modifies chars
    ensures ok == Lexes(text)
    ensures ok ==> chars[..] == MaskComments(text)
  {
    hide MaskComments, Lexes, StringLen, CommentLen, FirstPassAt, Piece;
    var i := 0;
    FirstPassStarts(text);
    while i < |text|
      invariant i <= |text| == chars.Length && chars[i..] == text[i..]
      invariant FirstPassAt(text, chars[..], i)
    {
      ghost var was, from := chars[..], i;
      LexStep(text[i..]);
      assert FirstPassFails(text, was, from) ==> !Lexes(text) by { FirstPassStops(text, was, from); }
      if text[i] == '"' {
        var n := StringLen(text[i..]);
        if n == 0 { return false; }
        i := i + n;
      } else if OpensComment(text[i..]) {
        var n := CommentEnd(text[i..]);
        if n == 0 { return false; }
        forall j | i <= j < i + n { chars[j] := BlankChar(text[j]); }
        i := i + n;
      } else {
        i := i + 1;
      }
      PieceIs(text, chars[..], from, i - from);
      FirstPassSteps(text, was, from, i - from, chars[..]);
    }
    FirstPassEnds(text, chars[..]);
    ok := true;
  }

  lemma {:induction false} FirstPassStarts(text: string)
    ensures FirstPassAt(text, text, 0)
  {}

  lemma {:induction false} FirstPassEnds(text: string, chars: seq<char>)
    requires FirstPassAt(text, chars, |text|)
    ensures Lexes(text) && chars == MaskComments(text)
  {}

  // Second pass, in place: the trailing commas of comment-free text become blanks in chars.
  method BlankCommas(masked: string, chars: array<char>)
    requires chars[..] == masked && StringsClose(masked)
    modifies chars
    ensures chars[..] == MaskCommas(masked)
  {
    hide StringsClose, MaskCommas, ClosesNext, StringLen, SecondPassAt;
    var i := 0;
    SecondPassStarts(masked);
    while i < chars.Length
      invariant i <= chars.Length == |masked| && chars[i..] == masked[i..]
      invariant SecondPassAt(masked, chars[..], i)
    {
      ghost var was, from := chars[..], i;
      PieceStep(masked, was, i);
      assert chars[i] == masked[i..][0];
      if chars[i] == '"' {
        i := i + StringLen(masked[i..]);
      } else if chars[i] == ',' {
        var closes := FollowedByClosing(chars, i + 1);
        assert chars[i + 1..] == masked[i..][1..];
        if closes { chars[i] := ' '; }
        i := i + 1;
      } else {
        i := i + 1;
      }
      assert chars[from..i] == CommaPiece(masked[from..]);
      SecondPassSteps(masked, was, from, i - from, chars[..]);
    }
    SecondPassEnds(masked, chars[..]);
  }

  lemma {:induction false} PieceStep(masked: string, chars: seq<char>, i: nat)
    requires SecondPassAt(masked, chars, i) && i < |masked|
    ensures 0 < |CommaPiece(masked[i..])| <= |masked| - i
  {}

  // Looks past the spaces for a closing bracket.
  method FollowedByClosing(chars: array<char>, from: nat) returns (closes: bool)
    requires from <= chars.Length
    ensures closes == ClosesNext(chars[from..])
  {
    var following := from;
    while following < chars.Length && IsSpace(chars[following])
      invariant from <= following <= chars.Length
      invariant ClosesNext(chars[from..]) == ClosesNext(chars[following..])
    {
      assert chars[following..][1..] == chars[following + 1..];
      following := following + 1;
    }
    closes := following < chars.Length && (chars[following] == '}' || chars[following] == ']');
  }

  lemma {:induction false} SecondPassStarts(masked: string)
    requires StringsClose(masked)
    ensures SecondPassAt(masked, masked, 0)
  {}

  lemma {:induction false} SecondPassEnds(masked: string, chars: seq<char>)
    requires SecondPassAt(masked, chars, |masked|)
    ensures chars == MaskCommas(masked)
  {}

  // jsonc_text: both masked texts, or nothing on an error.
  method JsoncText(text: string) returns (r: Option<(string, string)>)
    ensures r == if Lexes(text) then Some((Mask(text), MaskComments(text))) else None
  {
    var chars := new char[|text|](i requires 0 <= i < |text| => text[i]);
    assert chars[..] == text;
    var ok := BlankComments(text, chars);
    if !ok { return None; }
    var commentsMasked := chars[..];
    MaskedStringsClose(text);
    BlankCommas(commentsMasked, chars);
    r := Some((chars[..], commentsMasked));
  }

  predicate SecondPassAt(masked: string, chars: seq<char>, i: nat) {
    && i <= |masked| == |chars|
    && StringsClose(masked[i..])
    && MaskCommas(masked) == chars[..i] + MaskCommas(masked[i..])
    && chars[i..] == masked[i..]
  }

  lemma {:induction false} CommaStep(s: string)
    requires s != "" && StringsClose(s)
    ensures CommaPiece(s) != "" && |CommaPiece(s)| <= |s|
    ensures StringsClose(s[|CommaPiece(s)|..])
    ensures MaskCommas(s) == CommaPiece(s) + MaskCommas(s[|CommaPiece(s)|..])
  {}

  // What the second pass makes of the first literal or character of s.
  function CommaPiece(s: string): string
    requires s != ""
  {
    if s[0] == '"' then s[..StringLen(s)]
    else if s[0] == ',' && ClosesNext(s[1..]) then " "
    else s[..1]
  }

  lemma {:induction false} SecondPassSteps(masked: string, chars: seq<char>, i: nat, n: nat, chars': seq<char>)
    requires SecondPassAt(masked, chars, i) && i < |masked|
    requires n == |CommaPiece(masked[i..])|
    requires |chars'| == |masked| && i + n <= |masked| && chars'[..i] == chars[..i]
    requires chars'[i..i + n] == CommaPiece(masked[i..]) && chars'[i + n..] == masked[i + n..]
    ensures SecondPassAt(masked, chars', i + n)
  {
    hide StringsClose, MaskCommas, CommaPiece;
    var rest := masked[i..];
    CommaStep(rest);
    assert rest[n..] == masked[i + n..];
    assert chars'[..i + n] == chars'[..i] + chars'[i..i + n];
    assert chars[..i] + (CommaPiece(rest) + MaskCommas(rest[n..])) == chars'[..i + n] + MaskCommas(rest[n..]);
  }

  /* ---- without_spans ---- */

  predicate Before(a: Span, b: Span) { a.start < b.start || (a.start == b.start && a.end <= b.end) }

  lemma {:induction false} SpansInOrder(spans: seq<Span>)
    ensures Sorted(Sort(spans, Before), Before)
    ensures forall s :: s in Sort(spans, Before) <==> s in spans
  {
    SortSorts(spans, Before);
    SortElements(spans, Before);
  }

  lemma {:induction false} CoveredIn(spans: seq<Span>, k: int)
    ensures Covered(spans, k) <==> exists s :: s in spans && s.start <= k < s.end
  {}

  // The text without the characters the spans cover, in whatever order the spans are given and however
  // they overlap.
  method WithoutSpans(text: string, spans: seq<Span>) returns (r: string)
    requires forall s :: s in spans ==> s.start <= s.end <= |text|
    ensures r == Keep(text, 0, spans)
  {
    hide Keep, Covered, Sort;
    var sorted := Sort(spans, Before);
    SpansInOrder(spans);
    var pieces: string, cursor: nat := "", 0;
    KeepAll(text[..0], 0, spans);
    for i := 0 to |sorted|
      invariant 0 <= cursor <= |text|
      invariant forall j :: 0 <= j < i ==> sorted[j].end <= cursor
      invariant i < |sorted| ==> forall k :: sorted[i].start <= k < cursor ==> Covered(spans, k)
      invariant pieces == Keep(text[..cursor], 0, spans)
    {
      var span := sorted[i];
      assert span in sorted && span in spans;
      if span.start > cursor {
        pieces := pieces + text[cursor..span.start];
      }
      forall k | cursor <= k < span.start ensures !Covered(spans, k) { Untouched(spans, sorted, i, cursor, k); }
      forall k | span.start <= k < span.end ensures Covered(spans, k) { CoveredIn(spans, k); }
      KeepPiece(text, spans, cursor, span.start, span.end);
      cursor := if cursor < span.end then span.end else cursor;
    }
    r := pieces + text[cursor..];
    forall k | cursor <= k < |text| ensures !Covered(spans, k) { Untouched(spans, sorted, |sorted|, cursor, k); }
    KeepPiece(text, spans, cursor, |text|, |text|);
    assert text[..|text|] == text;
  }

  // No span covers a position past the spans already seen and before the next one.
  lemma {:induction false} Untouched(spans: seq<Span>, sorted: seq<Span>, i: nat, cursor: nat, k: nat)
    requires Sorted(sorted, Before) && i <= |sorted| && forall s :: s in sorted <==> s in spans
    requires forall j :: 0 <= j < i ==> sorted[j].end <= cursor
    requires cursor <= k && (i < |sorted| ==> k < sorted[i].start)
    ensures !Covered(spans, k)
  {
    CoveredIn(spans, k);
    forall s | s in spans ensures !(s.start <= k < s.end) {
      var j :| 0 <= j < |sorted| && sorted[j] == s;
      if i < j { assert Before(sorted[i], sorted[j]); }
    }
  }

  // Text from cursor on: kept up to start, cut from there to end.
  lemma {:induction false} KeepPiece(text: string, spans: seq<Span>, cursor: nat, start: nat, end: nat)
    requires cursor <= |text| && start <= end <= |text|
    requires forall k :: cursor <= k < start ==> !Covered(spans, k)
    requires forall k :: start <= k < end ==> Covered(spans, k)
    ensures var to := if cursor < end then end else cursor;
      Keep(text[..to], 0, spans) == Keep(text[..cursor], 0, spans) + (if start > cursor then text[cursor..start] else "")
  {
    hide Keep, Covered;
    if cursor < end {
      var mid := if cursor < start then start else cursor;
      assert text[..end] == text[..cursor] + (text[cursor..mid] + text[mid..end]);
      KeepConcat(text[..cursor], text[cursor..mid] + text[mid..end], 0, spans);
      KeepConcat(text[cursor..mid], text[mid..end], cursor, spans);
      KeepAll(text[cursor..mid], cursor, spans);
      KeepNone(text[mid..end], mid, spans);
    }
  }

  /* ---- json_tree ---- */

  predicate Skippable(s: string, also: char) {
    forall i :: 0 <= i < |s| ==> IsSpace(s[i]) || s[i] == also
  }

  predicate Stops(s: string, also: char) { s != "" && !IsSpace(s[0]) && s[0] != also }

  // Advances past spaces and the given separator.
  method Skip(masked: string, from: nat, also: char, ghost junk: string, ghost rest: string) returns (to: nat)
    requires from <= |masked| && masked[from..] == junk + rest
    requires Skippable(junk, also) && Stops(rest, also)
    ensures to == from + |junk| <= |masked| && masked[to..] == rest
  {
    to := from;
    assert forall k :: 0 <= k < |junk| ==> masked[from + k] == junk[k];
    assert masked[from + |junk|] == rest[0];
    while IsSpace(masked[to]) || masked[to] == also
      invariant from <= to <= from + |junk|
      decreases from + |junk| - to
    {
      to := to + 1;
    }
    assert masked[to..] == masked[from..][|junk|..];
  }

  lemma {:induction false} GapSkips(g: string, also: char)
    requires IsGap(g, Json)
    ensures Skippable(g, also)
  {
    if g != "" {
      GapSkips(g[1..], also);
      assert forall i :: 0 < i < |g| ==> g[i] == g[1..][i - 1];
    }
  }

  lemma {:induction false} StartStops(s: string, also: char)
    requires Starts(s) && (also == ',' || also == ':' || also == ' ')
    ensures Stops(s, also) && s[0] != ']' && s[0] != '}'
  {}

  lemma {:induction false} KeyAt(head: Head, u: string) returns (sep: string)
    requires WellHeaded(head, Obj, Json) && Starts(u)
    ensures StringLen(WriteHead(head, u)) == |head.literal| && WriteHead(head, u)[..|head.literal|] == head.literal
    ensures WriteHead(head, u)[|head.literal|..] == sep + u && |head.literal| + |sep| == |HeadText(head)|
    ensures Skippable(sep, ':') && Stops(u, ':')
  {
    hide IsGap, StringLen;
    sep := head.before + ":" + head.after;
    var colon := head.before + (":" + (head.after + u));
    assert colon == sep + u;
    assert head.literal[..|head.literal|] == head.literal;
    StringLocal(head.literal, colon);
    GapSkips(head.before, ':');
    GapSkips(head.after, ':');
    StartStops(u, ':');
  }

  // Reads what stands before a member's value.
  method ReadKey(masked: string, from: nat, kind: Kind, idx: nat, ghost head: Head, ghost u: string) returns (key: Key, to: nat)
    requires from <= |masked| && masked[from..] == WriteHead(head, u)
    requires WellHeaded(head, kind, Json) && Starts(u)
    ensures key == KeyOf(kind, NameOf(head), idx)
    ensures to == from + |HeadText(head)| <= |masked| && masked[to..] == u
  {
    hide IsGap, StringLen, Starts, HeadText, Decode;
    if kind.Obj? {
      ghost var sep := KeyAt(head, u);
      hide WriteHead;
      var n := StringLen(masked[from..]);
      assert masked[from..from + n] == masked[from..][..n];
      key := Named(Decode(masked[from..from + n]));
      assert masked[from + n..] == masked[from..][n..];
      to := Skip(masked, from + n, ':', sep, u);
    } else {
      PositionIsEmpty(head, u);
      key, to := Index(idx), from;
    }
  }

  lemma {:induction false} PositionIsEmpty(head: Head, u: string)
    ensures head.Position? ==> HeadText(head) == "" && WriteHead(head, u) == u
  {}

  // What separates the reader from the closing bracket ...
  lemma {:induction false} EndStop(body: Body, kind: Kind, z: string, junk: string)
    requires body.Done? && WellBodied(body, kind, Json) && Skippable(junk, ',') && z != "" && z[0] == Closing(kind)
    ensures junk + WriteBody(body, z) == (junk + body.before) + z
    ensures Skippable(junk + body.before, ',') && Stops(z, ',') && |BodyText(body)| == |body.before|
  {
    GapSkips(body.before, ',');
    SkipConcat(junk, body.before, ',');
    assert Comma(false) + ("" + z) == z;
    assert junk + (body.before + z) == (junk + body.before) + z;
  }

  // ... or from the next member.
  lemma {:induction false} NextStop(body: Body, kind: Kind, r: string, junk: string) returns (skip: string, u: string)
    requires WellBodied(body, kind, Json) && Skippable(junk, ',')
    ensures junk + WriteBody(body, [Closing(kind)] + r) == skip + u
    ensures Skippable(skip, ',') && Stops(u, ',') && u != ""
    ensures body.Done? ==> u == [Closing(kind)] + r && |skip| == |junk| + |BodyText(body)|
    ensures body.More? ==> skip == junk + body.pre && u[0] != Closing(kind)
    ensures body.More? ==> u == WriteHead(body.head, Write(body.val, AfterValue(body, kind, r)))
  {
    hide WriteBody, BodyText, Write, WriteHead, IsGap, Starts, WellHeaded, WellFormed, Skippable, ParseHead;
    var z := [Closing(kind)] + r;
    if body.Done? {
      EndStop(body, kind, z, junk);
      skip, u := junk + body.before, z;
    } else {
      u := MemberStarts(body, kind, z, Json);
      GapSkips(body.pre, ',');
      SkipConcat(junk, body.pre, ',');
      StartStops(u, ',');
      skip := junk + body.pre;
      assert junk + (body.pre + u) == skip + u;
    }
  }

  lemma {:induction false} SkipConcat(a: string, b: string, also: char)
    requires Skippable(a, also) && Skippable(b, also)
    ensures Skippable(a + b, also)
  {}

  // Locates the members of a value. The ghost arguments say how the text from start on reads: a gap, the
  // value, and a rest the value does not run on into; that is what makes every index be in range.
  method JsonTree(masked: string, start: nat, ghost lead: string, ghost node: Node, ghost r: string) returns (tree: JsonNode)
    requires start <= |masked| && masked[start..] == lead + Write(node, r)
    requires IsGap(lead, Json) && WellFormed(node, Json) && Follows(node, r)
    ensures tree == TreeOf(node, start + |lead|)
    decreases node, 0
  {
    hide IsGap, WellBodied, WriteBody, Starts;
    GapSkips(lead, ' ');
    WriteStarts(node, r, Json);
    StartStops(Write(node, r), ' ');
    var at := Skip(masked, start, ' ', lead, Write(node, r));
    assert masked[at] == masked[at..][0];
    if masked[at] != '[' && masked[at] != '{' {
      AtomAt(node, r);
      return JsonNode(at, at + AtomLen(masked[at..]), []);
    }
    BoxAt(node, r);
    var kind := if masked[at] == '[' then Arr else Obj;
    assert masked[at + 1..] == masked[at..][1..];
    tree := ReadMembers(masked, at, kind, node.body, r);
  }

  lemma {:induction false} AtomAt(node: Node, r: string)
    requires WellFormed(node, Json) && Follows(node, r) && Write(node, r)[0] != '[' && Write(node, r)[0] != '{'
    ensures node.Atom? && AtomLen(Write(node, r)) == |node.raw|
  {
    if node.Atom? {
      assert node.raw[..|node.raw|] == node.raw;
      AtomLocal(node.raw, r);
    }
  }

  lemma {:induction false} BoxAt(node: Node, r: string)
    requires WellFormed(node, Json) && (Write(node, r)[0] == '[' || Write(node, r)[0] == '{')
    ensures node.Box? && Write(node, r)[0] == Opening(node.kind)
    ensures Write(node, r)[1..] == WriteBody(node.body, [Closing(node.kind)] + r)
  {}

  // The loop of json_tree over the members of a container.
  method ReadMembers(masked: string, start: nat, kind: Kind, ghost body: Body, ghost r: string) returns (node: JsonNode)
    requires start + 1 <= |masked| && masked[start + 1..] == WriteBody(body, [Closing(kind)] + r)
    requires WellBodied(body, kind, Json)
    ensures node == TreeOf(Box(kind, body), start)
    decreases body, 1
  {
    hide IsGap, WriteBody, WellHeaded, WellFormed, Write, WriteHead, Starts, BodyText, Text, HeadText, NextOffset, TreeOf, MembersOf, Skippable, Stops, AfterValue, ValueStart, KeyOf, WellBodied, NameOf, Follows, CommaAt, ValueEnd, Located, Comma;
    var members := [];
    var i := start + 1;
    NothingToSkip(',');
    NoneLocated(body, kind, start);
    ghost var left, junk, off: nat := body, "", i;
    ghost var z := [Closing(kind)] + r;
    while true
      invariant start < i <= |masked| && masked[i..] == junk + WriteBody(left, z)
      invariant Skippable(junk, ',') && WellBodied(left, kind, Json)
      invariant off == i + |junk| && Located(members, left, off, body, kind, start)
      invariant left == body || left < body
      decreases left
    {
      ghost var skip, u := NextStop(left, kind, r, junk);
      i := Skip(masked, i, ',', skip, u);
      assert masked[i] == masked[i..][0];
      if masked[i] == Closing(kind) {
        AllLocated(members, left, off, body, kind, start);
        return JsonNode(start, i + 1, members);
      }
      var member := ReadMember(masked, i, kind, |members|, left, off, r);
      OneMoreLocated(members, left, off, body, kind, start, member);
      members := members + [member];
      i := member.child.end;
      junk := left.post + Comma(left.next.More?);
      off, left := NextOffset(left, off), left.next;
    }
  }

  // One turn of the loop: a key, in an object, and a child.
  method ReadMember(masked: string, entry: nat, kind: Kind, idx: nat, ghost body: Body, ghost at: nat, ghost r: string)
    returns (member: Member)
    requires body.More? && WellBodied(body, kind, Json) && entry == at + |body.pre| <= |masked|
    requires masked[entry..] == WriteHead(body.head, Write(body.val, AfterValue(body, kind, r)))
    ensures member == Member(KeyOf(kind, NameOf(body.head), idx), entry, TreeOf(body.val, ValueStart(body, at)))
    ensures entry <= member.child.end == ValueEnd(body, at) <= |masked|
    ensures masked[member.child.end..] == (body.post + Comma(body.next.More?)) + WriteBody(body.next, [Closing(kind)] + r)
    ensures Skippable(body.post + Comma(body.next.More?), ',') && WellBodied(body.next, kind, Json)
    decreases body, 0
  {
    hide IsGap, WriteBody, WellHeaded, WellFormed, Write, WriteHead, Starts, BodyText, Text, HeadText, WellBodied, TreeOf, Follows, Skippable, KeyOf, NameOf;
    ghost var tail := AfterValue(body, kind, r);
    MemberParts(body, kind, r);
    var key, i := ReadKey(masked, entry, kind, idx, body.head, Write(body.val, tail));
    assert masked[i..] == "" + Write(body.val, tail);
    var child := JsonTree(masked, i, "", body.val, tail);
    TreeEnds(body.val, i);
    ValueThen(masked, i, body.val, tail);
    member := Member(key, entry, child);
  }

  ghost function AfterValue(body: Body, kind: Kind, r: string): string
    requires body.More?
  {
    body.post + (Comma(body.next.More?) + WriteBody(body.next, [Closing(kind)] + r))
  }

  // The members found so far and those left in the text are the members of the whole body.
  predicate Located(members: seq<Member>, left: Body, at: nat, body: Body, kind: Kind, start: nat) {
    && members + MembersOf(left, kind, |members|, at) == MembersOf(body, kind, 0, start + 1)
    && at + |BodyText(left)| == start + 1 + |BodyText(body)|
  }

  lemma {:induction false} NoneLocated(body: Body, kind: Kind, start: nat)
    ensures Located([], body, start + 1, body, kind, start)
  {}

  lemma {:induction false} OneMoreLocated(members: seq<Member>, left: Body, at: nat, body: Body, kind: Kind, start: nat, member: Member)
    requires left.More? && Located(members, left, at, body, kind, start)
    requires member == Member(KeyOf(kind, NameOf(left.head), |members|), at + |left.pre|, TreeOf(left.val, ValueStart(left, at)))
    ensures Located(members + [member], left.next, NextOffset(left, at), body, kind, start)
    ensures NextOffset(left, at) == ValueEnd(left, at) + |left.post + Comma(left.next.More?)|
  {
    hide TreeOf, NameOf, KeyOf, HeadText, Text;
    MemberJoins(left, kind, |members|, at);
    assert members + ([member] + MembersOf(left.next, kind, |members| + 1, NextOffset(left, at)))
      == (members + [member]) + MembersOf(left.next, kind, |members| + 1, NextOffset(left, at));
  }

  lemma {:induction false} AllLocated(members: seq<Member>, left: Body, at: nat, body: Body, kind: Kind, start: nat)
    requires left.Done? && Located(members, left, at, body, kind, start)
    ensures TreeOf(Box(kind, body), start) == JsonNode(start, at + |BodyText(left)| + 1, members)
  {}

  lemma {:induction false} NothingToSkip(also: char)
    ensures Skippable("", also)
  {}

  lemma {:induction false} TreeEnds(node: Node, off: nat)
    ensures TreeOf(node, off).end == off + |Text(node)|
  {}

  lemma {:induction false} ValueThen(masked: string, at: nat, node: Node, tail: string)
    requires at <= |masked| && masked[at..] == Write(node, tail)
    ensures at + |Text(node)| <= |masked| && masked[at + |Text(node)|..] == tail
  {
    hide Write, Text;
    WriteIsText(node, tail);
    assert masked[at..][|Text(node)|..] == masked[at + |Text(node)|..];
  }

  // The well-formed parts of a member, and what follows its value.
  lemma {:induction false} MemberParts(body: Body, kind: Kind, r: string)
    requires WellBodied(body, kind, Json) && body.More?
    ensures var tail := AfterValue(body, kind, r);
      && WellHeaded(body.head, kind, Json) && WellFormed(body.val, Json) && IsGap("", Json)
      && Follows(body.val, tail) && Starts(Write(body.val, tail))
      && Skippable(body.post + Comma(body.next.More?), ',') && WellBodied(body.next, kind, Json)
  {
    hide IsGap, WellHeaded, WellFormed, WriteBody, ParseTail;
    EmptyIsGap(Json);
    GapSkips(body.post, ',');
    TailReads(body.post, body.next, kind, r, Json);
    WriteStarts(body.val, body.post + (Comma(body.next.More?) + WriteBody(body.next, [Closing(kind)] + r)), Json);
  }

  // A located member in front of the members that follow it.
  lemma {:induction false} MemberJoins(body: Body, kind: Kind, idx: nat, off: nat)
    requires body.More?
    ensures MembersOf(body, kind, idx, off)
      == [Member(KeyOf(kind, NameOf(body.head), idx), off + |body.pre|, TreeOf(body.val, ValueStart(body, off)))]
         + MembersOf(body.next, kind, idx + 1, NextOffset(body, off))
    ensures NextOffset(body, off) == off + |body.pre| + |HeadText(body.head)| + |Text(body.val)| + |body.post + Comma(body.next.More?)|
    ensures off + |BodyText(body)| == NextOffset(body, off) + |BodyText(body.next)|
    ensures ValueStart(body, off) == off + |body.pre| + |HeadText(body.head)|
  {}
}
