/** Texts put together from texts that load: with fillers around them, in lists and in objects. */
module Composing {
  import opened Options
  import opened Lexical
  import opened Syntax
  import opened Printing
  import opened Values
  import opened Tokens

  /* ---- fillers ---- */

  // What may stand between tokens: a blank, a comment to the end of its line, and a comment in marks.
  datatype Filler = Blank(c: char) | LineNote(text: string) | BlockNote(text: string)

  predicate Fills(f: Filler) {
    match f
    case Blank(c) => c in {' ', '\t', '\n', '\r'}
    case LineNote(text) => '\n' !in text
    case BlockNote(text) => NoMark(text)
  }

  predicate MarkAt(text: string, i: nat) { i + 1 < |text| && text[i] == '*' && text[i + 1] == '/' }

  predicate NoMark(text: string) { forall i: nat :: i < |text| ==> !MarkAt(text, i) }

  function FillerText(f: Filler): string {
    match f
    case Blank(c) => [c]
    case LineNote(text) => "//" + text + "\n"
    case BlockNote(text) => "/*" + text + "*/"
  }

  function FillersText(fs: seq<Filler>): string {
    if fs == [] then "" else FillerText(fs[0]) + FillersText(fs[1..])
  }

  predicate AllFill(fs: seq<Filler>) { forall i :: 0 <= i < |fs| ==> Fills(fs[i]) }

  lemma {:induction false} LineNoteEnds(text: string, rest: string)
    requires '\n' !in text
    ensures LineLen(text + "\n" + rest) == |text|
  {
    if text != "" {
      LineNoteEnds(text[1..], rest);
      assert (text + "\n" + rest)[1..] == text[1..] + "\n" + rest;
    }
  }

  lemma {:induction false} BlockNoteEnds(text: string, rest: string)
    requires NoMark(text)
    ensures BlockLen(text + "*/" + rest) == |text| + 2
  {
    var s := text + "*/" + rest;
    if text != "" {
      assert !MarkAt(text, 0);
      assert s[1..] == text[1..] + "*/" + rest;
      NoMarkBehind(text);
      BlockNoteEnds(text[1..], rest);
    }
  }

  lemma {:induction false} NoMarkBehind(text: string)
    requires text != ""
    ensures NoMark(text) <==> !MarkAt(text, 0) && NoMark(text[1..])
  {
    assert forall i: nat :: MarkAt(text[1..], i) <==> MarkAt(text, i + 1);
    assert forall i: nat :: i > 0 ==> MarkAt(text, i) == MarkAt(text[1..], i - 1);
  }

  lemma {:induction false} LineNoteInFront(text: string, g: string)
    requires '\n' !in text && IsGap(g, Jsonc)
    ensures IsGap("//" + text + "\n" + g, Jsonc)
  {
    hide LineLen;
    var s := "//" + text + "\n" + g;
    LineNoteEnds(text, g);
    assert s[2..] == text + "\n" + g;
    assert CommentLen(s) == 2 + |text|;
    assert s[2 + |text|..] == "\n" + g;
    BlankInFront('\n', g);
  }

  lemma {:induction false} BlankInFront(c: char, g: string)
    requires IsWs(c) && IsGap(g, Jsonc)
    ensures IsGap([c] + g, Jsonc)
  {
    assert ([c] + g)[1..] == g;
  }

  lemma {:induction false} BlockNoteInFront(text: string, g: string)
    requires IsGap(g, Jsonc) && NoMark(text)
    ensures IsGap("/*" + text + "*/" + g, Jsonc)
  {
    hide BlockLen, NoMark;
    var s := "/*" + text + "*/" + g;
    BlockNoteEnds(text, g);
    assert s[2..] == text + "*/" + g;
    assert CommentLen(s) == 2 + |text| + 2;
    assert s[2 + |text| + 2..] == g;
  }

  // A filler in front of a gap makes a gap.
  lemma {:induction false} FillerInFront(f: Filler, g: string)
    requires Fills(f) && IsGap(g, Jsonc)
    ensures IsGap(FillerText(f) + g, Jsonc)
  {
    hide IsGap;
    match f
    case Blank(c) => BlankInFront(c, g);
    case LineNote(text) => LineNoteInFront(text, g);
    case BlockNote(text) => BlockNoteInFront(text, g);
  }

  lemma {:induction false} FillersAreGap(fs: seq<Filler>)
    requires AllFill(fs)
    ensures IsGap(FillersText(fs), Jsonc)
  {
    hide IsGap;
    if fs == [] {
      EmptyIsGap(Jsonc);
    } else {
      FillersAreGap(fs[1..]);
      FillerInFront(fs[0], FillersText(fs[1..]));
    }
  }

  lemma {:induction false} NoteBeforeMark(s: string)
    requires BlockLen(s) > 0
    ensures BlockLen(s) >= 2 && s[BlockLen(s) - 2..BlockLen(s)] == "*/" && NoMark(s[..BlockLen(s) - 2])
  {
    hide NoMark;
    var k := BlockLen(s);
    if s[0] == '*' && s[1] == '/' {
      NothingHasNoMark();
    } else {
      NoteBeforeMark(s[1..]);
      var t := s[..k - 2];
      if t != "" {
        assert t[1..] == s[1..][..k - 3];
        NoMarkBehind(t);
      }
    }
  }

  lemma {:induction false} NothingHasNoMark()
    ensures NoMark("")
  {}

  lemma {:induction false} LineBeforeFeed(s: string)
    ensures '\n' !in s[..LineLen(s)] && (LineLen(s) < |s| ==> s[LineLen(s)] == '\n')
  {
    if s != "" && s[0] != '\n' {
      LineBeforeFeed(s[1..]);
      assert s[..LineLen(s)] == [s[0]] + s[1..][..LineLen(s[1..])];
    }
  }

  lemma {:induction false} LineIsFiller(g: string) returns (f: Filler)
    requires OpensLine(g) && CommentLen(g) < |g|
    ensures Fills(f) && g == FillerText(f) + g[CommentLen(g) + 1..] && g[CommentLen(g)] == '\n'
  {
    hide LineLen;
    var n := LineLen(g[2..]);
    LineBeforeFeed(g[2..]);
    f := LineNote(g[2..][..n]);
    assert CommentLen(g) == 2 + n;
    assert g == "//" + g[2..][..n] + "\n" + g[2 + n + 1..];
  }

  lemma {:induction false} BlockIsFiller(g: string) returns (f: Filler)
    requires OpensBlock(g) && CommentLen(g) > 0
    ensures Fills(f) && g == FillerText(f) + g[CommentLen(g)..]
  {
    hide BlockLen, NoMark;
    var k := BlockLen(g[2..]);
    NoteBeforeMark(g[2..]);
    f := BlockNote(g[2..][..k - 2]);
    assert CommentLen(g) == 2 + k;
    assert g == "/*" + g[2..][..k - 2] + g[2..][k - 2..k] + g[2 + k..];
  }

  lemma {:induction false} BlankFirst(g: string)
    requires IsGap(g, Jsonc) && g != "" && IsWs(g[0])
    ensures IsGap(g[1..], Jsonc)
  {}

  lemma {:induction false} CommentFirst(g: string)
    requires IsGap(g, Jsonc) && g != "" && !IsWs(g[0])
    ensures CommentLen(g) > 0 && (OpensLine(g) ==> CommentLen(g) < |g|) && IsGap(g[CommentLen(g)..], Jsonc)
  {}

  // Nothing but fillers is a gap.
  lemma {:induction false} GapIsFilled(g: string) returns (fs: seq<Filler>)
    requires IsGap(g, Jsonc)
    ensures AllFill(fs) && g == FillersText(fs)
    decreases |g|
  {
    hide CommentLen, IsGap, Fills, FillerText;
    if g == "" { return []; }
    var f, u;
    if IsWs(g[0]) {
      BlankFirst(g);
      f, u := Blank(g[0]), g[1..];
      BlankIsFiller(g);
    } else {
      CommentFirst(g);
      var n := CommentLen(g);
      if OpensLine(g) {
        f := LineIsFiller(g);
        u := g[n + 1..];
        assert g[n..][1..] == u;
        BlankFirst(g[n..]);
      } else {
        f := BlockIsFiller(g);
        u := g[n..];
      }
    }
    var rest := GapIsFilled(u);
    fs := [f] + rest;
    assert fs[1..] == rest;
  }

  lemma {:induction false} BlankIsFiller(g: string)
    requires g != "" && IsWs(g[0])
    ensures Fills(Blank(g[0])) && g == FillerText(Blank(g[0])) + g[1..]
  {}

  /* ---- texts that load ---- */

  lemma {:induction false} Taken(text: string) returns (doc: Document)
    requires LoadJson(text).Some?
    ensures IsGap(doc.lead, Jsonc) && WellFormed(doc.root, Jsonc) && Gap(doc.trail, Jsonc) == |doc.trail|
    ensures text == doc.lead + Text(doc.root) + doc.trail
    ensures LoadJson(text) == Some(Meaning(doc.root)) && Unique(Meaning(doc.root))
  {
    hide LoadJson, ParseDocument, IsGap, Gap;
    LoadIsJsonc(text);
    DocumentSound(text, Jsonc);
    doc := ParseDocument(text, Jsonc).val;
  }

  // Behind a line feed the last comment of a text is closed.
  lemma {:induction false} TrailCloses(trail: string)
    requires Gap(trail, Jsonc) == |trail|
    ensures IsGap(trail + "\n", Jsonc)
    decreases |trail|
  {
    hide CommentLen;
    if trail == "" {
      assert (trail + "\n")[1..] == "";
    } else if IsWs(trail[0]) {
      TrailCloses(trail[1..]);
      assert (trail + "\n")[1..] == trail[1..] + "\n";
    } else {
      var n := CommentLen(trail);
      TrailCloses(trail[n..]);
      CommentCloses(trail);
      assert (trail + "\n")[n..] == trail[n..] + "\n";
    }
  }

  lemma {:induction false} CommentCloses(s: string)
    requires CommentLen(s) > 0
    ensures ClosedComment(s + "\n") && CommentLen(s + "\n") == CommentLen(s)
  {
    hide LineLen, BlockLen;
    assert (s + "\n")[2..] == s[2..] + "\n";
    if OpensLine(s) {
      LineWith(s[2..]);
    } else {
      var t, k := s[2..], BlockLen(s[2..]);
      BlockLocal(t, t[k..] + "\n");
      assert t[..k] + (t[k..] + "\n") == t + "\n";
    }
  }

  lemma {:induction false} LineWith(s: string)
    ensures LineLen(s + "\n") == LineLen(s)
  {
    if s != "" {
      LineWith(s[1..]);
      assert (s + "\n")[1..] == s[1..] + "\n";
    }
  }

  // Fillers around a text change nothing of what it loads to.
  lemma {:induction false} FilledLoads(before: seq<Filler>, text: string, after: seq<Filler>)
    requires AllFill(before) && AllFill(after) && LoadJson(text).Some?
    ensures LoadJson(FillersText(before) + text + "\n" + FillersText(after)) == LoadJson(text)
  {
    hide LoadJson, IsGap, Gap, FillersText, Text, WellFormed, Meaning, Unique;
    var f, g := FillersText(before), FillersText(after);
    var doc := Taken(text);
    FillersAreGap(before);
    FillersAreGap(after);
    GapConcat(f, doc.lead, Jsonc);
    TrailCloses(doc.trail);
    GapConcat(doc.trail + "\n", g, Jsonc);
    var trail := doc.trail + "\n" + g;
    GapAppend(trail, "", Jsonc);
    assert trail + "" == trail && Gap("", Jsonc) == 0 by { NothingIsNoGap(); }
    LoadOfText(Document(f + doc.lead, doc.root, trail));
    assert (f + doc.lead) + Text(doc.root) + trail == f + (doc.lead + Text(doc.root) + doc.trail) + "\n" + g;
  }

  lemma {:induction false} NothingIsNoGap()
    ensures Gap("", Jsonc) == 0
  {}

  /* ---- lists and objects ---- */

  // A member of a list or an object; the key is an object's.
  datatype Entry = Entry(key: seq<Piece>, text: string)

  predicate AllKeyed(es: seq<Entry>) { forall i :: 0 <= i < |es| ==> AllWrite(es[i].key) && AllSeparate(es[i].key) }

  predicate AllLoad(es: seq<Entry>, vs: seq<Json>) {
    |es| == |vs| && forall i :: 0 <= i < |es| ==> LoadJson(es[i].text) == Some(vs[i])
  }

  predicate KeysDiffer(es: seq<Entry>)
    requires AllKeyed(es)
  {
    forall i, j :: 0 <= i < j < |es| ==> Points(es[i].key) != Points(es[j].key)
  }

  function EntryText(e: Entry, kind: Kind): string
    requires AllWrite(e.key)
  {
    if kind.Arr? then e.text else StringText(e.key) + ":" + e.text
  }

  // The members with a comma between them, and perhaps one behind them.
  function EntriesText(es: seq<Entry>, kind: Kind, trailing: bool): string
    requires AllKeyed(es)
  {
    if es == [] then (if trailing then "," else "")
    else EntryText(es[0], kind) + "\n" + (if |es| > 1 then "," else "") + EntriesText(es[1..], kind, trailing)
  }

  function BoxText(es: seq<Entry>, kind: Kind, trailing: bool): string
    requires AllKeyed(es)
  {
    if kind.Arr? then "[" + EntriesText(es, kind, trailing) + "]" else "{" + EntriesText(es, kind, trailing) + "}"
  }

  function ItemsFor(es: seq<Entry>, vs: seq<Json>, kind: Kind): Items
    requires AllKeyed(es) && |es| == |vs|
  {
    if es == [] then Nil
    else Item(if kind.Obj? then Points(es[0].key) else [], vs[0], ItemsFor(es[1..], vs[1..], kind))
  }

  lemma {:induction false} KeyReads(ps: seq<Piece>)
    requires AllWrite(ps) && AllSeparate(ps)
    ensures IsLiteral(StringText(ps)) && Decode(StringText(ps)) == Points(ps)
  {
    hide BodyLen, Unescape, PiecesText;
    PiecesRead(ps);
    assert StringText(ps)[1..] == PiecesText(ps) + "\"";
  }

  lemma {:induction false} EntriesAre(es: seq<Entry>, vs: seq<Json>, kind: Kind, trailing: bool) returns (body: Body)
    requires AllKeyed(es) && AllLoad(es, vs)
    ensures WellBodied(body, kind, Jsonc) && (body.Done? <==> es == [])
    ensures BodyText(body) == EntriesText(es, kind, trailing) && ItemsOf(body) == ItemsFor(es, vs, kind)
  {
    hide LoadJson, IsGap, Gap, IsLiteral, Decode, Points, StringText, WellFormed, Text, Meaning, Unique, AllSeparate;
    EmptyIsGap(Jsonc);
    if es == [] {
      body := Done("", trailing, "");
    } else {
      assert LoadJson(es[0].text) == Some(vs[0]) && AllWrite(es[0].key) && AllSeparate(es[0].key);
      var doc := Taken(es[0].text);
      var rest := EntriesAre(es[1..], vs[1..], kind, trailing);
      TrailCloses(doc.trail);
      KeyReads(es[0].key);
      var pre := if kind.Arr? then doc.lead else "";
      var head := if kind.Arr? then Position else Field(StringText(es[0].key), "", doc.lead);
      HeadsText(es[0], doc, kind);
      if |es| > 1 {
        body := More(pre, head, doc.root, doc.trail + "\n", rest);
        Grouped(pre, HeadText(head), Text(doc.root), doc.trail, ",", BodyText(rest));
      } else {
        assert rest.Done? && es[1..] == [];
        body := More(pre, head, doc.root, "", Done(doc.trail + "\n", trailing, ""));
        Grouped(pre, HeadText(head), Text(doc.root), doc.trail, "", Comma(trailing));
        DoneText(doc.trail + "\n", trailing);
      }
    }
  }

  lemma {:induction false} HeadsText(e: Entry, doc: Document, kind: Kind)
    requires AllWrite(e.key) && e.text == doc.lead + Text(doc.root) + doc.trail
    ensures EntryText(e, kind) ==
      (if kind.Arr? then doc.lead + "" else "" + HeadText(Field(StringText(e.key), "", doc.lead))) + Text(doc.root) + doc.trail
  {
    hide Text, StringText;
    if kind.Obj? { KeyedText(StringText(e.key), doc.lead, Text(doc.root), doc.trail); }
  }

  lemma {:induction false} KeyedText(key: string, lead: string, text: string, trail: string)
    ensures key + ":" + (lead + text + trail) == "" + (key + "" + ":" + lead) + text + trail
  {
    var k := key + ":";
    assert key + "" + ":" == k;
    assert k + (lead + text + trail) == (k + lead) + text + trail;
  }

  lemma {:induction false} Grouped(pre: string, head: string, text: string, trail: string, comma: string, rest: string)
    ensures pre + (head + (text + ((trail + "\n") + (comma + rest)))) == pre + head + text + trail + "\n" + comma + rest
  {}

  lemma {:induction false} DoneText(before: string, trailing: bool)
    ensures "" + ("" + BodyText(Done(before, trailing, ""))) == before + ("" + Comma(trailing))
    ensures BodyText(Done(before, trailing, "")) == before + Comma(trailing)
  {}

  lemma {:induction false} NamesAre(es: seq<Entry>, vs: seq<Json>, name: Name)
    requires AllKeyed(es) && |es| == |vs|
    ensures HasName(ItemsFor(es, vs, Obj), name) <==> exists i :: 0 <= i < |es| && Points(es[i].key) == name
  {
    hide Points;
    if es != [] {
      NamesAre(es[1..], vs[1..], name);
      assert forall i :: 0 < i < |es| ==> es[i] == es[1..][i - 1];
    }
  }

  lemma {:induction false} UniqueWhenDifferent(es: seq<Entry>, vs: seq<Json>, kind: Kind)
    requires AllKeyed(es) && |es| == |vs| && forall i :: 0 <= i < |vs| ==> Unique(vs[i])
    ensures UniqueItems(ItemsFor(es, vs, kind), kind) <==> kind.Arr? || KeysDiffer(es)
  {
    hide Points, HasName, Unique;
    if es != [] {
      UniqueWhenDifferent(es[1..], vs[1..], kind);
      NamesAre(es[1..], vs[1..], Points(es[0].key));
      assert forall i :: 0 < i < |es| ==> es[i] == es[1..][i - 1];
    }
  }

  // Texts that load, one behind the other, load as a list; with keys they load as an object, unless two keys are the
  // same. A comma may be left behind the last.
  lemma {:induction false} BoxLoads(es: seq<Entry>, vs: seq<Json>, kind: Kind, trailing: bool)
    requires AllKeyed(es) && AllLoad(es, vs)
    ensures LoadJson(BoxText(es, kind, trailing)) ==
      if kind.Arr? || KeysDiffer(es) then Some(Container(kind, ItemsFor(es, vs, kind))) else None
  {
    hide LoadJson, ParseDocument, IsGap, Gap, BodyText, EntriesText, WellBodied, ItemsOf, UniqueItems, ItemsFor, KeysDiffer;
    var body := EntriesAre(es, vs, kind, trailing);
    forall i | 0 <= i < |vs| ensures Unique(vs[i]) {
      assert LoadJson(es[i].text) == Some(vs[i]);
      var _ := Taken(es[i].text);
    }
    UniqueWhenDifferent(es, vs, kind);
    EmptyIsGap(Jsonc);
    NothingIsNoGap();
    var doc := Document("", Box(kind, body), "");
    assert DocumentText(doc) == BoxText(es, kind, trailing);
    LoadIsJsonc(DocumentText(doc));
    DocumentReads(doc, Jsonc);
  }
}
