/** JSON values, what a text means, and load_json. */
module Values {
  import opened Options
  import opened Lexical
  import opened Masking
  import opened Syntax
  import opened Agreement
  import opened Printing

  // The decoded text of a key or a string: code points, lone surrogates included.
  type Name = seq<int>

  // Numbers and literals are opaque tokens. The items of an array have empty names.
  datatype Json =
    | Scalar(token: string)
    | Str(chars: Name)
    | Container(kind: Kind, items: Items)

  datatype Items = Nil | Item(name: Name, value: Json, rest: Items)

  /* ---- from trees to values ---- */

  function NameOf(head: Head): Name {
    match head
    case Position => []
    case Field(literal, _, _) => Decode(literal)
  }

  function Meaning(node: Node): Json {
    match node
    case Atom(raw) => if raw != "" && raw[0] == '"' then Str(Decode(raw)) else Scalar(raw)
    case Box(kind, body) => Container(kind, ItemsOf(body))
  }

  function ItemsOf(body: Body): Items {
    match body
    case Done(_, _, _) => Nil
    case More(_, head, val, _, next) => Item(NameOf(head), Meaning(val), ItemsOf(next))
  }

  /* ---- duplicate keys ---- */

  predicate HasName(items: Items, name: Name) {
    items.Item? && (items.name == name || HasName(items.rest, name))
  }

  // No object at any depth has a key twice.
  predicate Unique(value: Json) {
    value.Container? ==> UniqueItems(value.items, value.kind)
  }

  predicate UniqueItems(items: Items, kind: Kind) {
    items.Item? ==>
      && (kind.Obj? ==> !HasName(items.rest, items.name))
      && Unique(items.value) && UniqueItems(items.rest, kind)
  }

  /* ---- load_json ---- */

  // Mask, then parse as strict JSON, refusing duplicate keys.
  function LoadJson(text: string): Option<Json> {
    if !Lexes(text) then None
    else
      var p := ParseDocument(Mask(text), Json);
      if p.Got? && Unique(Meaning(p.val.root)) then Some(Meaning(p.val.root)) else None
  }

  // The same, defined on the text itself by the JSONC grammar.
  function ReadJsonc(text: string): Option<Json> {
    var p := ParseDocument(text, Jsonc);
    if p.Got? && Unique(Meaning(p.val.root)) then Some(Meaning(p.val.root)) else None
  }

  lemma {:induction false} SameMeaning(a: Node, b: Node)
    requires Same(a, b)
    ensures Meaning(a) == Meaning(b)
  {
    if a.Box? { SameItems(a.body, b.body); }
  }

  lemma {:induction false} SameItems(a: Body, b: Body)
    requires SameBody(a, b)
    ensures ItemsOf(a) == ItemsOf(b)
  {
    if a.More? {
      SameMeaning(a.val, b.val);
      SameItems(a.next, b.next);
    }
  }

  /* ---- whole documents ---- */

  predicate WellDocumented(doc: Document, d: Dialect) {
    IsGap(doc.lead, d) && WellFormed(doc.root, d) && Gap(doc.trail, d) == |doc.trail|
  }

  lemma {:induction false} DocumentWritten(doc: Document)
    ensures DocumentText(doc) == doc.lead + Write(doc.root, doc.trail)
  {
    WriteIsText(doc.root, doc.trail);
  }

  lemma {:induction false} DocumentSound(s: string, d: Dialect)
    requires ParseDocument(s, d).Got?
    ensures WellDocumented(ParseDocument(s, d).val, d) && s == DocumentText(ParseDocument(s, d).val)
  {
    hide Gap, IsGap, WellFormed, Write;
    var g := Gap(s, d);
    GapSound(s, d);
    ValueSound(s[g..], d);
    DocumentWritten(ParseDocument(s, d).val);
    assert s == s[..g] + s[g..];
  }

  lemma {:induction false} DocumentReads(doc: Document, d: Dialect)
    requires WellDocumented(doc, d)
    ensures ParseDocument(DocumentText(doc), d) == Got(doc, "")
  {
    hide IsGap, WellFormed, Write, ParseValue;
    DocumentWritten(doc);
    var u := Write(doc.root, doc.trail);
    WriteStarts(doc.root, doc.trail, d);
    GapThen(doc.lead, u, d);
    ValueReads(doc.root, doc.trail, d);
  }

  lemma {:induction false} TrailLexes(t: string)
    requires Gap(t, Jsonc) == |t|
    ensures Lexes(t)
  {
    if t != "" {
      var n := if IsWs(t[0]) then 1 else CommentLen(t);
      TrailLexes(t[n..]);
    }
  }

  lemma {:induction false} DocumentLexes(doc: Document)
    requires WellDocumented(doc, Jsonc)
    ensures Lexes(DocumentText(doc))
  {
    hide Lexes, IsGap, WellFormed, Write;
    DocumentWritten(doc);
    TrailLexes(doc.trail);
    NodeLexes(doc.root, doc.trail);
    GapLexes(doc.lead, Write(doc.root, doc.trail));
  }

  // load_json accepts exactly the JSONC texts without duplicate keys, with the value the grammar gives.
  lemma {:induction false} LoadIsJsonc(text: string)
    ensures LoadJson(text) == ReadJsonc(text)
  {
    hide Lexes, Mask, ParseDocument, Unique, Meaning, Same;
    var q := ParseDocument(text, Jsonc);
    if Lexes(text) {
      AgreeOnDocument(text);
      if q.Got? { SameMeaning(ParseDocument(Mask(text), Json).val.root, q.val.root); }
    } else if q.Got? {
      DocumentSound(text, Jsonc);
      DocumentLexes(q.val);
    }
  }

  // Writing out a well-formed document and loading it gives its value.
  lemma {:induction false} LoadOfText(doc: Document)
    requires WellDocumented(doc, Jsonc) && Unique(Meaning(doc.root))
    ensures LoadJson(DocumentText(doc)) == Some(Meaning(doc.root))
  {
    hide WellDocumented, ParseDocument, LoadJson;
    LoadIsJsonc(DocumentText(doc));
    DocumentReads(doc, Jsonc);
  }
}
