/** A file for which the check after the edit fails. */
module FailedCheck {
  import opened Lexical
  import opened Syntax
  import opened Printing
  import opened Options
  import opened Values
  import opened Pruning
  import opened Hooks
  import opened Conditions
  import opened Recovery

  const FAILING := "{\"hooks\":{\"command\":\"x\"}}"

  predicate IsPlainText(s: string) { forall i :: 0 <= i < |s| ==> 32 <= s[i] as int && s[i] != '"' && s[i] != '\\' }

  function Quoted(s: string): string { "\"" + s + "\"" }

  lemma {:induction false} PlainTextCloses(s: string)
    requires IsPlainText(s)
    ensures BodyLen(s + "\"") == |s| + 1 && Unescape(s + "\"") == Ascii(s)
  {
    var t := s + "\"";
    if s == "" {
      assert Ascii(s) == [];
    } else {
      assert t[1..] == s[1..] + "\"";
      PlainTextCloses(s[1..]);
      assert Ascii(s) == [s[0] as int] + Ascii(s[1..]);
    }
  }

  lemma {:induction false} QuotedIsLiteral(s: string)
    requires IsPlainText(s)
    ensures IsLiteral(Quoted(s)) && IsAtom(Quoted(s)) && Decode(Quoted(s)) == Ascii(s)
  {
    hide BodyLen, Unescape, Ascii;
    PlainTextCloses(s);
    assert Quoted(s)[1..] == s + "\"";
  }

  function OneField(key: string, value: Node): Node {
    Box(Obj, More("", Field(Quoted(key), "", ""), value, "", Done("", false, "")))
  }

  lemma {:induction false} OneFieldReads(key: string, value: Node)
    requires IsPlainText(key) && WellFormed(value, Jsonc)
    ensures WellFormed(OneField(key, value), Jsonc)
    ensures Meaning(OneField(key, value)) == Container(Obj, Item(Ascii(key), Meaning(value), Nil))
    ensures Unique(Meaning(OneField(key, value))) <==> Unique(Meaning(value))
  {
    hide IsLiteral, Quoted, Ascii, Decode, IsGap, Gap;
    QuotedIsLiteral(key);
    EmptyIsGap(Jsonc);
    assert UniqueItems(Nil, Obj);
    var none := Done("", false, "");
    assert WellBodied(none, Obj, Jsonc) && ItemsOf(none) == Nil;
    assert ItemsOf(OneField(key, value).body) == Item(Ascii(key), Meaning(value), Nil);
  }

  lemma {:induction false} OneFieldText(key: string, value: Node)
    ensures Text(OneField(key, value)) == "{" + (Quoted(key) + ":" + Text(value)) + "}"
  {
    hide Quoted;
    var body := OneField(key, value).body;
    assert BodyText(body) == "" + ((Quoted(key) + "" + ":" + "") + (Text(value) + ("" + ("" + ("" + "" + "")))));
    assert BodyText(body) == Quoted(key) + ":" + Text(value);
  }

  lemma {:induction false} OneItem(key: string, value: Json, other: string)
    requires key != other
    ensures Lookup(Item(Ascii(key), value, Nil), Ascii(key)) == Some(value)
    ensures Lookup(Item(Ascii(key), value, Nil), Ascii(other)) == None
  {
    hide Ascii;
    if Ascii(key) == Ascii(other) { AsciiIsInjective(key, other); }
    assert Lookup(Nil, Ascii(other)) == None;
  }

  lemma {:induction false} QuotedReads(s: string)
    requires IsPlainText(s)
    ensures WellFormed(Atom(Quoted(s)), Jsonc) && Meaning(Atom(Quoted(s))) == Str(Ascii(s)) && Text(Atom(Quoted(s))) == Quoted(s)
    ensures Unique(Str(Ascii(s)))
  {
    hide Ascii, Decode;
    QuotedIsLiteral(s);
  }

  lemma {:induction false} FailingText()
    ensures FAILING == "{" + (Quoted("hooks") + ":" + ("{" + (Quoted("command") + ":" + Quoted("x")) + "}")) + "}"
  {}

  lemma {:induction false} GoesHere(command: Json, own: Owner)
    requires command.Str? && own(command)
    ensures Goes(Container(Obj, Item(Ascii("command"), command, Nil)), own)
  {
    hide Ascii, Commands;
    var items := Item(Ascii("command"), command, Nil);
    OneCommandOnly(command);
    assert Owned(own, Commands(items)[0]);
  }

  // A configuration with hooks and nothing else is fit when its hooks are an object.
  lemma {:induction false} FitHere(hooks: Json, host: Host)
    requires IsObj(hooks)
    ensures ShapeError(Item(Ascii("hooks"), hooks, Nil), host) == None
  {
    hide Ascii, Lookup;
    var config := Item(Ascii("hooks"), hooks, Nil);
    forall key | key != "hooks" ensures Lookup(config, Ascii(key)) == None { OneItem("hooks", hooks, key); }
    OneItem("hooks", hooks, "mcp");
  }

  // The file is a JSON object with fit containers, and its hooks container goes: clean_json refuses it.
  lemma {:induction false} CheckFails(settings: Settings)
    requires settings.own(Str(Ascii("x")))
    ensures LoadJson(FAILING) == Some(Container(Obj, Item(Ascii("hooks"), Container(Obj, Item(Ascii("command"), Str(Ascii("x")), Nil)), Nil)))
    ensures ShapeError(LoadJson(FAILING).value.items, settings.host) == None
    ensures HooksDropped(LoadJson(FAILING).value.items, settings.own)
  {
    hide LoadJson, Meaning, WellFormed, Text, Unique, OneField, Quoted, Ascii, IsAtom, IsGap;
    var x := Atom(Quoted("x"));
    QuotedReads("x");
    var inner := OneField("command", x);
    OneFieldReads("command", x);
    OneFieldReads("hooks", inner);
    OneFieldText("command", x);
    OneFieldText("hooks", inner);
    var root := OneField("hooks", inner);
    FailingText();
    EmptyIsGap(Jsonc);
    assert DocumentText(Document("", root, "")) == FAILING;
    LoadOfText(Document("", root, ""));
    var command := Str(Ascii("x"));
    var hooks := Container(Obj, Item(Ascii("command"), command, Nil));
    GoesHere(command, settings.own);
    FitHere(hooks, settings.host);
    OneItem("hooks", hooks, "mcp");
  }
}
