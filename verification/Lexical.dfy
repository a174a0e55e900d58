/** Characters, string literals, comments and scalar tokens of JSON and JSONC text. */
module Lexical {

  // RFC 8259 section 2: the whitespace the JSON parser skips.
  predicate IsWs(c: char) { c == ' ' || c == '\t' || c == '\n' || c == '\r' }

  // Python's str.isspace on one character, a larger class than JSON whitespace.
  predicate IsSpace(c: char) {
    var n := c as int;
    9 <= n <= 13 || 28 <= n <= 32 || n == 0x85 || n == 0xA0 || n == 0x1680
    || 0x2000 <= n <= 0x200A || n == 0x2028 || n == 0x2029 || n == 0x202F || n == 0x205F || n == 0x3000
  }

  predicate IsHex(c: char) { '0' <= c <= '9' || 'a' <= c <= 'f' || 'A' <= c <= 'F' }

  predicate IsDigit(c: char) { '0' <= c <= '9' }

  // The characters numbers and the three literals are made of.
  predicate IsScalarChar(c: char) {
    IsDigit(c) || 'a' <= c <= 'z' || 'A' <= c <= 'Z' || c == '+' || c == '-' || c == '.'
  }

  /* ---- string literals (RFC 8259 section 7, strict: no raw control characters) ---- */

  // Length of the escape sequence s starts with, 0 when it is not a legal one.
  function EscapeLen(s: string): (n: nat)
    ensures n <= |s|
  {
    if |s| < 2 || s[0] != '\\' then 0
    else if s[1] in "\"\\/bfnrt" then 2
    else if s[1] == 'u' && |s| >= 6 && IsHex(s[2]) && IsHex(s[3]) && IsHex(s[4]) && IsHex(s[5]) then 6
    else 0
  }

  // Length of the rest of a string literal, closing quote included; 0 when it is never closed or illegal.
  function BodyLen(s: string): (n: nat)
    ensures n <= |s|
  {
    if s == "" then 0
    else if s[0] == '"' then 1
    else
      var k := StepLen(s);
      if k == 0 then 0
      else
        var rest := BodyLen(s[k..]);
        if rest == 0 then 0 else k + rest
  }

  // Length of the string literal s starts with, 0 when there is none.
  function StringLen(s: string): (n: nat)
    ensures n <= |s|
  {
    if s == "" || s[0] != '"' then 0
    else
      var k := BodyLen(s[1..]);
      if k == 0 then 0 else 1 + k
  }

  function HexValue(c: char): int
    requires IsHex(c)
  {
    if '0' <= c <= '9' then c as int - '0' as int
    else if 'a' <= c <= 'f' then c as int - 'a' as int + 10
    else c as int - 'A' as int + 10
  }

  function CodeUnit(s: string): int
    requires EscapeLen(s) == 6
  {
    ((HexValue(s[2]) * 16 + HexValue(s[3])) * 16 + HexValue(s[4])) * 16 + HexValue(s[5])
  }

  function ShortEscape(c: char): int {
    match c
    case 'b' => 8
    case 'f' => 12
    case 'n' => 10
    case 'r' => 13
    case 't' => 9
    case _ => c as int
  }

  // The code points a literal's body denotes; a surrogate pair of \u escapes is one code point.
  function Unescape(s: string): seq<int>
  {
    if s == "" || s[0] == '"' then []
    else if s[0] != '\\' then [s[0] as int] + Unescape(s[1..])
    else if EscapeLen(s) == 0 then []
    else if EscapeLen(s) == 2 then [ShortEscape(s[1])] + Unescape(s[2..])
    else
      var hi := CodeUnit(s);
      var t := s[6..];
      if 0xD800 <= hi <= 0xDBFF && EscapeLen(t) == 6 && 0xDC00 <= CodeUnit(t) <= 0xDFFF then
        [0x10000 + (hi - 0xD800) * 0x400 + (CodeUnit(t) - 0xDC00)] + Unescape(t[6..])
      else
        [hi] + Unescape(t)
  }

  // The text denoted by a whole literal.
  function Decode(literal: string): seq<int> {
    if literal == "" then [] else Unescape(literal[1..])
  }

  // Length of the first character or escape of a literal's rest; 0 when it is illegal.
  function StepLen(s: string): (n: nat)
    requires s != ""
    ensures n <= |s|
  {
    if s[0] == '\\' then EscapeLen(s) else if (s[0] as int) < 32 then 0 else 1
  }

  lemma {:induction false} StepLocal(s: string, n: nat, x: string)
    requires s != "" && 0 < StepLen(s) <= n <= |s|
    ensures StepLen(s[..n] + x) == StepLen(s)
    ensures (s[..n] + x)[0] == s[0] && (s[..n] + x)[StepLen(s)..] == s[StepLen(s)..][..n - StepLen(s)] + x
  {}

  // A literal is recognised by its own characters only.
  lemma {:induction false} BodyLocal(s: string, x: string)
    requires BodyLen(s) > 0
    ensures BodyLen(s[..BodyLen(s)] + x) == BodyLen(s)
  {
    hide StepLen;
    if s[0] != '"' {
      BodyLocal(s[StepLen(s)..], x);
      StepLocal(s, BodyLen(s), x);
    }
  }

  lemma {:induction false} StringLocal(s: string, x: string)
    requires StringLen(s) > 0
    ensures StringLen(s[..StringLen(s)] + x) == StringLen(s)
  {
    var n := StringLen(s);
    BodyLocal(s[1..], x);
    assert (s[..n] + x)[1..] == s[1..][..n - 1] + x;
  }

  /* ---- scalar tokens (RFC 8259 sections 3 and 6) ---- */

  function Run(s: string): (n: nat)
    ensures n <= |s|
    ensures forall i :: 0 <= i < n ==> IsScalarChar(s[i])
  {
    if s == "" || !IsScalarChar(s[0]) then 0 else 1 + Run(s[1..])
  }

  function Digits(s: string): (n: nat)
    ensures n <= |s|
  {
    if s == "" || !IsDigit(s[0]) then 0 else 1 + Digits(s[1..])
  }

  predicate IsExponent(s: string) {
    s == "" ||
    ((s[0] == 'e' || s[0] == 'E') &&
     var t := if |s| > 1 && (s[1] == '+' || s[1] == '-') then s[2..] else s[1..];
     t != "" && Digits(t) == |t|)
  }

  predicate IsNumber(s: string) {
    var t := if s != "" && s[0] == '-' then s[1..] else s;
    var n := Digits(t);
    && n > 0
    && (t[0] == '0' ==> n == 1)
    && var u := t[n..];
    if u != "" && u[0] == '.' then
      var f := Digits(u[1..]);
      f > 0 && IsExponent(u[1 + f..])
    else IsExponent(u)
  }

  // NaN and the infinities are refused by the parser's constant hook.
  predicate IsScalar(s: string) {
    s == "true" || s == "false" || s == "null" || IsNumber(s)
  }

  // Length of the string literal or scalar s starts with, 0 when it starts with neither. Taking the
  // longest run of scalar characters is what the parser amounts to: a token followed by one more such
  // character is rejected at that character.
  function AtomLen(s: string): (n: nat)
    ensures n <= |s|
    ensures n > 0 ==> s[0] == '"' || IsScalarChar(s[0])
  {
    if s != "" && s[0] == '"' then StringLen(s)
    else
      var n := Run(s);
      if n > 0 && IsScalar(s[..n]) then n else 0
  }

  lemma {:induction false} RunStops(s: string, n: nat)
    requires n <= |s|
    requires forall i :: 0 <= i < n ==> IsScalarChar(s[i])
    requires n == |s| || !IsScalarChar(s[n])
    ensures Run(s) == n
  {
    if n > 0 { RunStops(s[1..], n - 1); }
  }

  lemma {:induction false} RunEnds(s: string)
    ensures Run(s) == |s| || !IsScalarChar(s[Run(s)])
  {
    if s != "" && IsScalarChar(s[0]) { RunEnds(s[1..]); }
  }

  // An atom is recognised by its own characters and the one after it.
  lemma {:induction false} AtomLocal(s: string, x: string)
    requires AtomLen(s) > 0
    requires s[0] == '"' || x == "" || !IsScalarChar(x[0])
    ensures AtomLen(s[..AtomLen(s)] + x) == AtomLen(s)
  {
    var n := AtomLen(s);
    if s[0] == '"' {
      StringLocal(s, x);
    } else {
      var t := s[..n] + x;
      RunStops(t, n);
      assert t[..n] == s[..n];
    }
  }

  /* ---- comments ---- */

  // Characters before the first line feed, all of them when there is none.
  function LineLen(s: string): (n: nat)
    ensures n <= |s|
  {
    if s == "" || s[0] == '\n' then 0 else 1 + LineLen(s[1..])
  }

  // Characters up to and including the first "*/", 0 when there is none.
  function BlockLen(s: string): (n: nat)
    ensures n <= |s|
  {
    if |s| < 2 then 0
    else if s[0] == '*' && s[1] == '/' then 2
    else
      var k := BlockLen(s[1..]);
      if k == 0 then 0 else 1 + k
  }

  predicate OpensLine(s: string) { |s| >= 2 && s[0] == '/' && s[1] == '/' }

  predicate OpensBlock(s: string) { |s| >= 2 && s[0] == '/' && s[1] == '*' }

  predicate OpensComment(s: string) { OpensLine(s) || OpensBlock(s) }

  // Length of the comment s starts with: a line comment stops before its line feed. 0 when s starts
  // with no comment or with a block comment that is never closed.
  function CommentLen(s: string): (n: nat)
    ensures n <= |s|
    ensures n > 0 ==> OpensComment(s) && n >= 2
    ensures OpensLine(s) ==> n > 0
  {
    if OpensLine(s) then 2 + LineLen(s[2..])
    else if OpensBlock(s) then
      var k := BlockLen(s[2..]);
      if k == 0 then 0 else 2 + k
    else 0
  }

  lemma {:induction false} LineLocal(s: string, x: string)
    requires LineLen(s) < |s|
    ensures LineLen(s + x) == LineLen(s)
  {
    if s[0] != '\n' {
      LineLocal(s[1..], x);
      assert (s + x)[1..] == s[1..] + x;
    }
  }

  lemma {:induction false} BlockLocal(s: string, x: string)
    requires BlockLen(s) > 0
    ensures BlockLen(s[..BlockLen(s)] + x) == BlockLen(s)
  {
    var n := BlockLen(s);
    if !(s[0] == '*' && s[1] == '/') {
      BlockLocal(s[1..], x);
      assert (s[..n] + x)[1..] == s[1..][..n - 1] + x;
      var m := BlockLen(s[1..]);
      assert m >= 2;
      assert (s[..n] + x)[0] == s[0] && (s[..n] + x)[1] == s[1];
    }
  }
}
