/** Numbers, literals and strings as they are written, and that exactly these are read. */
module Tokens {
  import opened Lexical
  import opened Masking
  import opened Syntax
  import opened Options
  import opened Agreement
  import opened Printing
  import opened Values

  /* ---- numbers ---- */

  type Figure = d: nat | d < 10

  datatype Sign = NoSign | Plus | Minus

  datatype Exponent = Exponent(upper: bool, sign: Sign, figures: seq<Figure>)

  datatype Number = Number(minus: bool, whole: seq<Figure>, fraction: Option<seq<Figure>>, exponent: Option<Exponent>)

  // Section 6 of RFC 8259: no leading zero, and no part without a figure.
  predicate Proper(n: Number) {
    && n.whole != [] && (n.whole[0] == 0 ==> |n.whole| == 1)
    && (n.fraction.Some? ==> n.fraction.value != [])
    && (n.exponent.Some? ==> n.exponent.value.figures != [])
  }

  function Figures(ds: seq<Figure>): (r: string)
    ensures |r| == |ds|
  {
    seq(|ds|, i requires 0 <= i < |ds| => ('0' as int + ds[i]) as char)
  }

  function SignText(sign: Sign): string {
    match sign
    case NoSign => ""
    case Plus => "+"
    case Minus => "-"
  }

  function ExponentText(e: Option<Exponent>): string {
    if e.None? then "" else (if e.value.upper then "E" else "e") + SignText(e.value.sign) + Figures(e.value.figures)
  }

  function FractionText(f: Option<seq<Figure>>): string { if f.None? then "" else "." + Figures(f.value) }

  function NumberText(n: Number): string {
    (if n.minus then "-" else "") + (Figures(n.whole) + (FractionText(n.fraction) + ExponentText(n.exponent)))
  }

  // Figures in front of something else are as many digits.
  lemma {:induction false} FiguresRead(ds: seq<Figure>, rest: string)
    requires rest == "" || !IsDigit(rest[0])
    ensures Digits(Figures(ds) + rest) == |ds|
  {
    if ds != [] {
      FiguresRead(ds[1..], rest);
      assert (Figures(ds) + rest)[1..] == Figures(ds[1..]) + rest;
    } else {
      assert Figures(ds) + rest == rest;
    }
  }

  lemma {:induction false} ExponentReads(e: Option<Exponent>)
    ensures IsExponent(ExponentText(e)) <==> (e.Some? ==> e.value.figures != [])
    ensures ExponentText(e) != "" ==> ExponentText(e)[0] == 'e' || ExponentText(e)[0] == 'E'
  {
    if e.Some? {
      var figures := Figures(e.value.figures);
      var s := ExponentText(e);
      FiguresRead(e.value.figures, "");
      assert figures + "" == figures;
      if e.value.sign.NoSign? { assert s[1..] == figures; } else { assert s[2..] == figures; }
    }
  }

  lemma {:induction false} FractionReads(f: Option<seq<Figure>>, e: Option<Exponent>)
    ensures var u := FractionText(f) + ExponentText(e);
      && (u == "" || !IsDigit(u[0])) && (u != "" && u[0] == '.' <==> f.Some?)
      && (f.None? ==> u == ExponentText(e))
      && (f.Some? ==> Digits(u[1..]) == |f.value| && u[1 + |f.value|..] == ExponentText(e))
  {
    hide ExponentText, IsExponent, Digits, Figures;
    ExponentReads(e);
    if f.Some? {
      DotReads(f.value, ExponentText(e));
    } else {
      assert FractionText(f) + ExponentText(e) == ExponentText(e);
    }
  }

  lemma {:induction false} DotReads(ds: seq<Figure>, rest: string)
    requires rest == "" || !IsDigit(rest[0])
    ensures var u := "." + Figures(ds) + rest; u[0] == '.' && Digits(u[1..]) == |ds| && u[1 + |ds|..] == rest
  {
    hide Digits;
    FiguresRead(ds, rest);
    assert ("." + Figures(ds) + rest)[1..] == Figures(ds) + rest;
  }

  // A written number is one exactly when it is proper.
  lemma {:induction false} NumberReads(n: Number)
    ensures IsNumber(NumberText(n)) <==> Proper(n)
  {
    hide FractionText, ExponentText, IsExponent, Figures;
    var u := FractionText(n.fraction) + ExponentText(n.exponent);
    var s := NumberText(n);
    var t := Figures(n.whole) + u;
    FractionReads(n.fraction, n.exponent);
    ExponentReads(n.exponent);
    FiguresRead(n.whole, u);
    assert t[|n.whole|..] == u;
    FirstFigure(n.whole, u);
    if n.minus { assert s[1..] == t; } else { assert s == t; }
  }

  lemma {:induction false} FirstFigure(ds: seq<Figure>, rest: string)
    ensures ds != [] ==> IsDigit((Figures(ds) + rest)[0]) && ((Figures(ds) + rest)[0] == '0' <==> ds[0] == 0)
    ensures ds == [] ==> Figures(ds) + rest == rest
  {}

  // Numbers are read one way: what is read as one was written as one.
  lemma {:induction false} DigitsAreFigures(s: string) returns (ds: seq<Figure>)
    ensures |ds| == Digits(s) && s[..Digits(s)] == Figures(ds)
  {
    if s != "" && IsDigit(s[0]) {
      var rest := DigitsAreFigures(s[1..]);
      ds := [s[0] as int - '0' as int] + rest;
      assert s[..Digits(s)] == [s[0]] + s[1..][..Digits(s[1..])];
    } else {
      ds := [];
    }
  }

  lemma {:induction false} ExponentIsWritten(s: string) returns (e: Option<Exponent>)
    requires IsExponent(s)
    ensures s == ExponentText(e) && (e.Some? ==> e.value.figures != [])
  {
    if s == "" { return None; }
    var sign := if |s| > 1 && s[1] == '+' then Plus else if |s| > 1 && s[1] == '-' then Minus else NoSign;
    var t := if sign.NoSign? then s[1..] else s[2..];
    var ds := DigitsAreFigures(t);
    e := Some(Exponent(s[0] == 'E', sign, ds));
    assert t[..|t|] == t;
    assert s == [s[0]] + s[1..];
    if !sign.NoSign? { assert s[1..] == [s[1]] + s[2..]; }
  }

  // What may follow the whole part.
  predicate IsTail(u: string) {
    if u != "" && u[0] == '.' then
      var f := Digits(u[1..]);
      f > 0 && IsExponent(u[1 + f..])
    else IsExponent(u)
  }

  lemma {:induction false} TailIsWritten(u: string) returns (fraction: Option<seq<Figure>>, exponent: Option<Exponent>)
    requires IsTail(u)
    ensures u == FractionText(fraction) + ExponentText(exponent)
    ensures (fraction.Some? ==> fraction.value != []) && (exponent.Some? ==> exponent.value.figures != [])
  {
    hide IsExponent, ExponentText, Digits;
    if u != "" && u[0] == '.' {
      var f := Digits(u[1..]);
      var ds := DigitsAreFigures(u[1..]);
      fraction := Some(ds);
      exponent := ExponentIsWritten(u[1 + f..]);
      assert u == ("." + u[1..][..f]) + u[1 + f..];
    } else {
      fraction := None;
      exponent := ExponentIsWritten(u);
      assert u == "" + u;
    }
  }

  lemma {:induction false} NumberIs(s: string, t: string)
    requires t == if s != "" && s[0] == '-' then s[1..] else s
    ensures IsNumber(s) <==> Digits(t) > 0 && (t[0] == '0' ==> Digits(t) == 1) && IsTail(t[Digits(t)..])
  {
    hide IsExponent, Digits;
  }

  lemma {:induction false} NumberIsWritten(s: string) returns (n: Number)
    requires IsNumber(s)
    ensures s == NumberText(n) && Proper(n)
  {
    hide IsNumber, IsTail, FractionText, ExponentText, Digits, Figures;
    var minus := s != "" && s[0] == '-';
    var t := if minus then s[1..] else s;
    NumberIs(s, t);
    var k := Digits(t);
    var whole := DigitsAreFigures(t);
    var fraction, exponent := TailIsWritten(t[k..]);
    n := Number(minus, whole, fraction, exponent);
    assert t == t[..k] + t[k..] && s == (if minus then "-" else "") + t;
    FirstFigure(whole, t[k..]);
  }

  /* ---- loading them ---- */

  predicate AllScalar(s: string) { forall i :: 0 <= i < |s| ==> IsScalarChar(s[i]) }

  // A text of scalar characters loads exactly when it is a scalar, to its own token.
  lemma {:induction false} ScalarTextLoads(s: string)
    requires s != "" && AllScalar(s)
    ensures LoadJson(s) == if IsScalar(s) then Some(Scalar(s)) else None
  {
    hide LoadJson, IsScalar, IsScalarChar, Gap;
    RunStops(s, |s|);
    assert s[..|s|] == s;
    ScalarIsPlain(s);
    if IsScalar(s) {
      var doc := Document("", Atom(s), "");
      EmptyIsGap(Jsonc);
      assert DocumentText(doc) == s;
      LoadOfText(doc);
    } else {
      LoadIsJsonc(s);
      NoGap(s);
      assert s[0..] == s;
    }
  }

  lemma {:induction false} ScalarIsPlain(s: string)
    requires s != "" && AllScalar(s)
    ensures s[0] != '"' && s[0] != '[' && s[0] != '{' && !IsWs(s[0]) && s[0] != '/'
  {}

  lemma {:induction false} NoGap(s: string)
    requires s != "" && !IsWs(s[0]) && s[0] != '/'
    ensures Gap(s, Jsonc) == 0
  {}

  lemma {:induction false} FiguresAreScalar(ds: seq<Figure>)
    ensures AllScalar(Figures(ds))
  {}

  lemma {:induction false} NumberTextIsScalar(n: Number)
    ensures AllScalar(NumberText(n))
  {
    hide Figures;
    FiguresAreScalar(n.whole);
    if n.fraction.Some? { FiguresAreScalar(n.fraction.value); }
    if n.exponent.Some? { FiguresAreScalar(n.exponent.value.figures); }
  }

  // A written number loads exactly when it is proper, to its own token.
  lemma {:induction false} NumberLoads(n: Number)
    ensures LoadJson(NumberText(n)) == if Proper(n) then Some(Scalar(NumberText(n))) else None
  {
    hide LoadJson, NumberText, IsNumber, Proper;
    NumberReads(n);
    NumberTextIsScalar(n);
    if NumberText(n) == "" {
      NothingIsImproper(n);
      NothingLoads();
    } else {
      WordIsNoNumber(n);
      ScalarTextLoads(NumberText(n));
    }
  }

  lemma {:induction false} NothingIsImproper(n: Number)
    requires NumberText(n) == ""
    ensures !Proper(n)
  {
    assert |NumberText(n)| >= |n.whole|;
  }

  lemma {:induction false} TailStarts(f: Option<seq<Figure>>, e: Option<Exponent>)
    ensures var u := FractionText(f) + ExponentText(e); u != "" ==> u[0] == '.' || u[0] == 'e' || u[0] == 'E'
  {
    hide Figures;
  }

  // No written number is one of the three literals.
  lemma {:induction false} WordIsNoNumber(n: Number)
    ensures NumberText(n) != "true" && NumberText(n) != "false" && NumberText(n) != "null"
  {
    hide Figures, FractionText, ExponentText;
    var u := FractionText(n.fraction) + ExponentText(n.exponent);
    var t := Figures(n.whole) + u;
    FirstFigure(n.whole, u);
    TailStarts(n.fraction, n.exponent);
    assert NumberText(n) == (if n.minus then "-" else "") + t;
    assert NumberText(n) != "" ==> NumberText(n)[0] == if n.minus then '-' else t[0];
  }

  lemma {:induction false} NothingLoads()
    ensures LoadJson("") == None
  {
    hide LoadJson;
    LoadIsJsonc("");
  }

  predicate Letters(s: string) { forall i :: 0 <= i < |s| ==> 'a' <= s[i] <= 'z' || 'A' <= s[i] <= 'Z' }

  // Of all words the three literals load.
  lemma {:induction false} WordLoads(word: string)
    requires Letters(word)
    ensures LoadJson(word) == if word == "true" || word == "false" || word == "null" then Some(Scalar(word)) else None
  {
    hide LoadJson, IsNumber;
    if word == "" {
      NothingLoads();
    } else {
      LettersAreNoNumber(word);
      ScalarTextLoads(word);
    }
  }

  lemma {:induction false} LettersAreNoNumber(word: string)
    requires Letters(word)
    ensures !IsNumber(word)
  {}

  /* ---- strings ---- */

  // Whether each of the four digits of an escape is written as a capital.
  datatype Capitals = Capitals(a: bool, b: bool, c: bool, d: bool)

  // What a string literal is written with: a character as it is, a short escape, the escape of one UTF-16 code unit,
  // and the two escapes of a code point beyond them.
  datatype Piece =
    | Plain(c: char)
    | Short(letter: char)
    | Code(code: nat, capitals: Capitals)
    | Pair(point: nat, high: Capitals, low: Capitals)

  // Section 7 of RFC 8259.
  const SHORT_ESCAPES: map<char, int> :=
    map['"' := 34, '\\' := 92, '/' := 47, 'b' := 8, 'f' := 12, 'n' := 10, 'r' := 13, 't' := 9]

  predicate Writes(p: Piece) {
    match p
    case Plain(c) => c as int >= 32 && c != '"' && c != '\\'
    case Short(letter) => letter in SHORT_ESCAPES
    case Code(code, _) => code < 0x10000
    case Pair(point, _, _) => 0x10000 <= point < 0x110000
  }

  function HexDigit(n: nat, capital: bool): char
    requires n < 16
  {
    if capital then "0123456789ABCDEF"[n] else "0123456789abcdef"[n]
  }

  function CodeText(code: nat, c: Capitals): (r: string)
    requires code < 0x10000
    ensures |r| == 6
  {
    ['\\', 'u', HexDigit(code / 4096, c.a), HexDigit(code / 256 % 16, c.b), HexDigit(code / 16 % 16, c.c), HexDigit(code % 16, c.d)]
  }

  function HighOf(point: nat): nat
    requires 0x10000 <= point < 0x110000
  {
    0xD800 + (point - 0x10000) / 0x400
  }

  function LowOf(point: nat): nat
    requires 0x10000 <= point
  {
    0xDC00 + (point - 0x10000) % 0x400
  }

  function PieceText(p: Piece): (r: string)
    requires Writes(p)
    ensures r != ""
  {
    match p
    case Plain(c) => [c]
    case Short(letter) => ['\\', letter]
    case Code(code, capitals) => CodeText(code, capitals)
    case Pair(point, high, low) => CodeText(HighOf(point), high) + CodeText(LowOf(point), low)
  }

  function PointOf(p: Piece): int
    requires Writes(p)
  {
    match p
    case Plain(c) => c as int
    case Short(letter) => SHORT_ESCAPES[letter]
    case Code(code, _) => code
    case Pair(point, _, _) => point
  }

  predicate AllWrite(ps: seq<Piece>) { forall i :: 0 <= i < |ps| ==> Writes(ps[i]) }

  function PiecesText(ps: seq<Piece>): string
    requires AllWrite(ps)
  {
    if ps == [] then "" else PieceText(ps[0]) + PiecesText(ps[1..])
  }

  function Points(ps: seq<Piece>): (r: seq<int>)
    requires AllWrite(ps)
    ensures |r| == |ps|
  {
    seq(|ps|, i requires 0 <= i < |ps| => PointOf(ps[i]))
  }

  // A high surrogate and a low one written apart would be read as one code point.
  predicate Separate(p: Piece, q: Piece) {
    !(p.Code? && 0xD800 <= p.code <= 0xDBFF && q.Code? && 0xDC00 <= q.code <= 0xDFFF)
  }

  predicate AllSeparate(ps: seq<Piece>) { forall i :: 0 <= i < |ps| - 1 ==> Separate(ps[i], ps[i + 1]) }

  lemma {:induction false} HexReads(n: nat, capital: bool)
    requires n < 16
    ensures IsHex(HexDigit(n, capital)) && HexValue(HexDigit(n, capital)) == n
  {
    var small, large := "0123456789abcdef", "0123456789ABCDEF";
    assert forall i :: 0 <= i < 10 ==> small[i] as int == '0' as int + i && large[i] == small[i];
    assert forall i :: 10 <= i < 16 ==> small[i] as int == 'a' as int + i - 10 && large[i] as int == 'A' as int + i - 10;
  }

  lemma {:induction false} CodeReads(code: nat, c: Capitals, rest: string)
    requires code < 0x10000
    ensures var s := CodeText(code, c) + rest;
      EscapeLen(s) == 6 && CodeUnit(s) == code && s[6..] == rest && s[0] == '\\'
  {
    hide HexDigit, IsHex, HexValue;
    HexReads(code / 4096, c.a);
    HexReads(code / 256 % 16, c.b);
    HexReads(code / 16 % 16, c.c);
    HexReads(code % 16, c.d);
    FourDigits(code);
  }

  lemma {:induction false} FourDigits(code: nat)
    requires code < 0x10000
    ensures ((code / 4096 * 16 + code / 256 % 16) * 16 + code / 16 % 16) * 16 + code % 16 == code
  {}

  lemma {:induction false} ShortReads(letter: char, rest: string)
    requires letter in SHORT_ESCAPES
    ensures var s := ['\\', letter] + rest;
      EscapeLen(s) == 2 && ShortEscape(s[1]) == SHORT_ESCAPES[letter] && s[2..] == rest && s[0] == '\\'
  {}

  // A piece in front of a rest closes as the rest does.
  lemma {:induction false} PieceCloses(p: Piece, rest: string)
    requires Writes(p) && BodyLen(rest) > 0
    ensures BodyLen(PieceText(p) + rest) == |PieceText(p)| + BodyLen(rest)
  {
    hide CodeText, EscapeLen, HighOf, LowOf;
    match p
    case Plain(c) => assert ([c] + rest)[1..] == rest;
    case Short(letter) => ShortReads(letter, rest);
    case Code(code, capitals) => CodeReads(code, capitals, rest);
    case Pair(point, high, low) =>
      Surrogates(point);
      var second := CodeText(LowOf(point), low) + rest;
      CodeReads(LowOf(point), low, rest);
      CodeReads(HighOf(point), high, second);
      assert PieceText(p) + rest == CodeText(HighOf(point), high) + second;
  }

  lemma {:induction false} Surrogates(point: nat)
    requires 0x10000 <= point < 0x110000
    ensures 0xD800 <= HighOf(point) <= 0xDBFF && 0xDC00 <= LowOf(point) <= 0xDFFF
    ensures 0x10000 + (HighOf(point) - 0xD800) * 0x400 + (LowOf(point) - 0xDC00) == point
  {}

  // No low surrogate is escaped at the start.
  predicate NoLow(rest: string) { EscapeLen(rest) == 6 ==> !(0xDC00 <= CodeUnit(rest) <= 0xDFFF) }

  lemma {:induction false} PieceDecodes(p: Piece, rest: string)
    requires Writes(p) && (p.Code? && 0xD800 <= p.code <= 0xDBFF ==> NoLow(rest))
    ensures Unescape(PieceText(p) + rest) == [PointOf(p)] + Unescape(rest)
  {
    hide CodeText, EscapeLen, CodeUnit, HighOf, LowOf, ShortEscape;
    match p
    case Plain(c) => assert ([c] + rest)[1..] == rest;
    case Short(letter) => ShortReads(letter, rest);
    case Code(code, capitals) => CodeReads(code, capitals, rest);
    case Pair(point, high, low) =>
      Surrogates(point);
      var second := CodeText(LowOf(point), low) + rest;
      CodeReads(LowOf(point), low, rest);
      CodeReads(HighOf(point), high, second);
      assert PieceText(p) + rest == CodeText(HighOf(point), high) + second;
  }

  // What follows a high surrogate is no low one.
  lemma {:induction false} RestHasNoLow(ps: seq<Piece>)
    requires AllWrite(ps) && (ps != [] ==> !(ps[0].Code? && 0xDC00 <= ps[0].code <= 0xDFFF))
    ensures NoLow(PiecesText(ps) + "\"")
  {
    hide CodeText, CodeUnit, HighOf, LowOf;
    if ps != [] {
      var rest := PiecesText(ps[1..]) + "\"";
      assert PiecesText(ps) + "\"" == PieceText(ps[0]) + rest;
      match ps[0]
      case Plain(c) =>
      case Short(letter) => ShortReads(letter, rest);
      case Code(code, capitals) => CodeReads(code, capitals, rest);
      case Pair(point, high, low) =>
        Surrogates(point);
        var second := CodeText(LowOf(point), low) + rest;
        CodeReads(HighOf(point), high, second);
        assert PieceText(ps[0]) + rest == CodeText(HighOf(point), high) + second;
    } else {
      assert PiecesText(ps) + "\"" == "\"";
    }
  }

  lemma {:induction false} PiecesRead(ps: seq<Piece>)
    requires AllWrite(ps)
    ensures BodyLen(PiecesText(ps) + "\"") == |PiecesText(ps)| + 1
    ensures AllSeparate(ps) ==> Unescape(PiecesText(ps) + "\"") == Points(ps)
  {
    hide PieceText, BodyLen, Unescape, PointOf, NoLow;
    if ps == [] {
      QuoteCloses();
      assert PiecesText(ps) + "\"" == "\"";
    } else {
      var rest := PiecesText(ps[1..]) + "\"";
      assert PiecesText(ps) + "\"" == PieceText(ps[0]) + rest;
      PiecesRead(ps[1..]);
      PieceCloses(ps[0], rest);
      if AllSeparate(ps) {
        TailIsSeparate(ps);
        if ps[0].Code? && 0xD800 <= ps[0].code <= 0xDBFF {
          assert |ps| > 1 ==> Separate(ps[0], ps[0 + 1]);
          RestHasNoLow(ps[1..]);
        }
        PieceDecodes(ps[0], rest);
        assert Points(ps) == [PointOf(ps[0])] + Points(ps[1..]);
      }
    }
  }

  lemma {:induction false} TailIsSeparate(ps: seq<Piece>)
    requires ps != [] && AllSeparate(ps)
    ensures AllSeparate(ps[1..])
  {
    forall i | 0 <= i < |ps[1..]| - 1 ensures Separate(ps[1..][i], ps[1..][i + 1]) {
      var j := i + 1;
      assert Separate(ps[j], ps[j + 1]);
    }
  }

  lemma {:induction false} QuoteCloses()
    ensures BodyLen("\"") == 1 && Unescape("\"") == []
  {}

  function StringText(ps: seq<Piece>): string
    requires AllWrite(ps)
  {
    "\"" + PiecesText(ps) + "\""
  }

  // A written string loads, to the code points it was written for.
  lemma {:induction false} StringLoads(ps: seq<Piece>)
    requires AllWrite(ps) && AllSeparate(ps)
    ensures LoadJson(StringText(ps)) == Some(Str(Points(ps)))
  {
    hide LoadJson, BodyLen, Unescape, PiecesText, IsGap;
    var s := StringText(ps);
    PiecesRead(ps);
    assert s[1..] == PiecesText(ps) + "\"";
    assert s[..|s|] == s;
    var doc := Document("", Atom(s), "");
    EmptyIsGap(Jsonc);
    assert DocumentText(doc) == s;
    LoadOfText(doc);
  }

  // Any code points can be written, a high surrogate directly followed by a low one excepted.
  function PieceFor(point: int): Piece {
    if point >= 0x10000 then Pair(point, Capitals(false, false, false, false), Capitals(false, false, false, false))
    else if point < 0 then Piece.Code(0, Capitals(false, false, false, false))
    else Piece.Code(point, Capitals(false, false, false, false))
  }

  function PiecesFor(points: seq<int>): (r: seq<Piece>)
    ensures |r| == |points|
  {
    seq(|points|, i requires 0 <= i < |points| => PieceFor(points[i]))
  }

  lemma {:induction false} EscapedLoads(points: seq<int>)
    requires forall i :: 0 <= i < |points| ==> 0 <= points[i] < 0x110000
    requires forall i :: 0 <= i < |points| - 1 ==> !(0xD800 <= points[i] <= 0xDBFF && 0xDC00 <= points[i + 1] <= 0xDFFF)
    ensures AllWrite(PiecesFor(points)) && LoadJson(StringText(PiecesFor(points))) == Some(Str(points))
  {
    hide LoadJson, StringText;
    var ps := PiecesFor(points);
    assert forall i :: 0 <= i < |ps| - 1 ==> Separate(ps[i], ps[i + 1]);
    StringLoads(ps);
    assert Points(ps) == points;
  }

  /* ---- and nothing else is read as a string ---- */

  lemma {:induction false} HexIsWritten(c: char) returns (n: nat, capital: bool)
    requires IsHex(c)
    ensures n < 16 && HexDigit(n, capital) == c
  {
    n, capital := HexValue(c), 'A' <= c <= 'F';
    HexReads(n, capital);
  }

  lemma {:induction false} StepIsWritten(s: string) returns (p: Piece)
    requires s != "" && s[0] != '"' && StepLen(s) > 0
    ensures Writes(p) && s[..StepLen(s)] == PieceText(p)
  {
    hide HexDigit, IsHex;
    if s[0] != '\\' {
      p := Plain(s[0]);
    } else if EscapeLen(s) == 2 {
      p := Short(s[1]);
    } else {
      var a, u := HexIsWritten(s[2]);
      var b, v := HexIsWritten(s[3]);
      var c, w := HexIsWritten(s[4]);
      var d, x := HexIsWritten(s[5]);
      var code := ((a * 16 + b) * 16 + c) * 16 + d;
      p := Piece.Code(code, Capitals(u, v, w, x));
      DigitsOfCode(a, b, c, d);
    }
  }

  lemma {:induction false} DigitsOfCode(a: nat, b: nat, c: nat, d: nat)
    requires a < 16 && b < 16 && c < 16 && d < 16
    ensures var code := ((a * 16 + b) * 16 + c) * 16 + d;
      code < 0x10000 && code / 4096 == a && code / 256 % 16 == b && code / 16 % 16 == c && code % 16 == d
  {}

  lemma {:induction false} BodyIsWritten(s: string) returns (ps: seq<Piece>)
    requires BodyLen(s) > 0
    ensures AllWrite(ps) && s[..BodyLen(s)] == PiecesText(ps) + "\""
    decreases |s|
  {
    hide PieceText, StepLen;
    if s[0] == '"' {
      ps := [];
    } else {
      var k := StepLen(s);
      var p := StepIsWritten(s);
      var rest := BodyIsWritten(s[k..]);
      ps := [p] + rest;
      assert ps[1..] == rest;
      assert s[..BodyLen(s)] == s[..k] + s[k..][..BodyLen(s[k..])];
    }
  }

  lemma {:induction false} LiteralIsWritten(s: string) returns (ps: seq<Piece>)
    requires IsLiteral(s)
    ensures AllWrite(ps) && s == StringText(ps)
  {
    hide BodyLen;
    ps := BodyIsWritten(s[1..]);
    assert s == [s[0]] + s[1..] && s[1..][..|s| - 1] == s[1..];
  }
}
