/** Reading annotations: which lines are suppressed, and blanking them. */
module Annotations {
  import opened TextLines
  import opened Sorting
  import opened Blocks
  import Lexical

  const INLINE := "ai-guardian:allow"
  const BLOCK_BEGIN := "ai-guardian:begin-allow"
  const BLOCK_END := "ai-guardian:end-allow"
  const DEFAULT_SECRET_ALIASES: seq<string> := ["gitleaks:allow"]

  datatype Aliases = Aliases(allow: seq<string>, secret: seq<string>, begin: seq<string>, end: seq<string>)

  // Defaults extended by the configured aliases that are not among them yet.
  function Extended(base: seq<string>, extra: seq<string>): seq<string>
    decreases |extra|
  {
    if extra == [] then base
    else Extended(if extra[0] in base then base else base + [extra[0]], extra[1..])
  }

  function BuildAliases(config: Aliases): Aliases {
    Aliases(Extended([], config.allow), Extended(DEFAULT_SECRET_ALIASES, config.secret),
            Extended([], config.begin), Extended([], config.end))
  }

  // Configuration extends the defaults and never replaces them.
  lemma {:induction false} ExtendedHasBoth(base: seq<string>, extra: seq<string>)
    ensures forall x :: x in Extended(base, extra) <==> x in base || x in extra
    decreases |extra|
  {
    if extra != [] { ExtendedHasBoth(if extra[0] in base then base else base + [extra[0]], extra[1..]); }
  }

  predicate OccursAt(line: string, part: string, i: nat) {
    i + |part| <= |line| && line[i..i + |part|] == part
  }

  // part in line
  predicate Contains(line: string, part: string) {
    exists i :: 0 <= i <= |line| && OccursAt(line, part, i)
  }

  predicate ContainsAny(line: string, parts: seq<string>) {
    exists k :: 0 <= k < |parts| && Contains(line, parts[k])
  }

  predicate IsBlockBegin(line: string, a: Aliases) { Contains(line, BLOCK_BEGIN) || ContainsAny(line, a.begin) }

  predicate IsBlockEnd(line: string, a: Aliases) { Contains(line, BLOCK_END) || ContainsAny(line, a.end) }

  predicate IsInlineAllow(line: string, a: Aliases) {
    && !Contains(line, BLOCK_BEGIN) && !Contains(line, BLOCK_END)
    && (Contains(line, INLINE) || ContainsAny(line, a.allow))
  }

  predicate IsSecretOnly(line: string, a: Aliases) { ContainsAny(line, a.secret) }

  // Some configured alias is in the line.
  predicate HasAlias(line: string, aliases: seq<string>) { exists x :: x in aliases && Contains(line, x) }

  lemma {:induction false} AliasIn(line: string, base: seq<string>, extra: seq<string>)
    ensures ContainsAny(line, Extended(base, extra)) <==> HasAlias(line, base) || HasAlias(line, extra)
  {
    hide Contains, Extended;
    ExtendedHasBoth(base, extra);
    var all := Extended(base, extra);
    if ContainsAny(line, all) {
      var k :| 0 <= k < |all| && Contains(line, all[k]);
      assert all[k] in all;
    }
    if x :| (x in base || x in extra) && Contains(line, x) {
      var k :| 0 <= k < |all| && all[k] == x;
    }
  }

  // What each configured list is for.
  lemma {:induction false} AliasesAreRead(line: string, config: Aliases)
    ensures IsBlockBegin(line, BuildAliases(config)) <==>
      Contains(line, "ai-guardian:begin-allow") || HasAlias(line, config.begin)
    ensures IsBlockEnd(line, BuildAliases(config)) <==>
      Contains(line, "ai-guardian:end-allow") || HasAlias(line, config.end)
    ensures IsInlineAllow(line, BuildAliases(config)) <==>
      && !Contains(line, "ai-guardian:begin-allow") && !Contains(line, "ai-guardian:end-allow")
      && (Contains(line, "ai-guardian:allow") || HasAlias(line, config.allow))
    ensures IsSecretOnly(line, BuildAliases(config)) <==> Contains(line, "gitleaks:allow") || HasAlias(line, config.secret)
  {
    hide Contains, Extended;
    AliasIn(line, [], config.allow);
    AliasIn(line, DEFAULT_SECRET_ALIASES, config.secret);
    AliasIn(line, [], config.begin);
    AliasIn(line, [], config.end);
    assert "gitleaks:allow" in DEFAULT_SECRET_ALIASES;
  }

  function MarkOf(line: string, a: Aliases): Mark {
    if IsBlockBegin(line, a) then Begin else if IsBlockEnd(line, a) then End else Plain
  }

  function Marks(lines: seq<string>, a: Aliases): (r: seq<Mark>)
    ensures |r| == |lines|
  {
    seq(|lines|, i requires 0 <= i < |lines| => MarkOf(lines[i], a))
  }

  /* ---- what is suppressed ---- */

  // The inline annotation of line i takes effect: not in a block, and not already suppressed by the
  // annotation of the line before.
  ghost predicate Active(lines: seq<string>, a: Aliases, i: nat)
    requires i < |lines|
  {
    IsInlineAllow(lines[i], a) && !InBlock(Marks(lines, a), i) && !(i > 0 && Active(lines, a, i - 1))
  }

  // Suppressed for every scanner.
  ghost predicate Suppressed(lines: seq<string>, a: Aliases, i: nat)
    requires i < |lines|
  {
    InBlock(Marks(lines, a), i) || Active(lines, a, i) || (i > 0 && Active(lines, a, i - 1))
  }

  // A secrets-only annotation that takes effect on the next line too.
  ghost predicate SecretActive(lines: seq<string>, a: Aliases, i: nat)
    requires i < |lines|
  {
    IsSecretOnly(lines[i], a) && !Suppressed(lines, a, i)
  }

  // Suppressed for the secret scanner.
  ghost predicate SecretSuppressed(lines: seq<string>, a: Aliases, i: nat)
    requires i < |lines|
  {
    (IsSecretOnly(lines[i], a) && !Active(lines, a, i)) || (i > 0 && SecretActive(lines, a, i - 1))
  }

  function Span(first: nat, last: nat): (s: set<nat>)
    ensures forall i: nat :: i in s <==> first <= i <= last
    decreases last + 1 - first
  {
    if first > last then {} else {first} + Span(first + 1, last)
  }

  // Collects the positions of the begin and of the end markers, sorts them together and pairs them on a stack.
  method PairBlocks(lines: seq<string>, a: Aliases) returns (pairs: seq<Pair>, unmatched: seq<nat>)
    ensures pairs == After(Marks(lines, a), |lines|).pairs && unmatched == After(Marks(lines, a), |lines|).open
  {
    hide IsBlockBegin, IsBlockEnd, After, Sort, Run, Step;
    ghost var marks := Marks(lines, a);
    var begins, ends := [], [];
    for i := 0 to |lines|
      invariant begins == EventsLike(marks, i, Begin) && ends == EventsLike(marks, i, End)
    {
      if IsBlockBegin(lines[i], a) {
        begins := begins + [Event(i, Begin)];
      } else if IsBlockEnd(lines[i], a) {
        ends := ends + [Event(i, End)];
      }
    }
    var events := Sort(begins + ends, Earlier);
    SortedEvents(marks);
    EventsInOrder(marks, |marks|);
    RunIsAfter(marks, |marks|);
    RunStarts(events);
    var stack := [];
    pairs := [];
    for k := 0 to |events|
      invariant Stack(stack, pairs) == Run(events, k)
    {
      RunSteps(events, k);
      assert events[k] in events && !events[k].mark.Plain?;
      if events[k].mark.Begin? {
        stack := stack + [events[k].idx];
      } else if stack != [] {
        pairs := pairs + [Pair(stack[|stack| - 1], events[k].idx)];
        stack := stack[..|stack| - 1];
      }
    }
    unmatched := stack;
  }

  lemma {:induction false} RunStarts(events: seq<Event>)
    ensures Run(events, 0) == Stack([], [])
  {}

  lemma {:induction false} RunSteps(events: seq<Event>, k: nat)
    requires k < |events|
    ensures var s, e := Run(events, k), events[k];
      Run(events, k + 1) ==
        if e.mark.Begin? then Stack(s.open + [e.idx], s.pairs)
        else if e.mark.End? && s.open != [] then Stack(s.open[..|s.open| - 1], s.pairs + [Pair(s.open[|s.open| - 1], e.idx)])
        else s
  {}

  /* ---- get_suppressed_lines ---- */

  // Marks every line of every pair.
  method CoverPairs(pairs: seq<Pair>) returns (covered: set<nat>)
    ensures forall l: nat :: l in covered <==> exists k :: 0 <= k < |pairs| && pairs[k].begin <= l <= pairs[k].end
  {
    covered := {};
    for k := 0 to |pairs|
      invariant forall l: nat :: l in covered <==> exists j :: 0 <= j < k && pairs[j].begin <= l <= pairs[j].end
    {
      covered := covered + Span(pairs[k].begin, pairs[k].end);
    }
  }

  // The covered lines are the lines in blocks.
  lemma {:induction false} CoveredIsInBlock(marks: seq<Mark>, pairs: seq<Pair>, l: nat)
    requires PairsFit(marks, |marks|, pairs)
    ensures InBlock(marks, l) <==> exists k :: 0 <= k < |pairs| && pairs[k].begin <= l <= pairs[k].end
  {}

  // Line l is suppressed by a block or by an annotation above line i.
  ghost predicate SuppressedBy(lines: seq<string>, a: Aliases, l: nat, i: nat)
    requires i <= |lines|
  {
    InBlock(Marks(lines, a), l) || (l < i && Active(lines, a, l)) || (0 < l <= i && l < |lines| && Active(lines, a, l - 1))
  }

  ghost predicate SecretBy(lines: seq<string>, a: Aliases, l: nat, i: nat)
    requires i <= |lines|
  {
    (l < i && IsSecretOnly(lines[l], a) && !Active(lines, a, l)) || (0 < l <= i && l < |lines| && SecretActive(lines, a, l - 1))
  }

  lemma {:induction false} SuppressedSteps(lines: seq<string>, a: Aliases, l: nat, i: nat)
    requires i < |lines|
    ensures SuppressedBy(lines, a, l, i + 1) <==>
      SuppressedBy(lines, a, l, i) || (Active(lines, a, i) && (l == i || (l == i + 1 && l < |lines|)))
    ensures SecretBy(lines, a, l, i + 1) <==>
      SecretBy(lines, a, l, i) || (l == i && IsSecretOnly(lines[i], a) && !Active(lines, a, i))
      || (l == i + 1 && l < |lines| && SecretActive(lines, a, i))
  {}

  lemma {:induction false} SuppressedNow(lines: seq<string>, a: Aliases, i: nat)
    requires i < |lines|
    ensures Active(lines, a, i) <==> IsInlineAllow(lines[i], a) && !SuppressedBy(lines, a, i, i)
    ensures SecretActive(lines, a, i) <==>
      IsSecretOnly(lines[i], a) && !SuppressedBy(lines, a, i, i) && !IsInlineAllow(lines[i], a)
  {}

  lemma {:induction false} SuppressedInTheEnd(lines: seq<string>, a: Aliases, l: nat)
    ensures SuppressedBy(lines, a, l, |lines|) <==> l < |lines| && Suppressed(lines, a, l)
    ensures SecretBy(lines, a, l, |lines|) <==> l < |lines| && SecretSuppressed(lines, a, l)
    ensures SuppressedBy(lines, a, l, 0) <==> InBlock(Marks(lines, a), l)
    ensures !SecretBy(lines, a, l, 0)
  {}

  // The second pass, in order and over a set that it extends as it goes.
  method InlinePass(lines: seq<string>, a: Aliases, blocks: set<nat>) returns (all: set<nat>, secret: set<nat>)
    requires forall l: nat :: l in blocks <==> InBlock(Marks(lines, a), l)
    ensures forall l: nat :: l in all <==> l < |lines| && Suppressed(lines, a, l)
    ensures forall l: nat :: l in secret <==> l < |lines| && SecretSuppressed(lines, a, l)
  {
    hide IsInlineAllow, IsSecretOnly, InBlock, Marks, Active, SecretActive, Suppressed, SecretSuppressed, SuppressedBy, SecretBy;
    all, secret := blocks, {};
    forall l: nat ensures !SecretBy(lines, a, l, 0) && (SuppressedBy(lines, a, l, 0) <==> l in blocks) { SuppressedInTheEnd(lines, a, l); }
    for i := 0 to |lines|
      invariant forall l: nat :: l in all <==> SuppressedBy(lines, a, l, i)
      invariant forall l: nat :: l in secret <==> SecretBy(lines, a, l, i)
    {
      SuppressedNow(lines, a, i);
      forall l: nat
        ensures SuppressedBy(lines, a, l, i + 1) <==>
          SuppressedBy(lines, a, l, i) || (Active(lines, a, i) && (l == i || (l == i + 1 && l < |lines|)))
        ensures SecretBy(lines, a, l, i + 1) <==>
          SecretBy(lines, a, l, i) || (l == i && IsSecretOnly(lines[i], a) && !Active(lines, a, i))
          || (l == i + 1 && l < |lines| && SecretActive(lines, a, i))
      {
        SuppressedSteps(lines, a, l, i);
      }
      if i in all {
        if IsSecretOnly(lines[i], a) { secret := secret + {i}; }
      } else if IsInlineAllow(lines[i], a) {
        all := all + {i};
        if i + 1 < |lines| { all := all + {i + 1}; }
      } else if IsSecretOnly(lines[i], a) {
        secret := secret + {i};
        if i + 1 < |lines| { secret := secret + {i + 1}; }
      }
    }
    forall l: nat
      ensures l in all <==> l < |lines| && Suppressed(lines, a, l)
      ensures l in secret <==> l < |lines| && SecretSuppressed(lines, a, l)
    {
      SuppressedInTheEnd(lines, a, l);
    }
  }

  // Where annotations take effect: the lines suppressed for every scanner, the lines suppressed for the
  // secret scanner, and the begin markers that have no end.
  method GetSuppressedLines(content: string, a: Aliases) returns (all: set<nat>, secret: set<nat>, warnings: seq<nat>)
    ensures var lines := Split(content);
      && (forall i: nat :: i in all <==> i < |lines| && Suppressed(lines, a, i))
      && (forall i: nat :: i in secret <==> i < |lines| && SecretSuppressed(lines, a, i))
      && (forall i: nat :: i in warnings <==> OpenUntil(Marks(lines, a), i, |lines|))
      && |warnings| + |After(Marks(lines, a), |lines|).pairs| == Begins(Marks(lines, a), |lines|)
  {
    hide Split, IsInlineAllow, IsSecretOnly, After, MarkOf, Marks, Suppressed, SecretSuppressed, InBlock, OpenUntil, Closes;
    var lines := Split(content);
    ghost var marks := Marks(lines, a);
    var pairs, unmatched := PairBlocks(lines, a);
    StackIsExact(marks, |lines|);
    warnings := unmatched;
    var blocks := CoverPairs(pairs);
    forall l: nat ensures l in blocks <==> InBlock(marks, l) { CoveredIsInBlock(marks, pairs, l); }
    all, secret := InlinePass(lines, a, blocks);
  }

  /* ---- apply_suppressions ---- */

  function Blanked(lines: seq<string>, suppressed: set<nat>): (r: seq<string>)
    ensures |r| == |lines|
  {
    seq(|lines|, i requires 0 <= i < |lines| => if i in suppressed then "" else lines[i])
  }

  // "\n".join
  function JoinFeeds(lines: seq<string>): string {
    if lines == [] then ""
    else if |lines| == 1 then lines[0]
    else lines[0] + "\n" + JoinFeeds(lines[1..])
  }

  // The pieces between line feeds.
  function Segments(s: string): seq<string> {
    if Lexical.LineLen(s) == |s| then [s] else [s[..Lexical.LineLen(s)]] + Segments(s[Lexical.LineLen(s) + 1..])
  }

  lemma {:induction false} FeedAfter(line: string, rest: string)
    requires '\n' !in line
    ensures Lexical.LineLen(line + "\n" + rest) == |line| && Lexical.LineLen(line) == |line|
  {
    if line != "" {
      FeedAfter(line[1..], rest);
      assert (line + "\n" + rest)[1..] == line[1..] + "\n" + rest;
    }
  }

  lemma {:induction false} SegmentsOfJoin(lines: seq<string>)
    requires lines != [] && forall i :: 0 <= i < |lines| ==> '\n' !in lines[i]
    ensures Segments(JoinFeeds(lines)) == lines
  {
    hide Lexical.LineLen;
    if |lines| == 1 {
      FeedAfter(lines[0], "");
    } else {
      var rest := JoinFeeds(lines[1..]);
      FeedAfter(lines[0], rest);
      SegmentsOfJoin(lines[1..]);
      var all := lines[0] + "\n" + rest;
      assert all[..|lines[0]|] == lines[0] && all[|lines[0]| + 1..] == rest;
    }
  }

  // Blanks the given lines; with no line to blank the content stays as it is.
  method ApplySuppressions(content: string, suppressed: set<nat>) returns (r: string)
    ensures suppressed == {} ==> r == content
    ensures suppressed != {} ==> r == JoinFeeds(Blanked(Split(content), suppressed))
  {
    hide Split, JoinFeeds;
    if suppressed == {} { return content; }
    var lines := Split(content);
    ghost var original := lines;
    var todo := suppressed;
    while todo != {}
      invariant todo <= suppressed && |lines| == |original|
      invariant forall i :: 0 <= i < |lines| ==> lines[i] == if i in suppressed - todo then "" else original[i]
      decreases todo
    {
      var i :| i in todo;
      if i < |lines| { lines := lines[i := ""]; }
      todo := todo - {i};
    }
    assert lines == Blanked(original, suppressed);
    r := JoinFeeds(lines);
  }

  lemma {:induction false} SplitHasNoFeeds(content: string, i: nat)
    requires i < |Split(content)|
    ensures '\n' !in Split(content)[i]
  {}

  // Blanking keeps the lines apart and in place: the pieces between the line feeds of the result are the
  // lines of the content one by one, empty where suppressed.
  lemma {:induction false} BlankedIsAligned(content: string, suppressed: set<nat>)
    requires Split(content) != []
    ensures Segments(JoinFeeds(Blanked(Split(content), suppressed))) == Blanked(Split(content), suppressed)
  {
    hide Split, Segments, JoinFeeds;
    var lines := Blanked(Split(content), suppressed);
    forall i | 0 <= i < |lines| ensures '\n' !in lines[i] { SplitHasNoFeeds(content, i); }
    SegmentsOfJoin(lines);
  }

  predicate OnOneLine(line: string) { forall i :: 0 <= i < |line| ==> !IsBreak(line[i]) }

  lemma {:induction false} FirstLineEnds(line: string, rest: string)
    requires OnOneLine(line)
    ensures LineEnd(line + "\n" + rest) == |line| + 1 && Body(line + "\n") == line
  {
    var all := line + "\n" + rest;
    BodyEndIs(all, |line|);
    BodyEndIs(line + "\n", |line|);
    assert all[|line|..][0] == '\n';
  }

  lemma {:induction false} WholeLineEnds(line: string)
    requires OnOneLine(line)
    ensures LineEnd(line) == |line| && Body(line) == line
  {
    BodyEndIs(line, |line|);
  }

  lemma {:induction false} SplitStep(s: string, n: nat)
    requires s != "" && n == LineEnd(s)
    ensures Split(s) == [Body(s[..n])] + Split(s[n..])
  {
    hide LineEnd, Body;
    BodiesStep(s[..n], SplitKeep(s[n..]));
  }

  lemma {:induction false} BodiesStep(line: string, rest: seq<string>)
    ensures Bodies([line] + rest) == [Body(line)] + Bodies(rest)
  {
    hide Body;
  }

  lemma {:induction false} FirstOfFeeds(line: string, rest: string)
    requires OnOneLine(line)
    ensures Split(line + "\n" + rest) == [line] + Split(rest)
    ensures line != "" ==> Split(line) == [line]
  {
    hide OnOneLine, LineEnd, Body, Split;
    var all := line + "\n" + rest;
    FirstLineEnds(line, rest);
    SplitStep(all, |line| + 1);
    assert all[..|line| + 1] == line + "\n" && all[|line| + 1..] == rest;
    if line != "" {
      WholeLineEnds(line);
      SplitStep(line, |line|);
      NothingSplits();
      assert line[|line|..] == "" && line[..|line|] == line;
    }
  }

  // Splitting joined lines gives them back, but for a last one that is empty.
  lemma {:induction false} SplitOfFeeds(lines: seq<string>)
    requires lines != [] && forall i :: 0 <= i < |lines| ==> OnOneLine(lines[i])
    ensures Split(JoinFeeds(lines)) == if lines[|lines| - 1] == "" then lines[..|lines| - 1] else lines
  {
    hide Split, OnOneLine;
    if |lines| == 1 {
      FirstOfFeeds(lines[0], "");
      NothingSplits();
    } else {
      FirstOfFeeds(lines[0], JoinFeeds(lines[1..]));
      SplitOfFeeds(lines[1..]);
      assert lines == [lines[0]] + lines[1..];
      assert lines[..|lines| - 1] == [lines[0]] + lines[1..][..|lines| - 2];
    }
  }

  lemma {:induction false} NothingSplits()
    ensures Split("") == []
  {}

  lemma {:induction false} SplitsOnOneLine(content: string, i: nat)
    requires i < |Split(content)|
    ensures OnOneLine(Split(content)[i])
  {
    hide SplitKeep;
  }

  // Blanking keeps the number of lines, as splitting counts them, exactly when the last one is not left empty.
  lemma {:induction false} BlankedCount(content: string, suppressed: set<nat>)
    ensures var lines := Split(content);
      |Split(JoinFeeds(Blanked(lines, suppressed)))| == |lines| <==>
        lines == [] || (|lines| - 1 !in suppressed && lines[|lines| - 1] != "")
  {
    hide Split, JoinFeeds, OnOneLine;
    var lines := Split(content);
    var blanked := Blanked(lines, suppressed);
    NothingSplits();
    NothingOnOneLine();
    if lines == [] {
      assert JoinFeeds([]) == "" by { JoinOfNothing(); }
    } else {
      forall i | 0 <= i < |blanked| ensures OnOneLine(blanked[i]) { SplitsOnOneLine(content, i); }
      SplitOfFeeds(blanked);
    }
  }

  lemma {:induction false} NothingOnOneLine()
    ensures OnOneLine("")
  {}

  lemma {:induction false} JoinOfNothing()
    ensures JoinFeeds([]) == ""
  {}

  // process_annotations: the content for every scanner and the content for the secret scanner.
  method ProcessAnnotations(content: string, config: Aliases) returns (forAll: string, forSecrets: string)
    ensures var a := BuildAliases(config);
      var lines := Split(content);
      && ((forall i :: 0 <= i < |lines| ==> !Suppressed(lines, a, i) && !SecretSuppressed(lines, a, i))
          ==> forAll == forSecrets == content)
      && ((forall i :: 0 <= i < |lines| ==> !Suppressed(lines, a, i)) ==> forAll == content)
      && ((exists i :: 0 <= i < |lines| && Suppressed(lines, a, i)) ==>
          Segments(forAll) == seq(|lines|, i requires 0 <= i < |lines| => if Suppressed(lines, a, i) then "" else lines[i]))
      && ((exists i :: 0 <= i < |lines| && (Suppressed(lines, a, i) || SecretSuppressed(lines, a, i))) ==>
          Segments(forSecrets) == seq(|lines|, i requires 0 <= i < |lines| =>
            if Suppressed(lines, a, i) || SecretSuppressed(lines, a, i) then "" else lines[i]))
  {
    hide Split, Suppressed, SecretSuppressed, Segments, JoinFeeds;
    var all, secret, warnings := GetSuppressedLines(content, BuildAliases(config));
    if all == {} && secret == {} { return content, content; }
    forAll := ApplySuppressions(content, all);
    forSecrets := ApplySuppressions(content, all + secret);
    BlankedIsAligned(content, all);
    BlankedIsAligned(content, all + secret);
  }
}
