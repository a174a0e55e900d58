/** Two readers of a release version: one splits it, one matches it against a pattern. */
module Versions {
  import opened Options
  import Lexical

  datatype Release = Release(major: nat, minor: nat, patch: nat)

  const MAX_U32: nat := 0xFFFF_FFFF

  predicate AllDigits(s: string) { forall i :: 0 <= i < |s| ==> Lexical.IsDigit(s[i]) }

  function NumberOf(s: string): nat
    requires AllDigits(s)
  {
    if s == "" then 0 else 10 * NumberOf(s[..|s| - 1]) + (s[|s| - 1] as int - '0' as int)
  }

  // Rust's str::parse::<u32>: an optional plus sign, then digits, within range.
  function ParseU32(s: string): Option<nat> {
    var digits := if s != "" && s[0] == '+' then s[1..] else s;
    if digits == "" || !AllDigits(digits) || NumberOf(digits) > MAX_U32 then None else Some(NumberOf(digits))
  }

  // The characters Rust's trim and Python's strip take off.
  predicate RustSpace(c: char) {
    var n := c as int;
    || 9 <= n <= 13 || n == 32 || n == 0x85 || n == 0xA0 || n == 0x1680 || 0x2000 <= n <= 0x200A
    || n == 0x2028 || n == 0x2029 || n == 0x202F || n == 0x205F || n == 0x3000
  }

  predicate PythonSpace(c: char) { RustSpace(c) || 28 <= c as int <= 31 }

  function TrimStart(s: string, space: char -> bool): string {
    if s != "" && space(s[0]) then TrimStart(s[1..], space) else s
  }

  function TrimEnd(s: string, space: char -> bool): string {
    if s != "" && space(s[|s| - 1]) then TrimEnd(s[..|s| - 1], space) else s
  }

  function Trim(s: string, space: char -> bool): string { TrimEnd(TrimStart(s, space), space) }

  function WithoutPrefix(s: string): string { if s != "" && s[0] == 'v' then s[1..] else s }

  // The text before the first minus or plus sign.
  function Core(s: string): string {
    if s == "" || s[0] == '-' || s[0] == '+' then "" else s[..1] + Core(s[1..])
  }

  // The pieces between dots.
  function Components(s: string): (r: seq<string>)
    ensures r != []
  {
    if s == "" then [""]
    else if s[0] == '.' then [""] + Components(s[1..])
    else var rest := Components(s[1..]); [s[..1] + rest[0]] + rest[1..]
  }

  // parse_openshell_version
  function ParseBySplitting(value: string): Option<Release> {
    var components := Components(Core(WithoutPrefix(Trim(value, RustSpace))));
    if |components| != 3 || components[0] == "" || components[1] == "" || components[2] == "" then None
    else
      var major, minor, patch := ParseU32(components[0]), ParseU32(components[1]), ParseU32(components[2]);
      if major.None? || minor.None? || patch.None? then None
      else Some(Release(major.value, minor.value, patch.value))
  }

  // A digit of Python's \d among the printable ASCII characters, once or more.
  predicate Digits(s: string) { s != "" && AllDigits(s) }

  predicate Suffix(s: string) { s == "" || ((s[0] == '-' || s[0] == '+') && '\n' !in s) }

  // v?(\d+)\.(\d+)\.(\d+)(?:[-+].*)?
  predicate Matches(s: string, v: string, major: string, minor: string, patch: string, suffix: string) {
    && (v == "" || v == "v") && Digits(major) && Digits(minor) && Digits(patch) && Suffix(suffix)
    && s == v + major + "." + minor + "." + patch + suffix
  }

  // _parse_version accepts the value as this release.
  ghost predicate ParsedByMatching(value: string, release: Release) {
    exists v, major, minor, patch, suffix ::
      && Matches(Trim(value, PythonSpace), v, major, minor, patch, suffix)
      && release == Release(NumberOf(major), NumberOf(minor), NumberOf(patch))
  }

  predicate Printable(s: string) { forall i :: 0 <= i < |s| ==> 32 <= s[i] as int <= 126 }

  /* ---- they agree ---- */

  lemma {:induction false} SpacesAgree(s: string)
    requires Printable(s)
    ensures Trim(s, RustSpace) == Trim(s, PythonSpace) && Printable(Trim(s, RustSpace))
  {
    StartsAgree(s);
    EndsAgree(TrimStart(s, RustSpace));
  }

  lemma {:induction false} StartsAgree(s: string)
    requires Printable(s)
    ensures TrimStart(s, RustSpace) == TrimStart(s, PythonSpace) && Printable(TrimStart(s, RustSpace))
  {
    if s != "" && RustSpace(s[0]) { StartsAgree(s[1..]); }
  }

  lemma {:induction false} EndsAgree(s: string)
    requires Printable(s)
    ensures TrimEnd(s, RustSpace) == TrimEnd(s, PythonSpace) && Printable(TrimEnd(s, RustSpace))
  {
    if s != "" && RustSpace(s[|s| - 1]) { EndsAgree(s[..|s| - 1]); }
  }

  lemma {:induction false} CoreIs(core: string, suffix: string)
    requires '-' !in core && '+' !in core && (suffix == "" || suffix[0] == '-' || suffix[0] == '+')
    ensures Core(core + suffix) == core
  {
    if core != "" {
      CoreIs(core[1..], suffix);
      assert (core + suffix)[1..] == core[1..] + suffix;
    } else {
      assert core + suffix == suffix;
    }
  }

  lemma {:induction false} CoreSplits(s: string) returns (suffix: string)
    ensures s == Core(s) + suffix && (suffix == "" || suffix[0] == '-' || suffix[0] == '+')
    ensures '-' !in Core(s) && '+' !in Core(s)
  {
    if s == "" || s[0] == '-' || s[0] == '+' {
      suffix := s;
    } else {
      suffix := CoreSplits(s[1..]);
    }
  }

  lemma {:induction false} ComponentsOf(first: string, rest: string)
    requires '.' !in first
    ensures Components(first + "." + rest) == [first] + Components(rest) && Components(first) == [first]
  {
    if first == "" {
      assert first + "." + rest == "." + rest;
    } else {
      ComponentsOf(first[1..], rest);
      var all := first + "." + rest;
      assert all[0] == first[0] && all[..1] == first[..1] && all[1..] == first[1..] + "." + rest;
      assert first[..1] + first[1..] == first;
    }
  }

  function JoinDots(parts: seq<string>): string
    requires parts != []
  {
    if |parts| == 1 then parts[0] else parts[0] + "." + JoinDots(parts[1..])
  }

  lemma {:induction false} ComponentsJoin(s: string)
    ensures JoinDots(Components(s)) == s
  {
    if s != "" {
      ComponentsJoin(s[1..]);
      if s[0] == '.' {
        assert ([""] + Components(s[1..]))[1..] == Components(s[1..]);
      } else {
        var rest := Components(s[1..]);
        assert ([s[..1] + rest[0]] + rest[1..])[1..] == rest[1..];
      }
    }
  }

  lemma {:induction false} DigitsHaveNone(s: string)
    requires AllDigits(s)
    ensures '-' !in s && '+' !in s && '.' !in s && 'v' !in s
  {}

  // What matches is split into the same parts.
  lemma {:induction false} MatchIsSplit(s: string, v: string, major: string, minor: string, patch: string, suffix: string)
    requires Matches(s, v, major, minor, patch, suffix)
    ensures Components(Core(WithoutPrefix(s))) == [major, minor, patch]
  {
    DigitsHaveNone(major);
    DigitsHaveNone(minor);
    DigitsHaveNone(patch);
    var core := major + "." + minor + "." + patch;
    assert WithoutPrefix(s) == core + suffix by {
      if v == "" {
        assert s == core + suffix && s[0] == major[0];
      } else {
        assert s == v + (core + suffix);
      }
    }
    CoreIs(core, suffix);
    ComponentsOf(major, minor + "." + patch);
    ComponentsOf(minor, patch);
    ComponentsOf(patch, "");
    assert core == major + "." + (minor + "." + patch);
  }

  lemma {:induction false} ThreeJoined(core: string)
    requires |Components(core)| == 3
    ensures var c := Components(core); core == c[0] + "." + c[1] + "." + c[2]
  {
    hide Components;
    var c := Components(core);
    ComponentsJoin(core);
    assert JoinDots(c[1..][1..]) == c[2];
    assert JoinDots(c[1..]) == c[1] + "." + c[2];
    assert core == c[0] + "." + (c[1] + "." + c[2]);
  }

  // What splits into three numbers matches.
  lemma {:induction false} SplitIsMatch(s: string) returns (v: string, suffix: string)
    requires var c := Components(Core(WithoutPrefix(s))); |c| == 3 && Digits(c[0]) && Digits(c[1]) && Digits(c[2])
    requires '\n' !in s
    ensures var c := Components(Core(WithoutPrefix(s))); Matches(s, v, c[0], c[1], c[2], suffix)
  {
    hide Components, Core;
    var core := Core(WithoutPrefix(s));
    ThreeJoined(core);
    suffix := CoreSplits(WithoutPrefix(s));
    v := if s != "" && s[0] == 'v' then "v" else "";
    var c := Components(core);
    assert s == v + (core + suffix);
    Ungroup(v, c[0], c[1], c[2], suffix);
    SuffixOf(s, v + core, suffix);
  }

  lemma {:induction false} Ungroup(v: string, major: string, minor: string, patch: string, suffix: string)
    ensures v + (major + "." + minor + "." + patch + suffix) == v + major + "." + minor + "." + patch + suffix
    ensures v + (major + "." + minor + "." + patch + suffix) == (v + (major + "." + minor + "." + patch)) + suffix
  {}

  lemma {:induction false} SuffixOf(s: string, before: string, suffix: string)
    requires s == before + suffix && '\n' !in s
    ensures '\n' !in suffix
  {}

  // Splitting never meets the plus sign that parse would take.
  lemma {:induction false} NoPlus(s: string, k: nat)
    requires k < |Components(Core(s))|
    ensures '+' !in Components(Core(s))[k]
  {
    var suffix := CoreSplits(s);
    ComponentsWithin(Core(s), k);
  }

  lemma {:induction false} ComponentsWithin(s: string, k: nat)
    requires k < |Components(s)|
    ensures forall c :: c in Components(s)[k] ==> c in s
  {
    if s != "" {
      var rest := Components(s[1..]);
      if s[0] == '.' {
        if k > 0 { ComponentsWithin(s[1..], k - 1); }
      } else {
        ComponentsWithin(s[1..], k);
      }
    }
  }

  predicate Small(r: Release) { r.major <= MAX_U32 && r.minor <= MAX_U32 && r.patch <= MAX_U32 }

  // On printable text, what is parsed by splitting is what is parsed by matching with numbers that fit 32 bits.
  lemma {:induction false} ParsersAgree(value: string, release: Release)
    requires Printable(value)
    ensures ParseBySplitting(value) == Some(release) <==> ParsedByMatching(value, release) && Small(release)
  {
    hide Trim, Core, Components, NumberOf;
    SpacesAgree(value);
    var s := Trim(value, RustSpace);
    if ParsedByMatching(value, release) {
      var v, major, minor, patch, suffix :| Matches(s, v, major, minor, patch, suffix)
        && release == Release(NumberOf(major), NumberOf(minor), NumberOf(patch));
      MatchIsSplit(s, v, major, minor, patch, suffix);
      DigitsHaveNone(major);
      DigitsHaveNone(minor);
      DigitsHaveNone(patch);
    }
    if ParseBySplitting(value) == Some(release) {
      var c := Components(Core(WithoutPrefix(s)));
      NoPlus(WithoutPrefix(s), 0);
      NoPlus(WithoutPrefix(s), 1);
      NoPlus(WithoutPrefix(s), 2);
      var v, suffix := SplitIsMatch(s);
    }
  }

  /* ---- which releases are accepted ---- */

  // major and minor are the policy's, patch is at least its own
  predicate Supported(release: Release, policy: Release) {
    release.major == policy.major && release.minor == policy.minor && release.patch >= policy.patch
  }

  // validate_openshell_release, with the policy's own version in order
  predicate AcceptedBySplitting(value: string, policy: Release) {
    var parsed := ParseBySplitting(value);
    parsed.Some? && Supported(parsed.value, policy)
  }

  // _validate_release
  ghost predicate AcceptedByMatching(value: string, policy: Release, release: Release) {
    ParsedByMatching(value, release) && Supported(release, policy)
  }

  // The two checks differ on patch numbers beyond 32 bits only.
  lemma {:induction false} ChecksAgree(value: string, policy: Release)
    requires Printable(value) && Small(policy)
    ensures AcceptedBySplitting(value, policy) <==>
            exists release :: AcceptedByMatching(value, policy, release) && release.patch <= MAX_U32
  {
    hide ParseBySplitting, ParsedByMatching;
    forall release: Release
      ensures ParseBySplitting(value) == Some(release) <==> ParsedByMatching(value, release) && Small(release)
    {
      ParsersAgree(value, release);
    }
    if AcceptedBySplitting(value, policy) {
      assert AcceptedByMatching(value, policy, ParseBySplitting(value).value);
    }
  }

  function DigitsOf(n: nat): string {
    var last := [('0' as int + n % 10) as char];
    if n < 10 then last else DigitsOf(n / 10) + last
  }

  lemma {:induction false} DigitsOfRead(n: nat)
    ensures Digits(DigitsOf(n)) && NumberOf(DigitsOf(n)) == n
  {
    if n < 10 {
      OneDigit("", n);
      assert DigitsOf(n) == "" + [('0' as int + n % 10) as char];
    } else {
      DigitsOfRead(n / 10);
      OneDigit(DigitsOf(n / 10), n % 10);
    }
  }

  lemma {:induction false} OneDigit(s: string, d: nat)
    requires AllDigits(s) && d < 10
    ensures var all := s + [('0' as int + d) as char]; Digits(all) && NumberOf(all) == 10 * NumberOf(s) + d
  {}

  function Written(r: Release): string { DigitsOf(r.major) + "." + DigitsOf(r.minor) + "." + DigitsOf(r.patch) }

  // A release as it is written is accepted by both from the policy's patch number on, by splitting up to 32 bits.
  lemma {:induction false} WrittenIsAccepted(r: Release, policy: Release)
    requires Small(policy)
    ensures AcceptedByMatching(Written(r), policy, r) <==> Supported(r, policy)
    ensures AcceptedBySplitting(Written(r), policy) <==> Supported(r, policy) && r.patch <= MAX_U32
  {
    hide DigitsOf, NumberOf, Trim, ParseBySplitting;
    DigitsOfRead(r.major);
    DigitsOfRead(r.minor);
    DigitsOfRead(r.patch);
    var s := Written(r);
    NothingToTrim(s);
    assert Matches(s, "", DigitsOf(r.major), DigitsOf(r.minor), DigitsOf(r.patch), "");
    assert ParsedByMatching(s, r);
    assert Printable(s);
    ParsersAgree(s, r);
    if AcceptedBySplitting(s, policy) {
      var parsed := ParseBySplitting(s).value;
      ParsersAgree(s, parsed);
      OneRelease(s, parsed, r);
    }
  }

  lemma {:induction false} NothingToTrim(s: string)
    requires s != "" && Lexical.IsDigit(s[0]) && Lexical.IsDigit(s[|s| - 1])
    ensures Trim(s, PythonSpace) == s
  {}

  // A value is parsed as one release at most.
  lemma {:induction false} OneRelease(value: string, r: Release, r': Release)
    requires ParsedByMatching(value, r) && ParsedByMatching(value, r')
    ensures r == r'
  {
    hide Trim, Core, Components, NumberOf, WithoutPrefix;
    var s := Trim(value, PythonSpace);
    var v, major, minor, patch, suffix :| Matches(s, v, major, minor, patch, suffix)
      && r == Release(NumberOf(major), NumberOf(minor), NumberOf(patch));
    var v', major', minor', patch', suffix' :| Matches(s, v', major', minor', patch', suffix')
      && r' == Release(NumberOf(major'), NumberOf(minor'), NumberOf(patch'));
    MatchIsSplit(s, v, major, minor, patch, suffix);
    MatchIsSplit(s, v', major', minor', patch', suffix');
  }

  // The policy's own release and every later patch of it are accepted, by splitting up to 32 bits; no earlier patch is,
  // and no other major or minor number.
  lemma {:induction false} AcceptedFromOwnPatch(policy: Release, more: nat)
    requires Small(policy)
    ensures var later := Release(policy.major, policy.minor, policy.patch + more);
      && AcceptedByMatching(Written(later), policy, later)
      && (AcceptedBySplitting(Written(later), policy) <==> policy.patch + more <= 4294967295)
    ensures AcceptedBySplitting(Written(policy), policy)
    ensures more < policy.patch ==>
      var earlier := Release(policy.major, policy.minor, more);
      !AcceptedBySplitting(Written(earlier), policy) && !AcceptedByMatching(Written(earlier), policy, earlier)
  {
    hide Written, AcceptedBySplitting, ParsedByMatching;
    WrittenIsAccepted(Release(policy.major, policy.minor, policy.patch + more), policy);
    WrittenIsAccepted(policy, policy);
    if more < policy.patch { WrittenIsAccepted(Release(policy.major, policy.minor, more), policy); }
  }

  lemma {:induction false} OtherLineRefused(policy: Release, r: Release)
    requires Small(policy) && (r.major != policy.major || r.minor != policy.minor)
    ensures !AcceptedBySplitting(Written(r), policy) && !AcceptedByMatching(Written(r), policy, r)
  {
    hide Written, AcceptedBySplitting, ParsedByMatching;
    WrittenIsAccepted(r, policy);
  }
}
