/** Progressive suppression of findings that keep coming. */
module Suppressing {

  const NEVER_SUPPRESS: set<string> := {"UNICODE-001", "canary_detected"}

  datatype Finding = Finding(rule: string, subType: string, details: string)

  datatype Fingerprint = Fingerprint(rule: string, subType: string)

  function FingerprintOf(f: Finding): Fingerprint { Fingerprint(f.rule, f.subType) }

  // How often a fingerprint has come.
  function Occurrences(seen: seq<Finding>, fp: Fingerprint): nat {
    if seen == [] then 0
    else Occurrences(seen[..|seen| - 1], fp) + if FingerprintOf(seen[|seen| - 1]) == fp then 1 else 0
  }

  function Max(a: int, b: int): int { if a >= b then a else b }
  function Min(a: int, b: int): int { if a <= b then a else b }

  // What is kept of the findings seen: those that come before their fingerprint has come threshold times.
  function Kept(seen: seq<Finding>, threshold: int): seq<Finding> {
    if seen == [] then []
    else
      var before, f := seen[..|seen| - 1], seen[|seen| - 1];
      Kept(before, threshold)
      + if f.rule in NEVER_SUPPRESS || Occurrences(seen, FingerprintOf(f)) < threshold then [f] else []
  }

  predicate IsSuppressed(seen: seq<Finding>, threshold: int, fp: Fingerprint) {
    fp.rule !in NEVER_SUPPRESS && Occurrences(seen, fp) >= Max(threshold, 1)
  }

  predicate HasSubType(seen: seq<Finding>, rule: string, subType: string) {
    Occurrences(seen, Fingerprint(rule, subType)) > 0
  }

  // Every sub-type of the rule that has come is suppressed, and one has come.
  ghost predicate Skippable(seen: seq<Finding>, threshold: int, rule: string) {
    && rule !in NEVER_SUPPRESS
    && (exists t :: HasSubType(seen, rule, t))
    && (forall t :: HasSubType(seen, rule, t) ==> IsSuppressed(seen, threshold, Fingerprint(rule, t)))
  }

  lemma {:induction false} OneMore(seen: seq<Finding>, f: Finding, threshold: int)
    ensures forall fp :: Occurrences(seen + [f], fp) == Occurrences(seen, fp) + if FingerprintOf(f) == fp then 1 else 0
    ensures Kept(seen + [f], threshold) == Kept(seen, threshold)
      + if f.rule in NEVER_SUPPRESS || Occurrences(seen, FingerprintOf(f)) + 1 < threshold then [f] else []
  {}

  // Of each fingerprint that may be suppressed, the first threshold - 1 findings are kept,
  lemma {:induction false} KeptOfEach(seen: seq<Finding>, threshold: int, fp: Fingerprint)
    ensures Occurrences(Kept(seen, threshold), fp) ==
            if fp.rule in NEVER_SUPPRESS then Occurrences(seen, fp) else Min(Occurrences(seen, fp), Max(threshold - 1, 0))
  {
    hide Occurrences, Kept;
    if seen == [] {
      NothingYet(threshold);
    } else {
      var before, f := seen[..|seen| - 1], seen[|seen| - 1];
      KeptOfEach(before, threshold, fp);
      assert seen == before + [f];
      OneMore(before, f, threshold);
      OneMore(Kept(before, threshold), f, threshold);
      assert Kept(before, threshold) + [] == Kept(before, threshold);
    }
  }

  lemma {:induction false} NothingYet(threshold: int)
    ensures Kept([], threshold) == [] && forall fp :: Occurrences([], fp) == 0
  {}

  // and nothing is kept that was not seen.
  lemma {:induction false} KeptWasSeen(seen: seq<Finding>, threshold: int)
    ensures multiset(Kept(seen, threshold)) <= multiset(seen)
  {
    if seen != [] {
      KeptWasSeen(seen[..|seen| - 1], threshold);
      assert seen == seen[..|seen| - 1] + [seen[|seen| - 1]];
    }
  }

  lemma {:induction false} OccurrencesTotal(seen: seq<Finding>, f: Finding)
    requires f in seen
    ensures Occurrences(seen, FingerprintOf(f)) > 0
  {
    var n := |seen| - 1;
    if seen[n] != f { OccurrencesTotal(seen[..n], f); }
  }

  // A threshold of one keeps only what is never suppressed.
  lemma {:induction false} ThresholdOne(seen: seq<Finding>, threshold: int)
    requires threshold <= 1
    ensures forall f :: f in Kept(seen, threshold) ==> f.rule in NEVER_SUPPRESS
  {
    forall f | f in Kept(seen, threshold) ensures f.rule in NEVER_SUPPRESS {
      KeptOfEach(seen, threshold, FingerprintOf(f));
      OccurrencesTotal(Kept(seen, threshold), f);
    }
  }

  // The sub-types seen of each rule.
  predicate Has(sorted: map<string, set<string>>, rule: string, t: string) { rule in sorted && t in sorted[rule] }

  ghost predicate Sorts(sorted: map<string, set<string>>, seen: seq<Finding>) {
    && (forall rule :: rule in sorted ==> rule !in NEVER_SUPPRESS && sorted[rule] != {})
    && (forall rule, t :: rule !in NEVER_SUPPRESS ==> (Has(sorted, rule, t) <==> HasSubType(seen, rule, t)))
  }

  function Noted(sorted: map<string, set<string>>, f: Finding): map<string, set<string>> {
    sorted[f.rule := (if f.rule in sorted then sorted[f.rule] else {}) + {f.subType}]
  }

  lemma {:induction false} SortsMore(sorted: map<string, set<string>>, seen: seq<Finding>, f: Finding)
    requires Sorts(sorted, seen)
    ensures Sorts(if f.rule in NEVER_SUPPRESS then sorted else Noted(sorted, f), seen + [f])
  {
    hide Occurrences;
    OneMore(seen, f, 0);
    var after := if f.rule in NEVER_SUPPRESS then sorted else Noted(sorted, f);
    forall rule, t | rule !in NEVER_SUPPRESS ensures Has(after, rule, t) <==> HasSubType(seen + [f], rule, t) {
      assert Has(sorted, rule, t) <==> HasSubType(seen, rule, t);
    }
  }

  function Concat(batches: seq<seq<Finding>>): seq<Finding> {
    if batches == [] then [] else Concat(batches[..|batches| - 1]) + batches[|batches| - 1]
  }

  class ProgressiveSuppressor {
    const threshold: int
    var counts: map<Fingerprint, nat>
    var suppressed: set<Fingerprint>
    var seenByRule: map<string, set<string>>
    var suppressedCount: nat
    var skipRules: set<string>
    ghost var seen: seq<Finding>

    // The fields while a batch is being read: all but skipRules are up to date.
    ghost predicate Counting()
      reads this
    {
      && (forall fp: Fingerprint :: fp in suppressed <==> IsSuppressed(seen, threshold, fp))
      && (forall fp: Fingerprint :: fp.rule !in NEVER_SUPPRESS && fp !in suppressed ==>
        (if fp in counts then counts[fp] else 0) == Occurrences(seen, fp))
      && Sorts(seenByRule, seen)
      && |Kept(seen, threshold)| + suppressedCount == |seen|
    }

    ghost predicate Valid()
      reads this
    {
      Counting() && forall rule :: rule in skipRules <==> Skippable(seen, threshold, rule)
    }

    constructor (threshold: int)
      ensures Valid() && seen == [] && this.threshold == threshold
    {
      this.threshold := threshold;
      counts, suppressed, seenByRule := map[], {}, map[];
      suppressedCount, skipRules := 0, {};
      seen := [];
    }

    // One finding: kept or suppressed.
    method Take(f: Finding) returns (keep: bool)
      requires Counting()
      modifies this
      ensures Counting() && seen == old(seen) + [f] && skipRules == old(skipRules)
      ensures Kept(seen, threshold) == Kept(old(seen), threshold) + if keep then [f] else []
    {
      hide Kept, Occurrences, Sorts, Noted;
      OneMore(seen, f, threshold);
      SortsMore(seenByRule, seen, f);
      var fp := FingerprintOf(f);
      seen := seen + [f];
      if f.rule in NEVER_SUPPRESS { return true; }
      seenByRule := Noted(seenByRule, f);
      if fp in suppressed {
        suppressedCount := suppressedCount + 1;
        return false;
      }
      counts := counts[fp := (if fp in counts then counts[fp] else 0) + 1];
      if counts[fp] >= threshold {
        suppressed := suppressed + {fp};
        suppressedCount := suppressedCount + 1;
        return false;
      }
      return true;
    }

    method UpdateSkipRules()
      requires Counting()
      modifies this`skipRules
      ensures Valid()
    {
      skipRules := set rule | rule in seenByRule && forall t :: t in seenByRule[rule] ==> Fingerprint(rule, t) in suppressed;
      assert forall rule :: rule in skipRules <==> Skippable(seen, threshold, rule) by { SkipRulesAre(); }
    }

    lemma SkipRulesAre()
      requires Counting()
      ensures forall rule :: Skippable(seen, threshold, rule) <==>
        rule in seenByRule && forall t :: t in seenByRule[rule] ==> Fingerprint(rule, t) in suppressed
    {
      hide Kept, Occurrences;
      forall rule
        ensures Skippable(seen, threshold, rule) <==>
          rule in seenByRule && forall t :: t in seenByRule[rule] ==> Fingerprint(rule, t) in suppressed
      {
        if rule in seenByRule {
          var t :| t in seenByRule[rule];
          assert Has(seenByRule, rule, t);
        }
      }
    }

    // __call__: what is kept of a batch, given all that came before it
    method Call(findings: seq<Finding>) returns (kept: seq<Finding>)
      requires Valid()
      modifies this
      ensures Valid() && seen == old(seen) + findings
      ensures Kept(seen, threshold) == Kept(old(seen), threshold) + kept
    {
      hide Kept, Skippable;
      kept := [];
      for i := 0 to |findings|
        invariant Counting() && seen == old(seen) + findings[..i]
        invariant Kept(seen, threshold) == Kept(old(seen), threshold) + kept
      {
        var keep := Take(findings[i]);
        if keep { kept := kept + [findings[i]]; }
        assert findings[..i + 1] == findings[..i] + [findings[i]];
      }
      UpdateSkipRules();
    }
  }

  // However the findings are cut into batches, the same ones are kept.
  method SuppressBatches(batches: seq<seq<Finding>>, threshold: int)
    returns (kept: seq<Finding>, suppressedCount: nat, skipRules: set<string>)
    ensures kept == Kept(Concat(batches), threshold)
    ensures |kept| + suppressedCount == |Concat(batches)|
    ensures forall rule :: rule in skipRules <==> Skippable(Concat(batches), threshold, rule)
  {
    hide Skippable;
    var suppressor := new ProgressiveSuppressor(threshold);
    kept := [];
    for i := 0 to |batches|
      invariant suppressor.Valid() && suppressor.threshold == threshold
      invariant fresh(suppressor)
      invariant suppressor.seen == Concat(batches[..i]) && kept == Kept(suppressor.seen, threshold)
    {
      assert batches[..i + 1][..i] == batches[..i];
      var more := suppressor.Call(batches[i]);
      kept := kept + more;
    }
    assert batches[..|batches|] == batches;
    suppressedCount, skipRules := suppressor.suppressedCount, suppressor.skipRules;
  }
}
