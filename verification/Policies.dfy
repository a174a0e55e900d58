/** Composing policy fragments by deep merge. */
module Policies {
  import opened Options

  // A YAML value; the order of a mapping's keys is not part of it.
  datatype Value =
    | Null
    | Boolean(b: bool)
    | Number(n: real)
    | Text(s: string)
    | Sequence(items: seq<Value>)
    | Mapping(entries: map<string, Value>)

  const EMPTY := Mapping(map[])

  function Merge(base: Value, overlay: Value): Value
    decreases overlay
  {
    if base.Mapping? && overlay.Mapping? then
      Mapping(map key | key in base.entries.Keys + overlay.entries.Keys ::
        if key !in overlay.entries then base.entries[key]
        else if key in base.entries then Merge(base.entries[key], overlay.entries[key])
        else overlay.entries[key])
    else overlay
  }

  // Fills a copy of the base, key by key of the overlay.
  method MergeValues(base: Value, overlay: Value) returns (r: Value)
    ensures r == Merge(base, overlay)
    decreases overlay
  {
    if !(base.Mapping? && overlay.Mapping?) { return overlay; }
    var merged, keys := base.entries, overlay.entries.Keys;
    while keys != {}
      invariant keys <= overlay.entries.Keys
      invariant merged.Keys == base.entries.Keys + (overlay.entries.Keys - keys)
      invariant forall key :: key in merged ==>
        merged[key] == if key in keys || key !in overlay.entries then base.entries[key] else Merge(base, overlay).entries[key]
      decreases keys
    {
      var key :| key in keys;
      if key in merged {
        var value := MergeValues(merged[key], overlay.entries[key]);
        merged := merged[key := value];
      } else {
        merged := merged[key := overlay.entries[key]];
      }
      keys := keys - {key};
    }
    assert merged == Merge(base, overlay).entries;
    return Mapping(merged);
  }

  /* ---- the rule at every path ---- */

  function At(v: Value, path: seq<string>): Option<Value>
    decreases |path|
  {
    if path == [] then Some(v)
    else if v.Mapping? && path[0] in v.entries then At(v.entries[path[0]], path[1..])
    else None
  }

  // Something on the way to the path is not a mapping.
  predicate Blocks(v: Value, path: seq<string>)
    decreases |path|
  {
    path != [] && (!v.Mapping? || (path[0] in v.entries && Blocks(v.entries[path[0]], path[1..])))
  }

  predicate Touches(v: Value, path: seq<string>) { At(v, path).Some? || Blocks(v, path) }

  lemma {:induction false} MergeAt(base: Value, overlay: Value, path: seq<string>)
    ensures At(Merge(base, overlay), path) ==
            if At(overlay, path).Some? then
              (if At(base, path).Some? then Some(Merge(At(base, path).value, At(overlay, path).value)) else At(overlay, path))
            else if Blocks(overlay, path) then None
            else At(base, path)
    decreases |path|
  {
    if path != [] && base.Mapping? && overlay.Mapping? && path[0] in base.entries && path[0] in overlay.entries {
      MergeAt(base.entries[path[0]], overlay.entries[path[0]], path[1..]);
    }
  }

  // The fold of compose, over the first n fragments.
  function MergeAll(base: Value, fragments: seq<Value>, n: nat): Value
    requires n <= |fragments|
  {
    if n == 0 then base else Merge(MergeAll(base, fragments, n - 1), fragments[n - 1])
  }

  // A path that no fragment touches keeps what the base has there.
  lemma {:induction false} UntouchedStays(base: Value, fragments: seq<Value>, n: nat, path: seq<string>)
    requires n <= |fragments| && forall j :: 0 <= j < n ==> !Touches(fragments[j], path)
    ensures At(MergeAll(base, fragments, n), path) == At(base, path)
  {
    if n > 0 {
      UntouchedStays(base, fragments, n - 1, path);
      MergeAt(MergeAll(base, fragments, n - 1), fragments[n - 1], path);
    }
  }

  // The last fragment that touches a path decides what is there, unless it has a mapping there, which may join
  // those before it.
  lemma {:induction false} LastWriterWins(base: Value, fragments: seq<Value>, n: nat, path: seq<string>, i: nat)
    requires i < n <= |fragments| && Touches(fragments[i], path)
    requires forall j :: i < j < n ==> !Touches(fragments[j], path)
    ensures At(fragments[i], path).Some? ==> At(MergeAll(base, fragments, n), path).Some?
    ensures (At(fragments[i], path).Some? ==> !At(fragments[i], path).value.Mapping?) ==>
      At(MergeAll(base, fragments, n), path) == At(fragments[i], path)
    ensures At(fragments[i], path).Some? && At(fragments[i], path).value.Mapping? ==>
      At(MergeAll(base, fragments, n), path).value.Mapping?
  {
    MergeAt(MergeAll(base, fragments, n - 1), fragments[n - 1], path);
    if n - 1 > i { LastWriterWins(base, fragments, n - 1, path, i); }
  }

  /* ---- applying twice, and regrouping ---- */

  // Everything a has is in c, at least as deep.
  ghost predicate Covers(c: Value, a: Value)
    decreases a
  {
    a.Mapping? && c.Mapping? ==> forall key :: key in a.entries ==> key in c.entries && Covers(c.entries[key], a.entries[key])
  }

  lemma {:induction false} CoveredAddsNothing(a: Value, c: Value)
    ensures Merge(a, c) == c <==> Covers(c, a)
    decreases a
  {
    if a.Mapping? && c.Mapping? {
      forall key | key in a.entries && key in c.entries
        ensures Merge(a.entries[key], c.entries[key]) == c.entries[key] <==> Covers(c.entries[key], a.entries[key])
      {
        CoveredAddsNothing(a.entries[key], c.entries[key]);
      }
      var merged := Merge(a, c).entries;
      if Covers(c, a) {
        assert merged == c.entries;
      } else {
        var key :| key in a.entries && !(key in c.entries && Covers(c.entries[key], a.entries[key]));
        assert key in merged && (key in c.entries ==> merged[key] != c.entries[key]);
      }
    }
  }

  lemma {:induction false} MergeCovers(base: Value, overlay: Value)
    ensures Covers(Merge(base, overlay), overlay)
    decreases overlay
  {
    if base.Mapping? && overlay.Mapping? {
      forall key | key in overlay.entries ensures Covers(Merge(base, overlay).entries[key], overlay.entries[key]) {
        if key in base.entries {
          MergeCovers(base.entries[key], overlay.entries[key]);
        } else {
          CoversItself(overlay.entries[key]);
        }
      }
    } else {
      CoversItself(overlay);
    }
  }

  lemma {:induction false} CoversItself(v: Value)
    ensures Covers(v, v)
    decreases v
  {
    if v.Mapping? {
      forall key | key in v.entries ensures Covers(v.entries[key], v.entries[key]) { CoversItself(v.entries[key]); }
    }
  }

  // Applying an overlay again changes nothing.
  lemma {:induction false} MergeTwice(base: Value, overlay: Value)
    ensures Merge(Merge(base, overlay), overlay) == Merge(base, overlay)
    decreases overlay
  {
    if base.Mapping? && overlay.Mapping? {
      var once := Merge(base, overlay);
      forall key | key in overlay.entries
        ensures Merge(once.entries[key], overlay.entries[key]) == once.entries[key]
      {
        if key in base.entries {
          MergeTwice(base.entries[key], overlay.entries[key]);
        } else {
          CoversItself(overlay.entries[key]);
          CoveredAddsNothing(overlay.entries[key], overlay.entries[key]);
        }
      }
      assert Merge(once, overlay).entries == once.entries;
    } else {
      CoversItself(overlay);
      CoveredAddsNothing(overlay, overlay);
    }
  }

  // A mapping, then something else, then a mapping that lacks some of the first.
  ghost predicate Clash(a: Value, b: Value, c: Value)
    decreases a
  {
    && a.Mapping? && c.Mapping?
    && if b.Mapping? then
        exists key :: key in a.entries && key in b.entries && key in c.entries && Clash(a.entries[key], b.entries[key], c.entries[key])
      else !Covers(c, a)
  }

  // Fragments may be regrouped exactly when no path clashes.
  lemma {:induction false} RegroupsUnlessClash(a: Value, b: Value, c: Value)
    ensures Merge(Merge(a, b), c) == Merge(a, Merge(b, c)) <==> !Clash(a, b, c)
    decreases a
  {
    if !(a.Mapping? && c.Mapping?) {
    } else if !b.Mapping? {
      CoveredAddsNothing(a, c);
    } else {
      var left, right := Merge(Merge(a, b), c), Merge(a, Merge(b, c));
      assert left.entries.Keys == right.entries.Keys;
      forall key | key in left.entries
        ensures left.entries[key] == right.entries[key] <==>
          !(key in a.entries && key in b.entries && key in c.entries && Clash(a.entries[key], b.entries[key], c.entries[key]))
      {
        if key in a.entries && key in b.entries && key in c.entries {
          RegroupsUnlessClash(a.entries[key], b.entries[key], c.entries[key]);
        }
      }
      if !Clash(a, b, c) { assert left.entries == right.entries; }
    }
  }

  // The same, by path.
  ghost predicate ClashesAt(a: Value, b: Value, c: Value, path: seq<string>) {
    && At(a, path).Some? && At(b, path).Some? && At(c, path).Some?
    && At(a, path).value.Mapping? && !At(b, path).value.Mapping? && At(c, path).value.Mapping?
    && !Covers(At(c, path).value, At(a, path).value)
  }

  lemma {:induction false} ClashHasPath(a: Value, b: Value, c: Value)
    requires Clash(a, b, c)
    ensures exists path :: ClashesAt(a, b, c, path)
    decreases a
  {
    if b.Mapping? {
      var key :| key in a.entries && key in b.entries && key in c.entries && Clash(a.entries[key], b.entries[key], c.entries[key]);
      ClashHasPath(a.entries[key], b.entries[key], c.entries[key]);
      var path :| ClashesAt(a.entries[key], b.entries[key], c.entries[key], path);
      assert ([key] + path)[1..] == path;
      assert ClashesAt(a, b, c, [key] + path);
    } else {
      assert ClashesAt(a, b, c, []);
    }
  }

  lemma {:induction false} PathClashes(a: Value, b: Value, c: Value, path: seq<string>)
    requires ClashesAt(a, b, c, path)
    ensures Clash(a, b, c)
    decreases |path|
  {
    if path != [] { PathClashes(a.entries[path[0]], b.entries[path[0]], c.entries[path[0]], path[1..]); }
  }

  /* ---- compose ---- */

  datatype Loaded = Unusable | Fragment(value: Value)

  datatype Composed = Refused | Policy(value: Value)

  // A fragment file: nothing is an empty mapping, and anything but a mapping is refused.
  function Load(file: Loaded): Option<Value> {
    match file
    case Unusable => None
    case Fragment(Null) => Some(EMPTY)
    case Fragment(value) => if value.Mapping? then Some(value) else None
  }

  // Python's value == 1
  predicate IsOne(v: Value) { v == Number(1.0) || v == Boolean(true) }

  function Versioned(policy: Value): Value
    requires policy.Mapping?
  {
    if "version" in policy.entries then policy else Mapping(policy.entries["version" := Number(1.0)])
  }

  predicate Valid(policy: Value)
    requires policy.Mapping? && "version" in policy.entries
  {
    && IsOne(policy.entries["version"])
    && ("network_policies" in policy.entries ==>
        policy.entries["network_policies"].Null? || policy.entries["network_policies"].Mapping?)
  }

  function Fragments(files: seq<Loaded>): (r: seq<Value>)
    requires forall i :: 0 <= i < |files| ==> Load(files[i]).Some?
    ensures |r| == |files|
  {
    seq(|files|, i requires 0 <= i < |files| => Load(files[i]).value)
  }

  predicate AllLoad(files: seq<Loaded>) { forall i :: 0 <= i < |files| ==> Load(files[i]).Some? }

  lemma {:induction false} FragmentsMerge(files: seq<Loaded>)
    requires AllLoad(files)
    ensures MergeAll(EMPTY, Fragments(files), |files|).Mapping?
  {}

  // The merged fragments with their version, when they are a policy document.
  function Outcome(files: seq<Loaded>): Composed
    requires AllLoad(files)
  {
    FragmentsMerge(files);
    var policy := Versioned(MergeAll(EMPTY, Fragments(files), |files|));
    if Valid(policy) then Policy(policy) else Refused
  }

  // Composes the files from left to right, and refuses what is no policy document.
  method Compose(files: seq<Loaded>) returns (r: Composed)
    ensures !AllLoad(files) ==> r == Refused
    ensures AllLoad(files) ==> r == Outcome(files)
  {
    var policy := EMPTY;
    ghost var fragments := [];
    for i := 0 to |files|
      invariant |fragments| == i && policy == MergeAll(EMPTY, fragments, i) && policy.Mapping?
      invariant forall j :: 0 <= j < i ==> Load(files[j]) == Some(fragments[j])
    {
      var value := Load(files[i]);
      if value.None? { return Refused; }
      MergeAllPrefix(fragments, [value.value], i);
      fragments := fragments + [value.value];
      policy := MergeValues(policy, value.value);
    }
    FragmentsMerge(files);
    assert fragments == Fragments(files);
    policy := Versioned(policy);
    if !IsOne(policy.entries["version"]) { return Refused; }
    if "network_policies" in policy.entries {
      var network := policy.entries["network_policies"];
      if !network.Null? && !network.Mapping? { return Refused; }
    }
    return Policy(policy);
  }

  lemma {:induction false} MergeAllPrefix(fragments: seq<Value>, more: seq<Value>, n: nat)
    requires n <= |fragments|
    ensures MergeAll(EMPTY, fragments + more, n) == MergeAll(EMPTY, fragments, n)
  {
    if n > 0 { MergeAllPrefix(fragments, more, n - 1); }
  }

  // A composed policy has at every path what the last fragment to touch the path has there; only the version of a
  // policy without one is added.
  lemma {:induction false} ComposedFromLast(files: seq<Loaded>, path: seq<string>, i: nat)
    requires AllLoad(files) && Outcome(files).Policy? && i < |files|
    requires Touches(Fragments(files)[i], path) && forall j :: i < j < |files| ==> !Touches(Fragments(files)[j], path)
    requires path != [] && (At(Fragments(files)[i], path).Some? ==> !At(Fragments(files)[i], path).value.Mapping?)
    ensures At(Outcome(files).value, path) == At(Fragments(files)[i], path)
      || (path[0] == "version" && At(MergeAll(EMPTY, Fragments(files), |files|), ["version"]).None?)
  {
    hide MergeAll, Valid;
    FragmentsMerge(files);
    LastWriterWins(EMPTY, Fragments(files), |files|, path, i);
    var merged := MergeAll(EMPTY, Fragments(files), |files|);
    if "version" !in merged.entries {
      assert At(merged, ["version"]).None?;
    }
  }

  // A mapping with no version or version 1, and no network policies or a mapping of them.
  predicate Ordinary(v: Value) {
    && v.Mapping?
    && ("version" in v.entries ==> v.entries["version"] == Number(1.0))
    && ("network_policies" in v.entries ==> v.entries["network_policies"].Mapping?)
  }

  predicate HasKey(v: Value, key: string) { v.Mapping? && key in v.entries }

  lemma {:induction false} OrdinaryMerges(base: Value, overlay: Value)
    requires Ordinary(base) && Ordinary(overlay)
    ensures Ordinary(Merge(base, overlay))
    ensures forall key :: HasKey(Merge(base, overlay), key) <==> HasKey(base, key) || HasKey(overlay, key)
  {}

  lemma {:induction false} OrdinaryFold(fragments: seq<Value>, n: nat)
    requires n <= |fragments| && forall i :: 0 <= i < |fragments| ==> Ordinary(fragments[i])
    ensures Ordinary(MergeAll(EMPTY, fragments, n))
    ensures forall key :: HasKey(MergeAll(EMPTY, fragments, n), key) <==> exists i :: 0 <= i < n && HasKey(fragments[i], key)
  {
    hide Merge, HasKey, Ordinary;
    if n == 0 {
      EmptyIsOrdinary();
    } else {
      OrdinaryFold(fragments, n - 1);
      OrdinaryMerges(MergeAll(EMPTY, fragments, n - 1), fragments[n - 1]);
    }
  }

  lemma {:induction false} EmptyIsOrdinary()
    ensures Ordinary(EMPTY) && forall key :: !HasKey(EMPTY, key)
  {}

  // Empty and ordinary fragments compose: to a policy of version 1 with all their keys and no others.
  lemma {:induction false} OrdinaryComposes(files: seq<Loaded>)
    requires forall i :: 0 <= i < |files| ==> files[i].Fragment? && (files[i].value.Null? || Ordinary(files[i].value))
    ensures AllLoad(files) && Outcome(files).Policy? && Ordinary(Outcome(files).value)
    ensures At(Outcome(files).value, ["version"]) == Some(Number(1.0))
    ensures forall key :: HasKey(Outcome(files).value, key) <==>
      key == "version" || exists i :: 0 <= i < |files| && HasKey(files[i].value, key)
  {
    hide MergeAll;
    assert AllLoad(files);
    FragmentsMerge(files);
    EmptyIsOrdinary();
    assert forall i :: 0 <= i < |files| ==> Fragments(files)[i] == if files[i].value.Null? then EMPTY else files[i].value;
    OrdinaryFold(Fragments(files), |files|);
    var merged := MergeAll(EMPTY, Fragments(files), |files|);
    FieldIsAt(Versioned(merged), "version");
    forall key
      ensures HasKey(Outcome(files).value, key) <==>
        key == "version" || exists i :: 0 <= i < |files| && HasKey(files[i].value, key)
    {
      assert HasKey(Versioned(merged), key) <==> key == "version" || HasKey(merged, key);
      if i :| 0 <= i < |files| && HasKey(Fragments(files)[i], key) { assert HasKey(files[i].value, key); }
      if i :| 0 <= i < |files| && HasKey(files[i].value, key) { assert HasKey(Fragments(files)[i], key); }
    }
  }

  // Files are composed exactly when every one is empty or a mapping, and what they merge to has no version or version 1
  // (which true equals) and nothing or a mapping under network_policies.
  lemma {:induction false} ComposedWhen(files: seq<Loaded>)
    ensures AllLoad(files) <==>
      forall i :: 0 <= i < |files| ==> files[i].Fragment? && (files[i].value.Null? || files[i].value.Mapping?)
    ensures AllLoad(files) ==>
      var merged := MergeAll(EMPTY, Fragments(files), |files|);
      var version, network := At(merged, ["version"]), At(merged, ["network_policies"]);
      Outcome(files).Policy? <==>
        && version in {None, Some(Number(1.0)), Some(Boolean(true))}
        && (network.None? || network.value.Null? || network.value.Mapping?)
  {
    hide MergeAll, At;
    if AllLoad(files) {
      FragmentsMerge(files);
      var merged := MergeAll(EMPTY, Fragments(files), |files|);
      FieldIsAt(merged, "version");
      FieldIsAt(merged, "network_policies");
      KeysDiffer();
    }
  }

  lemma {:induction false} KeysDiffer()
    ensures "version" != "network_policies"
  {
    assert |"version"| != |"network_policies"|;
  }

  // A path that the fragments behind one do not touch.
  predicate LastTouch(fragments: seq<Value>, i: nat, path: seq<string>) {
    i < |fragments| && forall j :: i < j < |fragments| ==> !Touches(fragments[j], path)
  }

  // A last version that is another number is refused, and so are last network policies that are a list.
  lemma {:induction false} OddIsRefused(files: seq<Loaded>, i: nat)
    requires AllLoad(files) && i < |files| && Fragments(files)[i].Mapping?
    ensures var v := At(Fragments(files)[i], ["version"]);
      LastTouch(Fragments(files), i, ["version"]) && v.Some? && v.value.Number? && v.value.n != 1.0 ==> Outcome(files) == Refused
    ensures var v := At(Fragments(files)[i], ["network_policies"]);
      LastTouch(Fragments(files), i, ["network_policies"]) && v.Some? && v.value.Sequence? ==> Outcome(files) == Refused
  {
    hide MergeAll, At, Touches;
    FragmentsMerge(files);
    var fragments, merged := Fragments(files), MergeAll(EMPTY, Fragments(files), |files|);
    FieldIsAt(merged, "version");
    FieldIsAt(merged, "network_policies");
    if LastTouch(fragments, i, ["version"]) && At(fragments[i], ["version"]).Some? {
      TouchedIs(fragments[i], ["version"]);
      LastWriterWins(EMPTY, fragments, |files|, ["version"], i);
    }
    if LastTouch(fragments, i, ["network_policies"]) && At(fragments[i], ["network_policies"]).Some? {
      TouchedIs(fragments[i], ["network_policies"]);
      LastWriterWins(EMPTY, fragments, |files|, ["network_policies"], i);
    }
  }

  lemma {:induction false} TouchedIs(v: Value, path: seq<string>)
    requires At(v, path).Some?
    ensures Touches(v, path)
  {}

  lemma {:induction false} FieldIsAt(v: Value, key: string)
    requires v.Mapping?
    ensures At(v, [key]) == if key in v.entries then Some(v.entries[key]) else None
  {
    if key in v.entries { assert At(v.entries[key], [key][1..]) == Some(v.entries[key]); }
  }
}
