/** What cleaning does to hook entries and what it reports, in terms of their fields. */
module Entries {
  import opened Syntax
  import opened Options
  import opened Values
  import opened Pruning
  import opened Hooks
  import opened Conditions
  import opened Recovery

  const COMMAND_KEYS: set<string> := {"command", "bash", "powershell"}

  function Elements(items: Items): seq<Json> {
    match items
    case Nil => []
    case Item(_, value, rest) => [value] + Elements(rest)
  }

  function ValueAt(items: Items, key: string): Option<Json> { Lookup(items, Ascii(key)) }

  // A command the tool may own is a text or a non-empty list of texts.
  predicate OwnCommand(command: Json, own: Owner) {
    && own(command)
    && (command.Str?
        || (command.Container? && command.kind.Arr? && Elements(command.items) != []
            && forall e :: e in Elements(command.items) ==> e.Str?))
  }

  predicate OwnsSome(items: Items, own: Owner) {
    exists k :: k in COMMAND_KEYS && ValueAt(items, k).Some? && OwnCommand(ValueAt(items, k).value, own)
  }

  predicate OwnsAll(items: Items, own: Owner) {
    forall k :: k in COMMAND_KEYS && ValueAt(items, k).Some? ==> OwnCommand(ValueAt(items, k).value, own)
  }

  lemma {:induction false} TextsAre(items: Items)
    ensures AllTexts(items) <==> forall e :: e in Elements(items) ==> e.Str?
    ensures items.Item? <==> Elements(items) != []
  {
    if items.Item? { TextsAre(items.rest); }
  }

  lemma {:induction false} OwnedIs(command: Json, own: Owner)
    ensures Owned(own, command) <==> OwnCommand(command, own)
  {
    if command.Container? { TextsAre(command.items); }
  }

  lemma {:induction false} CommandIs(items: Items, c: Json)
    ensures c in Commands(items) <==> exists k :: k in COMMAND_KEYS && ValueAt(items, k) == Some(c)
  {
    hide Ascii, Lookup, Commands;
    CommandsAre(items);
    assert "command" in COMMAND_KEYS && "bash" in COMMAND_KEYS && "powershell" in COMMAND_KEYS;
    OneCommandIs(items, "command", c);
    OneCommandIs(items, "bash", c);
    OneCommandIs(items, "powershell", c);
  }

  lemma {:induction false} OneCommandIs(items: Items, key: string, c: Json)
    ensures c in OneCommand(items, key) <==> ValueAt(items, key) == Some(c)
  {}

  lemma {:induction false} OwnsIs(items: Items, own: Owner)
    ensures AnyOwned(items, own) <==> OwnsSome(items, own)
    ensures AllOwned(items, own) <==> OwnsAll(items, own)
  {
    hide Ascii, Lookup, Commands, Owned, OwnCommand, ValueAt, AnyOwned, AllOwned;
    OwnedIn(items, own);
    forall c ensures (c in Commands(items) <==> exists k :: k in COMMAND_KEYS && ValueAt(items, k) == Some(c))
      && (Owned(own, c) <==> OwnCommand(c, own))
    {
      CommandIs(items, c);
      OwnedIs(c, own);
    }
    if AnyOwned(items, own) {
      var c :| c in Commands(items) && Owned(own, c);
      var k :| k in COMMAND_KEYS && ValueAt(items, k) == Some(c);
    }
    if OwnsSome(items, own) {
      var k :| k in COMMAND_KEYS && ValueAt(items, k).Some? && OwnCommand(ValueAt(items, k).value, own);
      assert ValueAt(items, k) == Some(ValueAt(items, k).value);
    }
    if OwnsAll(items, own) {
      forall c | c in Commands(items) ensures Owned(own, c) {
        var k :| k in COMMAND_KEYS && ValueAt(items, k) == Some(c);
      }
    }
    if AllOwned(items, own) {
      forall k | k in COMMAND_KEYS && ValueAt(items, k).Some? ensures OwnCommand(ValueAt(items, k).value, own) {
        assert ValueAt(items, k) == Some(ValueAt(items, k).value);
      }
    }
  }

  /* ---- what is kept ---- */

  // What is left of a list of values: those that are kept, as they are kept.
  function Left(xs: seq<Json>, own: Owner): seq<Json> {
    if xs == [] then [] else (if Clean(xs[0], own).Drop? then [] else [Clean(xs[0], own).value]) + Left(xs[1..], own)
  }

  // A field goes when its value is dropped or is a container of something that nothing is left of.
  predicate FieldGoes(value: Json, own: Owner) {
    || Clean(value, own).Drop?
    || (value.Container? && Elements(value.items) != []
        && Clean(value, own).value.Container? && Elements(Clean(value, own).value.items) == [])
  }

  // A list keeps what is left of it.
  lemma {:induction false} ListIsCleaned(items: Items, own: Owner)
    ensures var r := Clean(Container(Arr, items), own);
      r.Keep? && r.value.Container? && r.value.kind.Arr? && Elements(r.value.items) == Left(Elements(items), own)
  {
    ElementsAreLeft(items, own);
  }

  lemma {:induction false} ElementsAreLeft(items: Items, own: Owner)
    ensures Elements(CleanElements(items, own)) == Left(Elements(items), own)
  {
    hide Clean;
    if items.Item? {
      ElementsAreLeft(items.rest, own);
      assert Elements(items)[1..] == Elements(items.rest);
    }
  }

  predicate IsList(value: Json) { value.Container? && value.kind.Arr? }

  // An entry with owned commands only is dropped, one with owned and other ones is kept as it is; one without owned
  // commands is dropped when it has a non-empty hooks list of which nothing is left, and otherwise keeps the fields that
  // do not go, cleaned.
  lemma {:induction false} EntryIsCleaned(items: Items, own: Owner)
    requires UniqueItems(items, Obj)
    ensures var r, hooks := Clean(Container(Obj, items), own), ValueAt(items, "hooks");
      if OwnsSome(items, own) then r == if OwnsAll(items, own) then Drop else Keep(Container(Obj, items))
      else if hooks.Some? && IsList(hooks.value) && Elements(hooks.value.items) != [] && Left(Elements(hooks.value.items), own) == []
      then r == Drop
      else
        && r.Keep? && r.value.Container? && r.value.kind.Obj?
        && forall name :: Lookup(r.value.items, name) ==
             var was := Lookup(items, name);
             if was.Some? && !FieldGoes(was.value, own) then Some(Clean(was.value, own).value) else None
  {
    hide Ascii, Lookup, AnyOwned, AllOwned, OwnsSome, OwnsAll, Left, CleanFields, CleanElements, Vanishes, UniqueItems;
    OwnsIs(items, own);
    LookupAfter(items, Ascii("hooks"), own);
    forall name ensures Lookup(CleanFields(items, own), name) ==
      var was := Lookup(items, name);
      if was.Some? && !FieldGoes(was.value, own) then Some(Clean(was.value, own).value) else None
    {
      LookupAfter(items, name, own);
      if Lookup(items, name).Some? { FieldGoesIs(Lookup(items, name).value, own); }
    }
    var hooks := ValueAt(items, "hooks");
    if hooks.Some? && IsList(hooks.value) { HooksListLeft(hooks.value.items, own); }
    if hooks.Some? { FieldGoesIs(hooks.value, own); }
  }

  lemma {:induction false} HooksListLeft(items: Items, own: Owner)
    ensures Vanishes(Container(Arr, items), Clean(Container(Arr, items), own)) <==>
      Elements(items) != [] && Left(Elements(items), own) == []
    ensures items.Item? <==> Elements(items) != []
  {
    hide Left;
    ListIsCleaned(items, own);
    TextsAre(items);
    TextsAre(CleanElements(items, own));
  }

  lemma {:induction false} FieldGoesIs(value: Json, own: Owner)
    ensures FieldGoes(value, own) <==> Vanishes(value, Clean(value, own))
  {
    hide Clean;
    if value.Container? { TextsAre(value.items); }
    if Clean(value, own).Keep? && Clean(value, own).value.Container? { TextsAre(Clean(value, own).value.items); }
  }

  /* ---- where nothing is owned ---- */

  predicate OwnsNothing(value: Json, own: Owner) {
    value.Container? ==> (value.kind.Obj? ==> !OwnsSome(value.items, own)) && ItemsOwnNothing(value.items, own)
  }

  predicate ItemsOwnNothing(items: Items, own: Owner) {
    items.Item? ==> OwnsNothing(items.value, own) && ItemsOwnNothing(items.rest, own)
  }

  // Cleaning leaves a value in which the tool owns nothing as it is.
  lemma {:induction false} NothingOwnedStays(value: Json, own: Owner)
    requires OwnsNothing(value, own)
    ensures Clean(value, own) == Keep(value)
    decreases value, 1
  {
    hide OwnsSome, AnyOwned, AllOwned, Ascii;
    if value.Container? {
      OwnsIs(value.items, own);
      if value.kind.Arr? { NoElementGoes(value.items, own); } else { NoFieldGoes(value.items, own); }
    }
  }

  lemma {:induction false} NoElementGoes(items: Items, own: Owner)
    requires ItemsOwnNothing(items, own)
    ensures CleanElements(items, own) == items
    decreases items, 0
  {
    hide Clean, OwnsNothing;
    if items.Item? {
      NothingOwnedStays(items.value, own);
      NoElementGoes(items.rest, own);
    }
  }

  lemma {:induction false} NoFieldGoes(items: Items, own: Owner)
    requires ItemsOwnNothing(items, own)
    ensures CleanFields(items, own) == items
    decreases items, 0
  {
    hide Clean, OwnsNothing;
    if items.Item? {
      NothingOwnedStays(items.value, own);
      NoFieldGoes(items.rest, own);
    }
  }

  /* ---- what is reported ---- */

  // Both owned commands and others.
  predicate Mixed(entry: Json, own: Owner) {
    entry.Container? && entry.kind.Obj? && OwnsSome(entry.items, own) && !OwnsAll(entry.items, own)
  }

  // No owned command, and one that begins like one.
  predicate Odd(entry: Json, own: Owner, odd: Owner) {
    && entry.Container? && entry.kind.Obj? && !OwnsSome(entry.items, own)
    && exists k :: k in COMMAND_KEYS && ValueAt(entry.items, k).Some? && ValueAt(entry.items, k).value.Str? && odd(ValueAt(entry.items, k).value)
  }

  // The values cleaning comes to: all but those inside an entry with an owned command.
  function Met(value: Json, own: Owner): seq<Json>
    decreases value, 1
  {
    [value] + if value.Container? && (value.kind.Arr? || !OwnsSome(value.items, own)) then MetIn(value.items, own) else []
  }

  function MetIn(items: Items, own: Owner): seq<Json>
    decreases items, 0
  {
    if items.Nil? then [] else Met(items.value, own) + MetIn(items.rest, own)
  }

  lemma {:induction false} OddIs(items: Items, odd: Owner)
    ensures AnyOdd(items, odd) <==>
      exists k :: k in COMMAND_KEYS && ValueAt(items, k).Some? && ValueAt(items, k).value.Str? && odd(ValueAt(items, k).value)
  {
    hide Commands, Ascii, Lookup, ValueAt;
    forall c ensures c in Commands(items) <==> exists k :: k in COMMAND_KEYS && ValueAt(items, k) == Some(c) { CommandIs(items, c); }
    if AnyOdd(items, odd) {
      var i :| 0 <= i < |Commands(items)| && Commands(items)[i].Str? && odd(Commands(items)[i]);
      assert Commands(items)[i] in Commands(items);
      var k :| k in COMMAND_KEYS && ValueAt(items, k) == Some(Commands(items)[i]);
    }
    if k :| k in COMMAND_KEYS && ValueAt(items, k).Some? && ValueAt(items, k).value.Str? && odd(ValueAt(items, k).value) {
      assert ValueAt(items, k) == Some(ValueAt(items, k).value);
      var i :| 0 <= i < |Commands(items)| && Commands(items)[i] == ValueAt(items, k).value;
    }
  }

  // A problem of either kind is reported exactly when cleaning comes to an entry of its kind, and no other is.
  lemma {:induction false} ProblemsAreMet(value: Json, own: Owner, odd: Owner)
    ensures MixedCommands in Problems(value, own, odd) <==> exists e :: e in Met(value, own) && Mixed(e, own)
    ensures UnrecognizedHook in Problems(value, own, odd) <==> exists e :: e in Met(value, own) && Odd(e, own, odd)
    ensures UnrecognizedServer !in Problems(value, own, odd)
    decreases value, 1
  {
    hide OwnsSome, OwnsAll, AnyOwned, AllOwned, AnyOdd;
    assert value in Met(value, own);
    if value.Container? {
      OwnsIs(value.items, own);
      OddIs(value.items, odd);
      ProblemsOfAreMet(value.items, own, odd);
    }
  }

  lemma {:induction false} ProblemsOfAreMet(items: Items, own: Owner, odd: Owner)
    ensures MixedCommands in ProblemsOf(items, own, odd) <==> exists e :: e in MetIn(items, own) && Mixed(e, own)
    ensures UnrecognizedHook in ProblemsOf(items, own, odd) <==> exists e :: e in MetIn(items, own) && Odd(e, own, odd)
    ensures UnrecognizedServer !in ProblemsOf(items, own, odd)
    decreases items, 0
  {
    hide Problems, Mixed, Odd, Met;
    if items.Item? {
      ProblemsAreMet(items.value, own, odd);
      ProblemsOfAreMet(items.rest, own, odd);
    }
  }

  /* ---- whether what is reported is retained ---- */

  // The same values, without those inside a value that is dropped.
  function MetKept(value: Json, own: Owner): seq<Json>
    decreases value, 1
  {
    if Clean(value, own).Drop? then []
    else [value] + if value.Container? && (value.kind.Arr? || !OwnsSome(value.items, own)) then MetKeptIn(value.items, own) else []
  }

  function MetKeptIn(items: Items, own: Owner): seq<Json>
    decreases items, 0
  {
    if items.Nil? then [] else MetKept(items.value, own) + MetKeptIn(items.rest, own)
  }

  // A value and all that is in it.
  function Inside(value: Json): seq<Json>
    decreases value, 1
  {
    [value] + if value.Container? then InsideOf(value.items) else []
  }

  function InsideOf(items: Items): seq<Json>
    decreases items, 0
  {
    if items.Nil? then [] else Inside(items.value) + InsideOf(items.rest)
  }

  // Something is left of a kept entry that is reported.
  lemma {:induction false} ReportedIsSolid(e: Json, own: Owner, odd: Owner)
    requires Unique(e) && Clean(e, own).Keep? && (Mixed(e, own) || Odd(e, own, odd))
    ensures Clean(e, own).value.Container? && Clean(e, own).value.items.Item?
  {
    hide Ascii, OwnsSome, OwnsAll, AnyOwned, AllOwned, OwnCommand, UniqueItems, CleanFields, HooksGone;
    OwnsIs(e.items, own);
    var k :| k in COMMAND_KEYS && ValueAt(e.items, k).Some? && (Odd(e, own, odd) ==> ValueAt(e.items, k).value.Str?) by {
      if Mixed(e, own) { SomeCommand(e.items, own); }
    }
    NoFieldInNothing(e.items, k);
    if Odd(e, own, odd) {
      LookupAfter(e.items, Ascii(k), own);
      TextStays(ValueAt(e.items, k).value, own);
      NoFieldInNothing(CleanFields(e.items, own), k);
    } else {
      assert Clean(e, own) == Keep(e);
    }
  }

  lemma {:induction false} NoFieldInNothing(items: Items, k: string)
    ensures ValueAt(items, k).Some? ==> items.Item?
  {}

  lemma {:induction false} SomeCommand(items: Items, own: Owner)
    requires OwnsSome(items, own)
    ensures exists k :: k in COMMAND_KEYS && ValueAt(items, k).Some?
  {
    hide ValueAt, OwnCommand;
  }

  lemma {:induction false} TextStays(value: Json, own: Owner)
    requires value.Str?
    ensures !Vanishes(value, Clean(value, own))
  {}

  // An entry that is reported is retained when nothing around it is dropped.
  lemma {:induction false} ReportedIsKept(value: Json, own: Owner, odd: Owner, e: Json)
    requires Unique(value) && e in MetKept(value, own) && (Mixed(e, own) || Odd(e, own, odd))
    ensures Clean(value, own).Keep? && Clean(e, own).Keep? && Clean(e, own).value in Inside(Clean(value, own).value)
    ensures Clean(value, own).value.Container? && Clean(value, own).value.items.Item?
    decreases value, 1
  {
    hide OwnsSome, OwnsAll, AnyOwned, AllOwned, Mixed, Odd, HooksGone;
    if e == value {
      ReportedIsSolid(e, own, odd);
    } else {
      OwnsIs(value.items, own);
      if value.kind.Arr? { ElementIsKept(value.items, own, odd, e); } else { FieldIsKept(value.items, own, odd, e); }
    }
  }

  lemma {:induction false} ElementIsKept(items: Items, own: Owner, odd: Owner, e: Json)
    requires UniqueItems(items, Arr) && e in MetKeptIn(items, own) && (Mixed(e, own) || Odd(e, own, odd))
    ensures Clean(e, own).Keep? && Clean(e, own).value in InsideOf(CleanElements(items, own)) && CleanElements(items, own).Item?
    decreases items, 0
  {
    hide Mixed, Odd, Clean, MetKept, Inside, Unique;
    if e in MetKept(items.value, own) {
      ReportedIsKept(items.value, own, odd, e);
    } else {
      ElementIsKept(items.rest, own, odd, e);
    }
  }

  lemma {:induction false} FieldIsKept(items: Items, own: Owner, odd: Owner, e: Json)
    requires UniqueItems(items, Obj) && e in MetKeptIn(items, own) && (Mixed(e, own) || Odd(e, own, odd))
    ensures Clean(e, own).Keep? && Clean(e, own).value in InsideOf(CleanFields(items, own)) && CleanFields(items, own).Item?
    decreases items, 0
  {
    hide Mixed, Odd, Clean, MetKept, Inside, Unique;
    if e in MetKept(items.value, own) {
      ReportedIsKept(items.value, own, odd, e);
    } else {
      FieldIsKept(items.rest, own, odd, e);
    }
  }

  ghost predicate SomeMixed(xs: seq<Json>, own: Owner) { exists e :: e in xs && Mixed(e, own) }

  ghost predicate SomeOdd(xs: seq<Json>, own: Owner, odd: Owner) { exists e :: e in xs && Odd(e, own, odd) }

  // Both lists have an entry of a kind or neither has.
  ghost predicate AsReported(before: seq<Json>, after: seq<Json>, own: Owner, odd: Owner) {
    && (SomeMixed(after, own) <==> SomeMixed(before, own))
    && (SomeOdd(after, own, odd) <==> SomeOdd(before, own, odd))
  }

  // So a report is true of the result exactly when nothing around one of the reported entries is dropped: where command
  // lists have no containers in them, a second run comes to an entry of either kind exactly then.
  lemma {:induction false} RetainedAreMet(value: Json, own: Owner, odd: Owner)
    requires Unique(value) && PlainCommands(value) && Clean(value, own).Keep?
    ensures AsReported(MetKept(value, own), Met(Clean(value, own).value, own), own, odd)
    decreases value, 1
  {
    hide AnyOwned, AllOwned, OwnsSome, OwnsAll, AsReported, HooksGone;
    if value.Container? && value.kind.Arr? {
      RetainedElements(value.items, own, odd);
      var after := Clean(value, own).value;
      HeadsAlike(value, MetKeptIn(value.items, own), after, MetIn(after.items, own), own, odd);
    } else if value.Container? && !OwnsSome(value.items, own) {
      OwnsIs(value.items, own);
      PlainStaysUnowned(value.items, own);
      OwnsIs(CleanFields(value.items, own), own);
      OddStays(value.items, own, odd);
      RetainedFields(value.items, own, odd);
      var after := Clean(value, own).value;
      HeadsAlike(value, MetKeptIn(value.items, own), after, MetIn(after.items, own), own, odd);
    } else {
      if value.Container? { OwnsIs(value.items, own); }
      assert Clean(value, own) == Keep(value);
      SameAsReported(MetKept(value, own), own, odd);
    }
  }

  lemma {:induction false} SameAsReported(xs: seq<Json>, own: Owner, odd: Owner)
    ensures AsReported(xs, xs, own, odd)
  {}

  lemma {:induction false} HeadsAlike(x: Json, xs: seq<Json>, y: Json, ys: seq<Json>, own: Owner, odd: Owner)
    requires AsReported(xs, ys, own, odd)
    requires (Mixed(x, own) <==> Mixed(y, own)) && (Odd(x, own, odd) <==> Odd(y, own, odd))
    ensures AsReported([x] + xs, [y] + ys, own, odd)
  {
    hide Mixed, Odd;
    SomeOf([x], xs, own, odd);
    SomeOf([y], ys, own, odd);
    assert x in [x] && y in [y];
  }

  lemma {:induction false} SomeOf(xs: seq<Json>, ys: seq<Json>, own: Owner, odd: Owner)
    ensures SomeMixed(xs + ys, own) <==> SomeMixed(xs, own) || SomeMixed(ys, own)
    ensures SomeOdd(xs + ys, own, odd) <==> SomeOdd(xs, own, odd) || SomeOdd(ys, own, odd)
  {
    hide Mixed, Odd;
    assert forall e :: e in xs + ys <==> e in xs || e in ys;
  }

  lemma {:induction false} BothAsReported(
    xs: seq<Json>, ys: seq<Json>, xs': seq<Json>, ys': seq<Json>, own: Owner, odd: Owner)
    requires AsReported(xs, xs', own, odd) && AsReported(ys, ys', own, odd)
    ensures AsReported(xs + ys, xs' + ys', own, odd)
  {
    hide SomeMixed, SomeOdd;
    SomeOf(xs, ys, own, odd);
    SomeOf(xs', ys', own, odd);
  }

  lemma {:induction false} NothingReported(xs: seq<Json>, own: Owner, odd: Owner)
    requires !SomeMixed(xs, own) && !SomeOdd(xs, own, odd)
    ensures AsReported(xs, [], own, odd)
  {}

  lemma {:induction false} RetainedElements(items: Items, own: Owner, odd: Owner)
    requires UniqueItems(items, Arr) && PlainItems(items)
    ensures AsReported(MetKeptIn(items, own), MetIn(CleanElements(items, own), own), own, odd)
    decreases items, 0
  {
    hide AsReported, Clean, Met, MetKept, Unique, PlainCommands, PlainCommand;
    if items.Nil? {
      SameAsReported([], own, odd);
    } else {
      RetainedElements(items.rest, own, odd);
      var met, rest := MetKept(items.value, own), MetKeptIn(items.rest, own);
      if Clean(items.value, own).Drop? {
        DroppedMeetsNone(items.value, own);
        assert met + rest == rest;
      } else {
        RetainedAreMet(items.value, own, odd);
        BothAsReported(met, rest, Met(Clean(items.value, own).value, own), MetIn(CleanElements(items.rest, own), own), own, odd);
      }
    }
  }

  lemma {:induction false} DroppedMeetsNone(value: Json, own: Owner)
    requires Clean(value, own).Drop?
    ensures MetKept(value, own) == []
  {}

  lemma {:induction false} RetainedFields(items: Items, own: Owner, odd: Owner)
    requires UniqueItems(items, Obj) && PlainItems(items)
    ensures AsReported(MetKeptIn(items, own), MetIn(CleanFields(items, own), own), own, odd)
    decreases items, 0
  {
    hide AsReported, Clean, Met, MetKept, Unique, PlainCommands, PlainCommand, Vanishes;
    if items.Nil? {
      SameAsReported([], own, odd);
    } else {
      RetainedFields(items.rest, own, odd);
      var met, rest, after := MetKept(items.value, own), MetKeptIn(items.rest, own), MetIn(CleanFields(items.rest, own), own);
      if Vanishes(items.value, Clean(items.value, own)) {
        VanishedMeetsNone(items.value, own, odd);
        NothingReported(met, own, odd);
        BothAsReported(met, rest, [], after, own, odd);
        assert [] + after == after;
      } else {
        KeptWhenThere(items.value, own);
        RetainedAreMet(items.value, own, odd);
        BothAsReported(met, rest, Met(Clean(items.value, own).value, own), after, own, odd);
      }
    }
  }

  lemma {:induction false} KeptWhenThere(value: Json, own: Owner)
    requires !Vanishes(value, Clean(value, own))
    ensures Clean(value, own).Keep?
  {}

  // What goes has nothing in it that is reported and kept.
  lemma {:induction false} VanishedMeetsNone(value: Json, own: Owner, odd: Owner)
    requires Unique(value) && Vanishes(value, Clean(value, own))
    ensures !SomeMixed(MetKept(value, own), own) && !SomeOdd(MetKept(value, own), own, odd)
  {
    hide Mixed, Odd, Clean, MetKept, Unique;
    forall e | e in MetKept(value, own) ensures !Mixed(e, own) && !Odd(e, own, odd) {
      if Mixed(e, own) || Odd(e, own, odd) { ReportedIsKept(value, own, odd, e); }
    }
  }

  // Without owned commands, an entry is odd exactly when what is left of it is.
  lemma {:induction false} OddStays(items: Items, own: Owner, odd: Owner)
    requires UniqueItems(items, Obj) && !OwnsSome(items, own) && !OwnsSome(CleanFields(items, own), own)
    ensures Odd(Container(Obj, items), own, odd) <==> Odd(Container(Obj, CleanFields(items, own)), own, odd)
  {
    hide OwnsSome, Ascii, Lookup, CleanFields, UniqueItems, Vanishes, Clean;
    forall k ensures ValueAt(items, k).Some? && ValueAt(items, k).value.Str? ==> ValueAt(CleanFields(items, own), k) == ValueAt(items, k)
      ensures var after := ValueAt(CleanFields(items, own), k);
        after.Some? && after.value.Str? ==> ValueAt(items, k) == after
    {
      LookupAfter(items, Ascii(k), own);
      if ValueAt(items, k).Some? {
        TextIsItself(ValueAt(items, k).value, own);
        if !Vanishes(ValueAt(items, k).value, Clean(ValueAt(items, k).value, own)) { KeptWhenThere(ValueAt(items, k).value, own); }
      }
    }
  }

  lemma {:induction false} TextIsItself(value: Json, own: Owner)
    ensures value.Str? ==> Clean(value, own) == Keep(value) && !Vanishes(value, Clean(value, own))
    ensures Clean(value, own).Keep? && Clean(value, own).value.Str? ==> Clean(value, own).value == value
  {
    hide HooksGone, AnyOwned, AllOwned;
  }

  lemma {:induction false} FieldOfTwo(k1: string, v1: Json, k2: string, v2: Json, k: string)
    requires k1 != k2
    ensures ValueAt(Item(Ascii(k1), v1, Item(Ascii(k2), v2, Nil)), k) == if k == k1 then Some(v1) else if k == k2 then Some(v2) else None
    ensures ValueAt(Item(Ascii(k2), v2, Nil), k) == if k == k2 then Some(v2) else None
  {
    hide Ascii;
    if Ascii(k) == Ascii(k1) { AsciiIsInjective(k, k1); }
    if Ascii(k) == Ascii(k2) { AsciiIsInjective(k, k2); }
    assert Lookup(Nil, Ascii(k)) == None;
    assert Lookup(Item(Ascii(k2), v2, Nil), Ascii(k)) == if k == k2 then Some(v2) else None;
  }

  lemma {:induction false} OwnedExample(x: Name, own: Owner)
    requires own(Str(x))
    ensures var items := Item(Ascii("command"), Str(x), Nil); OwnsSome(items, own) && OwnsAll(items, own)
  {
    hide Ascii, ValueAt;
    var items := Item(Ascii("command"), Str(x), Nil);
    forall k ensures ValueAt(items, k) == if k == "command" then Some(Str(x)) else None { FieldOfTwo("bash", Str(x), "command", Str(x), k); }
    assert "command" in COMMAND_KEYS;
  }

  lemma {:induction false} MixedExample(x: Name, y: Name, own: Owner)
    requires own(Str(x)) && !own(Str(y))
    ensures var items := Item(Ascii("command"), Str(x), Item(Ascii("bash"), Str(y), Nil)); OwnsSome(items, own) && !OwnsAll(items, own)
  {
    hide Ascii, ValueAt;
    var items := Item(Ascii("command"), Str(x), Item(Ascii("bash"), Str(y), Nil));
    FieldOfTwo("command", Str(x), "bash", Str(y), "command");
    FieldOfTwo("command", Str(x), "bash", Str(y), "bash");
    assert "command" in COMMAND_KEYS && "bash" in COMMAND_KEYS;
  }

  lemma {:induction false} NoCommands(list: Json, mixed: Json, own: Owner)
    ensures !OwnsSome(Item(Ascii("hooks"), list, Item(Ascii("extra"), mixed, Nil)), own)
  {
    hide Ascii, ValueAt, OwnCommand;
    var items := Item(Ascii("hooks"), list, Item(Ascii("extra"), mixed, Nil));
    assert "hooks" != "extra" && "hooks" !in COMMAND_KEYS && "extra" !in COMMAND_KEYS by { OtherKeys(); }
    forall k | k in COMMAND_KEYS ensures ValueAt(items, k) == None { FieldOfTwo("hooks", list, "extra", mixed, k); }
  }

  lemma {:induction false} OtherKeys()
    ensures "hooks" != "extra" && "hooks" !in COMMAND_KEYS && "extra" !in COMMAND_KEYS
  {
    assert "hooks"[0] != "extra"[0] && |"hooks"| == |"extra"| == 5;
  }

  // Nothing is left under hooks.
  lemma {:induction false} AfterHooks(list: Json, mixed: Json, own: Owner)
    requires Vanishes(list, Clean(list, own)) && Clean(mixed, own) == Keep(mixed) && !Vanishes(mixed, Keep(mixed))
    ensures ValueAt(CleanFields(Item(Ascii("hooks"), list, Item(Ascii("extra"), mixed, Nil)), own), "hooks") == None
    ensures ValueAt(Item(Ascii("hooks"), list, Item(Ascii("extra"), mixed, Nil)), "hooks") == Some(list)
  {
    hide Ascii, Clean, Vanishes;
    OtherKeys();
    FieldOfTwo("hooks", list, "extra", mixed, "hooks");
    assert CleanFields(Nil, own) == Nil;
    assert CleanFields(Item(Ascii("extra"), mixed, Nil), own) == Item(Ascii("extra"), mixed, Nil);
  }

  // It need not be otherwise: {"hooks": [{"command": x}], "extra": {"command": x, "bash": y}} is dropped, and the entry
  // under "extra" is reported as retained.
  lemma {:induction false} ReportedCanGo(x: Name, y: Name, odd: Owner)
    requires x != y
    ensures var own := (v: Json) => v == Str(x);
      var owned := Container(Obj, Item(Ascii("command"), Str(x), Nil));
      var mixed := Container(Obj, Item(Ascii("command"), Str(x), Item(Ascii("bash"), Str(y), Nil)));
      var value := Container(Obj, Item(Ascii("hooks"), Container(Arr, Item([], owned, Nil)), Item(Ascii("extra"), mixed, Nil)));
      Clean(value, own) == Drop && MixedCommands in Problems(value, own, odd)
  {
    hide Ascii, Commands, OwnsSome, OwnsAll, AnyOwned, AllOwned, Lookup;
    var own := (v: Json) => v == Str(x);
    var owned := Container(Obj, Item(Ascii("command"), Str(x), Nil));
    var fields := Item(Ascii("command"), Str(x), Item(Ascii("bash"), Str(y), Nil));
    var mixed := Container(Obj, fields);
    var list := Container(Arr, Item([], owned, Nil));
    var items := Item(Ascii("hooks"), list, Item(Ascii("extra"), mixed, Nil));
    OwnsIs(owned.items, own);
    OwnsIs(fields, own);
    OwnsIs(items, own);
    OwnedExample(x, own);
    MixedExample(x, y, own);
    NoCommands(list, mixed, own);
    assert Clean(owned, own) == Drop;
    assert CleanElements(Nil, own) == Nil;
    assert CleanElements(Item([], owned, Nil), own) == Nil;
    assert Clean(list, own) == Keep(Container(Arr, Nil));
    assert Clean(mixed, own) == Keep(mixed);
    AfterHooks(list, mixed, own);
    assert HooksGone(items, CleanFields(items, own));
    assert Problems(mixed, own, odd) == [MixedCommands];
    MixedIsReported(list, mixed, own, odd);
  }

  lemma {:induction false} MixedIsReported(list: Json, mixed: Json, own: Owner, odd: Owner)
    requires MixedCommands in Problems(mixed, own, odd)
    ensures MixedCommands in ProblemsOf(Item(Ascii("hooks"), list, Item(Ascii("extra"), mixed, Nil)), own, odd)
  {
    hide Ascii, Problems;
    assert MixedCommands in ProblemsOf(Item(Ascii("extra"), mixed, Nil), own, odd);
  }
}
