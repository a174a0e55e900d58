/** What cleaning does to a value, read off the value itself: when it is dropped, and when a second run is idle. */
module Conditions {
  import opened Syntax
  import opened Options
  import opened Values
  import opened Pruning
  import opened Hooks

  /* ---- what is dropped ---- */

  // An object with command fields all of which are owned, or one with no owned command field and a non-empty
  // hooks list every element of which goes.
  predicate Goes(value: Json, own: Owner) {
    value.Container? && value.kind.Obj? && if AnyOwned(value.items, own) then AllOwned(value.items, own) else HooksGo(value.items, own)
  }

  // The first field called hooks is such a list.
  predicate HooksGo(items: Items, own: Owner) {
    match items
    case Nil => false
    case Item(name, value, rest) =>
      if name == Ascii("hooks") then value.Container? && value.kind.Arr? && value.items.Item? && AllGo(value.items, own)
      else HooksGo(rest, own)
  }

  predicate AllGo(items: Items, own: Owner) {
    items.Item? ==> Goes(items.value, own) && AllGo(items.rest, own)
  }

  // A field's value after which the field goes: it goes itself, or is a non-empty container nothing is left of.
  predicate Fades(value: Json, own: Owner) {
    || Goes(value, own)
    || (value.Container? && value.items.Item?
        && if value.kind.Arr? then AllGo(value.items, own) else !AnyOwned(value.items, own) && AllFade(value.items, own))
  }

  predicate AllFade(items: Items, own: Owner) {
    items.Item? ==> Fades(items.value, own) && AllFade(items.rest, own)
  }

  lemma {:induction false} LookupAfter(items: Items, name: Name, own: Owner)
    requires UniqueItems(items, Obj)
    ensures Lookup(CleanFields(items, own), name) ==
            var found := Lookup(items, name);
            if found.Some? && !Vanishes(found.value, Clean(found.value, own)) then Some(Clean(found.value, own).value) else None
  {
    hide Clean, Unique, AnyOwned, AllOwned;
    if items.Item? {
      LookupAfter(items.rest, name, own);
      if items.name == name { NotAfterCleaning(items.rest, name, own); }
    }
  }

  lemma {:induction false} HooksGoIs(items: Items, own: Owner)
    ensures HooksGo(items, own) <==>
      var hooks := Lookup(items, Ascii("hooks"));
      hooks.Some? && hooks.value.Container? && hooks.value.kind.Arr? && hooks.value.items.Item? && AllGo(hooks.value.items, own)
  {
    hide AllGo, Ascii;
    if items.Item? { HooksGoIs(items.rest, own); }
  }

  lemma {:induction false} LookupIsUnique(items: Items, name: Name)
    requires UniqueItems(items, Obj) && Lookup(items, name).Some?
    ensures Unique(Lookup(items, name).value) && Lookup(items, name).value < items
  {
    hide Unique;
    if items.name != name { LookupIsUnique(items.rest, name); }
  }

  // A value is dropped exactly when it goes.
  lemma {:induction false} GoesIsDropped(value: Json, own: Owner)
    requires Unique(value)
    ensures Clean(value, own).Drop? <==> Goes(value, own)
    decreases value, 1
  {
    hide AnyOwned, AllOwned, Ascii, AllGo, HooksGo;
    if value.Container? && value.kind.Obj? && !AnyOwned(value.items, own) {
      HooksGoIs(value.items, own);
      LookupAfter(value.items, Ascii("hooks"), own);
      var hooks := Lookup(value.items, Ascii("hooks"));
      if hooks.Some? && hooks.value.Container? && hooks.value.kind.Arr? {
        LookupIsUnique(value.items, Ascii("hooks"));
        AllGoIsNil(hooks.value.items, own);
      }
    }
  }

  lemma {:induction false} AllGoIsNil(items: Items, own: Owner)
    requires UniqueItems(items, Arr)
    ensures CleanElements(items, own).Nil? <==> AllGo(items, own)
    decreases items, 0
  {
    hide Clean, Goes, Unique;
    if items.Item? {
      GoesIsDropped(items.value, own);
      AllGoIsNil(items.rest, own);
    }
  }

  // A field goes exactly when its value fades.
  lemma {:induction false} FadesIsVanished(value: Json, own: Owner)
    requires Unique(value)
    ensures Vanishes(value, Clean(value, own)) <==> Fades(value, own)
    decreases value, 1
  {
    hide AnyOwned, AllOwned, AllGo, Goes, HooksGone, AllFade;
    GoesIsDropped(value, own);
    if value.Container? {
      if value.kind.Arr? { AllGoIsNil(value.items, own); } else { AllFadeIsNil(value.items, own); }
    }
  }

  lemma {:induction false} AllFadeIsNil(items: Items, own: Owner)
    requires UniqueItems(items, Obj)
    ensures CleanFields(items, own).Nil? <==> AllFade(items, own)
    decreases items, 0
  {
    hide Clean, Fades, Unique, Vanishes;
    if items.Item? {
      FadesIsVanished(items.value, own);
      AllFadeIsNil(items.rest, own);
    }
  }

  /* ---- when a second run is idle ---- */

  // The elements that do not go.
  function Staying(items: Items, own: Owner): Items {
    match items
    case Nil => Nil
    case Item(name, value, rest) => if Goes(value, own) then Staying(rest, own) else Item(name, value, Staying(rest, own))
  }

  // A command that cleaning makes owned: a list that is owned once the elements that go are left out.
  predicate TurnsOwned(command: Json, own: Owner) {
    && command.Container? && command.kind.Arr? && !Fades(command, own)
    && Owned(own, Container(Arr, Staying(command.items, own)))
  }

  predicate SomeTurn(items: Items, own: Owner) { exists c :: c in Commands(items) && TurnsOwned(c, own) }

  predicate EachTurns(items: Items, own: Owner) { forall c :: c in Commands(items) ==> Fades(c, own) || TurnsOwned(c, own) }

  // An object is unsettled when none of its command fields is owned, one of them stays, and all that stay turn
  // owned. A value stays clean when neither it nor anything that stays in it is unsettled, but for what lies in an
  // object that has, or comes to have, both owned and other commands.
  predicate StaysClean(value: Json, own: Owner) {
    value.Container? ==>
      if value.kind.Arr? then StayClean(value.items, own, false)
      else
        || AnyOwned(value.items, own)
        || HooksGo(value.items, own)
        || (if SomeTurn(value.items, own) then !EachTurns(value.items, own) else StayClean(value.items, own, true))
  }

  // Every value among the items goes, or fades where the items are fields, or stays clean.
  predicate StayClean(items: Items, own: Owner, fields: bool) {
    items.Item? ==>
      && (Goes(items.value, own) || (fields && Fades(items.value, own)) || StaysClean(items.value, own))
      && StayClean(items.rest, own, fields)
  }

  lemma {:induction false} StayingIsCleaned(items: Items, own: Owner)
    requires UniqueItems(items, Arr)
    ensures AllTexts(CleanElements(items, own)) <==> AllTexts(Staying(items, own))
    ensures AllTexts(Staying(items, own)) ==> CleanElements(items, own) == Staying(items, own)
  {
    hide Goes, HooksGone, AnyOwned, AllOwned;
    if items.Item? {
      GoesIsDropped(items.value, own);
      StayingIsCleaned(items.rest, own);
    }
  }

  // A command that is not owned becomes owned exactly when it turns.
  lemma {:induction false} TurnsIsOwned(command: Json, own: Owner)
    requires Unique(command) && !Owned(own, command) && !Fades(command, own)
    ensures Clean(command, own).Keep?
    ensures Owned(own, Clean(command, own).value) <==> TurnsOwned(command, own)
  {
    hide Goes, AnyOwned, AllOwned, HooksGone, AllTexts;
    FadesIsVanished(command, own);
    if command.Container? && command.kind.Arr? { StayingIsCleaned(command.items, own); }
  }

  lemma {:induction false} CommandsAre(items: Items)
    ensures forall c :: c in Commands(items) <==>
      c in OneCommand(items, "command") || c in OneCommand(items, "bash") || c in OneCommand(items, "powershell")
  {
    hide OneCommand;
  }

  // What cleaning makes of one command field.
  lemma {:induction false} CommandAfter(items: Items, key: string, own: Owner)
    requires UniqueItems(items, Obj)
    requires forall c :: c in OneCommand(items, key) ==> !Owned(own, c)
    ensures forall c :: c in OneCommand(items, key) && !Fades(c, own) ==>
      Clean(c, own).Keep? && OneCommand(CleanFields(items, own), key) == [Clean(c, own).value]
      && (Owned(own, Clean(c, own).value) <==> TurnsOwned(c, own))
    ensures (forall c :: c in OneCommand(items, key) ==> Fades(c, own)) ==> OneCommand(CleanFields(items, own), key) == []
  {
    hide Owned, Fades, TurnsOwned, Ascii, CleanFields, Clean, Vanishes;
    var found := Lookup(items, Ascii(key));
    LookupAfter(items, Ascii(key), own);
    if found.Some? {
      assert found.value in OneCommand(items, key);
      LookupIsUnique(items, Ascii(key));
      FadesIsVanished(found.value, own);
      if !Fades(found.value, own) { TurnsIsOwned(found.value, own); }
    }
  }

  lemma {:induction false} OwnedIn(items: Items, own: Owner)
    ensures AnyOwned(items, own) <==> exists c :: c in Commands(items) && Owned(own, c)
    ensures AllOwned(items, own) <==> forall c :: c in Commands(items) ==> Owned(own, c)
  {
    hide Owned, Commands;
  }

  // The command fields after cleaning: some turn, and all that stay turn.
  lemma {:induction false} OwnedAfter(items: Items, own: Owner)
    requires UniqueItems(items, Obj) && !AnyOwned(items, own)
    ensures AnyOwned(CleanFields(items, own), own) <==> SomeTurn(items, own)
    ensures SomeTurn(items, own) ==> (AllOwned(CleanFields(items, own), own) <==> EachTurns(items, own))
  {
    hide Owned, Fades, TurnsOwned, CleanFields, Clean, AnyOwned, AllOwned, Commands, OneCommand;
    OwnedIn(items, own);
    OwnedIn(CleanFields(items, own), own);
    CommandsAre(items);
    CommandsAre(CleanFields(items, own));
    CommandAfter(items, "command", own);
    CommandAfter(items, "bash", own);
    CommandAfter(items, "powershell", own);
    assert forall c :: TurnsOwned(c, own) ==> !Fades(c, own) by { TurningStays(own); }
  }

  lemma {:induction false} TurningStays(own: Owner)
    ensures forall c :: TurnsOwned(c, own) ==> !Fades(c, own)
  {
    hide Fades, Owned;
  }

  lemma {:induction false} StaysCleanIsSettled(value: Json, own: Owner)
    requires Unique(value)
    ensures Settled(value, own) <==> StaysClean(value, own)
    decreases value, 1
  {
    hide AnyOwned, AllOwned, SomeTurn, EachTurns, HooksGone, HooksGo;
    if value.Container? {
      if value.kind.Arr? {
        ElementsStayClean(value.items, own);
      } else if !AnyOwned(value.items, own) {
        GoesIsDropped(value, own);
        OwnedAfter(value.items, own);
        FieldsStayClean(value.items, own);
      }
    }
  }

  lemma {:induction false} ElementsStayClean(items: Items, own: Owner)
    requires UniqueItems(items, Arr)
    ensures SettledElements(items, own) <==> StayClean(items, own, false)
    decreases items, 0
  {
    hide Clean, Settled, StaysClean, Goes, Fades, Unique;
    if items.Item? {
      GoesIsDropped(items.value, own);
      StaysCleanIsSettled(items.value, own);
      ElementsStayClean(items.rest, own);
    }
  }

  lemma {:induction false} FieldsStayClean(items: Items, own: Owner)
    requires UniqueItems(items, Obj)
    ensures SettledFields(items, own) <==> StayClean(items, own, true)
    decreases items, 0
  {
    hide Clean, Settled, StaysClean, Unique, Vanishes, AnyOwned, AllOwned, AllGo, AllFade, HooksGo;
    if items.Item? {
      FadesIsVanished(items.value, own);
      StaysCleanIsSettled(items.value, own);
      FieldsStayClean(items.rest, own);
    }
  }

  // A second run removes nothing exactly when the value stays clean.
  lemma {:induction false} SecondRunIsIdle(value: Json, path: Path, own: Owner)
    requires Unique(value) && !Goes(value, own)
    ensures Clean(value, own).Keep?
    ensures Removed(Clean(value, own).value, path, own) == {} <==> StaysClean(value, own)
    ensures StaysClean(value, own) ==> Clean(Clean(value, own).value, own) == Clean(value, own)
  {
    hide Clean, Goes, Settled, StaysClean, Removed;
    GoesIsDropped(value, own);
    CleanTwice(value, path, own);
    StaysCleanIsSettled(value, own);
  }
}
