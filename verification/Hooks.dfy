/** clean_hooks: which hook entries are removed, and why the removals it records are the ones it makes. */
module Hooks {
  import opened Lexical
  import opened Syntax
  import opened Options
  import opened Values
  import opened Pruning

  function Ascii(s: string): Name { seq(|s|, i requires 0 <= i < |s| => s[i] as int) }

  function Lookup(items: Items, name: Name): Option<Json> {
    match items
    case Nil => None
    case Item(n, value, rest) => if n == name then Some(value) else Lookup(rest, name)
  }

  // Whether a command value is one of the tool's own launch forms. Shell tokenising is not modelled: the
  // predicate is a parameter, of which only the shape test is fixed (a text, or a non-empty list of texts).
  type Owner = Json -> bool

  predicate AllTexts(items: Items) { items.Item? ==> items.value.Str? && AllTexts(items.rest) }

  predicate Owned(own: Owner, command: Json) {
    (command.Str? || (command.Container? && command.kind.Arr? && command.items.Item? && AllTexts(command.items))) && own(command)
  }

  function OneCommand(items: Items, key: string): seq<Json> {
    var found := Lookup(items, Ascii(key));
    if found.Some? then [found.value] else []
  }

  // The command fields of an object that are present.
  function Commands(items: Items): seq<Json> {
    OneCommand(items, "command") + OneCommand(items, "bash") + OneCommand(items, "powershell")
  }

  predicate AnyOwned(items: Items, own: Owner) {
    exists i :: 0 <= i < |Commands(items)| && Owned(own, Commands(items)[i])
  }

  predicate AllOwned(items: Items, own: Owner) {
    forall i :: 0 <= i < |Commands(items)| ==> Owned(own, Commands(items)[i])
  }

  /* ---- the result ---- */

  // What cleaning makes of a value; Drop asks the caller to leave the value out.
  datatype Cleaned = Drop | Keep(value: Json)

  // A field goes when its value is dropped or is a container that cleaning emptied.
  predicate Vanishes(before: Json, after: Cleaned) {
    after.Drop?
    || (before.Container? && before.items.Item? && after.value.Container? && after.value.items.Nil?)
  }

  // A non-empty hooks list that did not survive takes its owner with it.
  predicate HooksGone(before: Items, after: Items) {
    var hooks := Lookup(before, Ascii("hooks"));
    && hooks.Some? && hooks.value.Container? && hooks.value.kind.Arr? && hooks.value.items.Item?
    && Lookup(after, Ascii("hooks")).None?
  }

  function Clean(value: Json, own: Owner): Cleaned {
    match value
    case Container(kind, items) =>
      if kind.Arr? then Keep(Container(Arr, CleanElements(items, own)))
      else if AnyOwned(items, own) then (if AllOwned(items, own) then Drop else Keep(value))
      else
        var result := CleanFields(items, own);
        if HooksGone(items, result) then Drop else Keep(Container(Obj, result))
    case _ => Keep(value)
  }

  function CleanElements(items: Items, own: Owner): Items {
    match items
    case Nil => Nil
    case Item(name, value, rest) =>
      var cleaned := Clean(value, own);
      if cleaned.Drop? then CleanElements(rest, own) else Item(name, cleaned.value, CleanElements(rest, own))
  }

  function CleanFields(items: Items, own: Owner): Items {
    match items
    case Nil => Nil
    case Item(name, value, rest) =>
      var cleaned := Clean(value, own);
      if Vanishes(value, cleaned) then CleanFields(rest, own) else Item(name, cleaned.value, CleanFields(rest, own))
  }

  /* ---- the recorded removals ---- */

  function Removed(value: Json, path: Path, own: Owner): set<Path> {
    match value
    case Container(kind, items) =>
      if kind.Arr? then RemovedElements(items, 0, path, own)
      else if AnyOwned(items, own) then (if AllOwned(items, own) then {path} else {})
      else RemovedFields(items, path, own) + (if HooksGone(items, CleanFields(items, own)) then {path} else {})
    case _ => {}
  }

  function RemovedElements(items: Items, idx: nat, path: Path, own: Owner): set<Path> {
    match items
    case Nil => {}
    case Item(_, value, rest) =>
      Removed(value, path + [Index(idx)], own) + RemovedElements(rest, idx + 1, path, own)
  }

  function RemovedFields(items: Items, path: Path, own: Owner): set<Path> {
    match items
    case Nil => {}
    case Item(name, value, rest) =>
      var p := path + [Named(name)];
      Removed(value, p, own) + (if Vanishes(value, Clean(value, own)) then {p} else {}) + RemovedFields(rest, path, own)
  }

  /* ---- cleaning is pruning at the recorded paths ---- */

  // Two sets of paths hold the same paths strictly below a path.
  ghost predicate AlikeBelow(a: set<Path>, b: set<Path>, path: Path) {
    forall q :: path < q ==> (q in a <==> q in b)
  }

  lemma {:induction false} PruneLocal(value: Json, path: Path, a: set<Path>, b: set<Path>)
    requires AlikeBelow(a, b, path)
    ensures Prune(value, path, a) == Prune(value, path, b)
  {
    if value.Container? { PruneItemsLocal(value.items, value.kind, 0, path, a, b); }
  }

  lemma {:induction false} PruneItemsLocal(items: Items, kind: Kind, idx: nat, path: Path, a: set<Path>, b: set<Path>)
    requires AlikeBelow(a, b, path)
    ensures PruneItems(items, kind, idx, path, a) == PruneItems(items, kind, idx, path, b)
  {
    if items.Item? {
      var p := path + [KeyOf(kind, items.name, idx)];
      assert path < p;
      forall q | p < q ensures q in a <==> q in b { assert path < q; }
      PruneLocal(items.value, p, a, b);
      PruneItemsLocal(items.rest, kind, idx + 1, path, a, b);
    }
  }

  // Every recorded path starts with the path of the value it was recorded for; the path itself is recorded
  // exactly when the value is dropped.
  lemma {:induction false} RemovedBelow(value: Json, path: Path, own: Owner)
    ensures forall q :: q in Removed(value, path, own) ==> path <= q
    ensures path in Removed(value, path, own) <==> Clean(value, own).Drop?
  {
    hide AnyOwned, AllOwned, HooksGone, Vanishes;
    if value.Container? {
      RemovedElementsBelow(value.items, 0, path, own);
      RemovedFieldsBelow(value.items, path, own);
    }
  }

  lemma {:induction false} RemovedElementsBelow(items: Items, idx: nat, path: Path, own: Owner)
    ensures forall q :: q in RemovedElements(items, idx, path, own) ==>
      path < q && exists i :: idx <= i && q[|path|] == Index(i)
  {
    hide AnyOwned, AllOwned, HooksGone, Vanishes, Removed;
    if items.Item? {
      RemovedBelow(items.value, path + [Index(idx)], own);
      RemovedElementsBelow(items.rest, idx + 1, path, own);
    }
  }

  lemma {:induction false} RemovedFieldsBelow(items: Items, path: Path, own: Owner)
    ensures forall q :: q in RemovedFields(items, path, own) ==>
      path < q && q[|path|].Named? && HasName(items, q[|path|].name)
  {
    hide AnyOwned, AllOwned, HooksGone, Vanishes, Removed;
    if items.Item? {
      RemovedBelow(items.value, path + [Named(items.name)], own);
      RemovedFieldsBelow(items.rest, path, own);
    }
  }

  lemma {:induction false} PruneNothing(value: Json, path: Path, removed: set<Path>)
    requires AlikeBelow(removed, {}, path)
    ensures Prune(value, path, removed) == value
  {
    if value.Container? { PruneNoItems(value.items, value.kind, 0, path, removed); }
  }

  lemma {:induction false} PruneNoItems(items: Items, kind: Kind, idx: nat, path: Path, removed: set<Path>)
    requires AlikeBelow(removed, {}, path)
    ensures PruneItems(items, kind, idx, path, removed) == items
  {
    if items.Item? {
      var p := path + [KeyOf(kind, items.name, idx)];
      assert path < p;
      forall q | p < q ensures q !in removed { assert path < q; }
      PruneNothing(items.value, p, removed);
      PruneNoItems(items.rest, kind, idx + 1, path, removed);
    }
  }

  // The paths that go through an element at idx or later, or through a field of items.
  predicate ThroughElement(q: Path, path: Path, idx: nat) { path < q && q[|path|].Index? && q[|path|].i >= idx }

  predicate ThroughField(q: Path, path: Path, items: Items) {
    path < q && q[|path|].Named? && HasName(items, q[|path|].name)
  }

  lemma {:induction false} FirstElement(items: Items, idx: nat, path: Path, own: Owner, q: Path)
    requires items.Item? && path + [Index(idx)] <= q
    ensures q in RemovedElements(items, idx, path, own) <==> q in Removed(items.value, path + [Index(idx)], own)
  {
    hide Removed;
    RemovedElementsBelow(items.rest, idx + 1, path, own);
    assert q[|path|] == Index(idx);
  }

  lemma {:induction false} LaterElement(items: Items, idx: nat, path: Path, own: Owner, q: Path)
    requires items.Item? && ThroughElement(q, path, idx + 1)
    ensures q in RemovedElements(items, idx, path, own) <==> q in RemovedElements(items.rest, idx + 1, path, own)
  {
    hide Removed;
    RemovedBelow(items.value, path + [Index(idx)], own);
    assert !(path + [Index(idx)] <= q);
  }

  lemma {:induction false} FirstField(items: Items, path: Path, own: Owner, q: Path)
    requires items.Item? && !HasName(items.rest, items.name) && path + [Named(items.name)] <= q
    ensures q in RemovedFields(items, path, own) <==>
      q in Removed(items.value, path + [Named(items.name)], own)
      || (q == path + [Named(items.name)] && Vanishes(items.value, Clean(items.value, own)))
  {
    hide Removed, Vanishes;
    RemovedFieldsBelow(items.rest, path, own);
    assert q[|path|] == Named(items.name);
  }

  lemma {:induction false} LaterField(items: Items, path: Path, own: Owner, q: Path)
    requires items.Item? && !HasName(items.rest, items.name) && ThroughField(q, path, items.rest)
    ensures q in RemovedFields(items, path, own) <==> q in RemovedFields(items.rest, path, own)
  {
    hide Removed, Vanishes;
    RemovedBelow(items.value, path + [Named(items.name)], own);
    assert !(path + [Named(items.name)] <= q);
  }

  // What is kept of a value is the value pruned at the recorded paths, whatever else is in the set.
  lemma {:induction false} CleanPrunes(value: Json, path: Path, own: Owner, removed: set<Path>)
    requires Unique(value) && Clean(value, own).Keep?
    requires AlikeBelow(removed, Removed(value, path, own), path)
    ensures Prune(value, path, removed) == Clean(value, own).value
    decreases value, 1
  {
    hide AnyOwned, AllOwned, HooksGone, Vanishes;
    if value.Container? {
      if value.kind.Arr? {
        CleanElementsPrune(value.items, 0, path, own, removed);
      } else if AnyOwned(value.items, own) {
        PruneNothing(value, path, removed);
      } else {
        CleanFieldsPrune(value.items, 0, path, own, removed);
      }
    }
  }

  lemma {:induction false} CleanElementsPrune(items: Items, idx: nat, path: Path, own: Owner, removed: set<Path>)
    requires UniqueItems(items, Arr)
    requires forall q :: ThroughElement(q, path, idx) ==> (q in removed <==> q in RemovedElements(items, idx, path, own))
    ensures PruneItems(items, Arr, idx, path, removed) == CleanElements(items, own)
    decreases items, 0
  {
    hide AnyOwned, AllOwned, HooksGone, Vanishes, Removed, Clean;
    if items.Item? {
      var p := path + [Index(idx)];
      forall q | p <= q ensures q in removed <==> q in Removed(items.value, p, own) {
        assert ThroughElement(q, path, idx);
        FirstElement(items, idx, path, own, q);
      }
      assert p <= p;
      RemovedBelow(items.value, p, own);
      if Clean(items.value, own).Keep? { CleanPrunes(items.value, p, own, removed); }
      forall q | ThroughElement(q, path, idx + 1)
        ensures q in removed <==> q in RemovedElements(items.rest, idx + 1, path, own)
      {
        assert ThroughElement(q, path, idx);
        LaterElement(items, idx, path, own, q);
      }
      CleanElementsPrune(items.rest, idx + 1, path, own, removed);
    }
  }

  lemma {:induction false} CleanFieldsPrune(items: Items, idx: nat, path: Path, own: Owner, removed: set<Path>)
    requires UniqueItems(items, Obj)
    requires forall q :: ThroughField(q, path, items) ==> (q in removed <==> q in RemovedFields(items, path, own))
    ensures PruneItems(items, Obj, idx, path, removed) == CleanFields(items, own)
    decreases items, 0
  {
    hide AnyOwned, AllOwned, HooksGone, Removed, Clean, RemovedFields;
    if items.Item? {
      var p := path + [Named(items.name)];
      forall q | p <= q ensures q in removed <==>
        q in Removed(items.value, p, own) || (q == p && Vanishes(items.value, Clean(items.value, own)))
      {
        assert q[|path|] == Named(items.name);
        assert ThroughField(q, path, items);
        FirstField(items, path, own, q);
      }
      assert p <= p;
      RemovedBelow(items.value, p, own);
      if Clean(items.value, own).Keep? { CleanPrunes(items.value, p, own, removed); }
      forall q | ThroughField(q, path, items.rest) ensures q in removed <==> q in RemovedFields(items.rest, path, own) {
        assert ThroughField(q, path, items);
        LaterField(items, path, own, q);
      }
      CleanFieldsPrune(items.rest, idx + 1, path, own, removed);
    }
  }

  /* ---- what is removed, and why ---- */

  // The value at a path below a value.
  function At(value: Json, path: Path): Option<Json>
    decreases |path|
  {
    if path == [] then Some(value)
    else if !value.Container? then None
    else
      var next := ItemAt(value.items, value.kind, 0, path[0]);
      if next.Some? then At(next.value, path[1..]) else None
  }

  function ItemAt(items: Items, kind: Kind, idx: nat, key: Key): Option<Json> {
    match items
    case Nil => None
    case Item(name, value, rest) =>
      if KeyOf(kind, name, idx) == key then Some(value) else ItemAt(rest, kind, idx + 1, key)
  }

  // An entry all of whose commands are owned, a non-empty container that cleaning emptied, or an entry whose
  // non-empty hooks list went.
  predicate Removable(value: Json, own: Owner) {
    value.Container? && value.items.Item? &&
    (|| (value.kind.Obj? && Commands(value.items) != [] && AllOwned(value.items, own))
     || (Clean(value, own).Keep? && Clean(value, own).value.Container? && Clean(value, own).value.items.Nil?)
     || (value.kind.Obj? && !AnyOwned(value.items, own) && HooksGone(value.items, CleanFields(value.items, own))))
  }

  // Only such values are removed: every recorded path leads to one.
  lemma {:induction false} RemovalsAreJustified(value: Json, path: Path, own: Owner, q: Path)
    requires Unique(value) && q in Removed(value, path, own)
    ensures path <= q && At(value, q[|path|..]).Some? && Removable(At(value, q[|path|..]).value, own)
    decreases value, 1
  {
    hide AnyOwned, AllOwned, HooksGone, Removable;
    RemovedBelow(value, path, own);
    if q == path {
      DropIsRemovable(value, own);
    } else if value.kind.Arr? {
      ElementRemovalsAreJustified(value.items, 0, path, own, q);
    } else {
      FieldRemovalsAreJustified(value.items, 0, path, own, q);
    }
  }

  lemma {:induction false} DropIsRemovable(value: Json, own: Owner)
    requires Clean(value, own).Drop?
    ensures Removable(value, own)
  {}

  lemma {:induction false} StepDown(path: Path, key: Key, q: Path)
    requires path + [key] <= q
    ensures q[|path|] == key && q[|path|..] != [] && q[|path|..][0] == key && q[|path|..][1..] == q[|path + [key]|..]
  {}

  lemma {:induction false} ElementRemovalsAreJustified(items: Items, idx: nat, path: Path, own: Owner, q: Path)
    requires UniqueItems(items, Arr) && q in RemovedElements(items, idx, path, own)
    ensures path < q && var next := ItemAt(items, Arr, idx, q[|path|]);
      next.Some? && At(next.value, q[|path|..][1..]).Some? && Removable(At(next.value, q[|path|..][1..]).value, own)
    decreases items, 0
  {
    hide AnyOwned, AllOwned, HooksGone, Removable, Removed, At;
    var p := path + [Index(idx)];
    if q in Removed(items.value, p, own) {
      RemovalsAreJustified(items.value, p, own, q);
      StepDown(path, Index(idx), q);
    } else {
      ElementRemovalsAreJustified(items.rest, idx + 1, path, own, q);
      RemovedElementsBelow(items.rest, idx + 1, path, own);
    }
  }

  lemma {:induction false} FieldRemovalsAreJustified(items: Items, idx: nat, path: Path, own: Owner, q: Path)
    requires UniqueItems(items, Obj) && q in RemovedFields(items, path, own)
    ensures path < q && var next := ItemAt(items, Obj, idx, q[|path|]);
      next.Some? && At(next.value, q[|path|..][1..]).Some? && Removable(At(next.value, q[|path|..][1..]).value, own)
    decreases items, 0
  {
    hide AnyOwned, AllOwned, HooksGone, Removable, Removed;
    var p := path + [Named(items.name)];
    if q in Removed(items.value, p, own) {
      RemovalsAreJustified(items.value, p, own, q);
      StepDown(path, Named(items.name), q);
    } else if q == p {
      StepDown(path, Named(items.name), q);
      RemovedFieldsBelow(items.rest, path, own);
      VanishedIsRemovable(items.value, own);
    } else {
      FieldRemovalsAreJustified(items.rest, idx + 1, path, own, q);
      RemovedFieldsBelow(items.rest, path, own);
    }
  }

  lemma {:induction false} VanishedIsRemovable(value: Json, own: Owner)
    requires Vanishes(value, Clean(value, own))
    ensures Removable(value, own)
  {}

  /* ---- cleaning twice ---- */

  // No object that cleaning keeps ends up with nothing but owned commands.
  predicate Settled(value: Json, own: Owner) {
    value.Container? ==>
      if value.kind.Arr? then SettledElements(value.items, own)
      else if AnyOwned(value.items, own) then true
      else
        var result := CleanFields(value.items, own);
        || HooksGone(value.items, result)
        || (if AnyOwned(result, own) then !AllOwned(result, own) else SettledFields(value.items, own))
  }

  predicate SettledElements(items: Items, own: Owner) {
    items.Item? ==> (Clean(items.value, own).Keep? ==> Settled(items.value, own)) && SettledElements(items.rest, own)
  }

  predicate SettledFields(items: Items, own: Owner) {
    items.Item? ==>
      (!Vanishes(items.value, Clean(items.value, own)) ==> Settled(items.value, own)) && SettledFields(items.rest, own)
  }

  // A second run removes nothing exactly when the first one left things settled, and then changes nothing.
  lemma {:induction false} CleanTwice(value: Json, path: Path, own: Owner)
    requires Clean(value, own).Keep?
    ensures var kept := Clean(value, own).value;
      && (Removed(kept, path, own) == {} <==> Settled(value, own))
      && (Settled(value, own) ==> Clean(kept, own) == Keep(kept))
    decreases value, 1
  {
    if value.Container? {
      if value.kind.Arr? {
        CleanElementsTwice(value.items, 0, path, own);
      } else if !AnyOwned(value.items, own) {
        CleanObjectTwice(value, path, own);
      }
    }
  }

  lemma {:induction false} CleanElementsTwice(items: Items, idx: nat, path: Path, own: Owner)
    ensures var kept := CleanElements(items, own);
      && (RemovedElements(kept, idx, path, own) == {} <==> SettledElements(items, own))
      && (SettledElements(items, own) ==> CleanElements(kept, own) == kept)
    decreases items, 0
  {
    hide AnyOwned, AllOwned, HooksGone, Clean, Removed, Settled;
    if items.Item? {
      if Clean(items.value, own).Drop? {
        CleanElementsTwice(items.rest, idx, path, own);
      } else {
        CleanTwice(items.value, path + [Index(idx)], own);
        CleanElementsTwice(items.rest, idx + 1, path, own);
      }
    }
  }

  lemma {:induction false} CleanFieldsTwice(items: Items, path: Path, own: Owner)
    ensures var kept := CleanFields(items, own);
      && (RemovedFields(kept, path, own) == {} <==> SettledFields(items, own))
      && (SettledFields(items, own) ==> CleanFields(kept, own) == kept)
    decreases items, 0
  {
    hide AnyOwned, AllOwned, HooksGone, Clean, Removed, Settled;
    if items.Item? {
      CleanFieldsTwice(items.rest, path, own);
      if !Vanishes(items.value, Clean(items.value, own)) {
        CleanTwice(items.value, path + [Named(items.name)], own);
      }
    }
  }

  lemma {:induction false} CleanObjectTwice(value: Json, path: Path, own: Owner)
    requires value.Container? && value.kind.Obj? && Clean(value, own).Keep? && !AnyOwned(value.items, own)
    ensures var kept := Clean(value, own).value;
      && (Removed(kept, path, own) == {} <==> Settled(value, own))
      && (Settled(value, own) ==> Clean(kept, own) == Keep(kept))
    decreases value, 0
  {
    hide AnyOwned, AllOwned, CleanFields, RemovedFields, SettledFields, RemovedElements;
    CleanFieldsTwice(value.items, path, own);
  }

  // Command lists without containers in them: what setup writes.
  predicate PlainCommand(command: Json) {
    command.Container? && command.kind.Arr? ==> PlainElements(command.items)
  }

  predicate PlainElements(items: Items) {
    items.Item? ==> !items.value.Container? && PlainElements(items.rest)
  }

  predicate PlainCommands(value: Json) {
    value.Container? ==> PlainItems(value.items)
  }

  predicate PlainItems(items: Items) {
    items.Item? ==>
      && (items.name == Ascii("command") || items.name == Ascii("bash") || items.name == Ascii("powershell")
          ==> PlainCommand(items.value))
      && PlainCommands(items.value) && PlainItems(items.rest)
  }

  lemma {:induction false} PlainElementsStay(items: Items, own: Owner)
    requires PlainElements(items)
    ensures CleanElements(items, own) == items
  {
    if items.Item? { PlainElementsStay(items.rest, own); }
  }

  // Cleaning does not make a plain command owned.
  lemma {:induction false} PlainCommandStays(command: Json, own: Owner)
    requires PlainCommand(command) && Clean(command, own).Keep? && !Owned(own, command)
    ensures !Owned(own, Clean(command, own).value)
  {
    hide AnyOwned, AllOwned, HooksGone;
    if command.Container? && command.kind.Arr? { PlainElementsStay(command.items, own); }
  }

  lemma {:induction false} FieldAfterCleaning(items: Items, name: Name, own: Owner)
    requires UniqueItems(items, Obj) && PlainItems(items)
    requires name == Ascii("command") || name == Ascii("bash") || name == Ascii("powershell")
    requires Lookup(items, name).Some? ==> !Owned(own, Lookup(items, name).value)
    ensures var after := Lookup(CleanFields(items, own), name);
      after.Some? ==> Lookup(items, name).Some? && !Owned(own, after.value)
  {
    hide Owned, Clean, PlainCommands, Unique;
    if items.Item? {
      if items.name == name {
        if !Vanishes(items.value, Clean(items.value, own)) {
          PlainCommandStays(items.value, own);
        } else {
          NotAfterCleaning(items.rest, name, own);
        }
      } else {
        FieldAfterCleaning(items.rest, name, own);
      }
    }
  }

  lemma {:induction false} NotAfterCleaning(items: Items, name: Name, own: Owner)
    requires !HasName(items, name)
    ensures Lookup(CleanFields(items, own), name).None?
  {
    hide Clean;
    if items.Item? { NotAfterCleaning(items.rest, name, own); }
  }

  predicate OwnedField(items: Items, key: string, own: Owner) {
    var found := Lookup(items, Ascii(key));
    found.Some? && Owned(own, found.value)
  }

  lemma {:induction false} OwnedMeans(items: Items, own: Owner)
    ensures AnyOwned(items, own) <==>
      OwnedField(items, "command", own) || OwnedField(items, "bash", own) || OwnedField(items, "powershell", own)
  {
    hide Owned, Lookup, Ascii;
    var a, b, c := OneCommand(items, "command"), OneCommand(items, "bash"), OneCommand(items, "powershell");
    assert forall i :: 0 <= i < |a| ==> Commands(items)[i] == a[i];
    assert forall i :: 0 <= i < |b| ==> Commands(items)[|a| + i] == b[i];
    assert forall i :: 0 <= i < |c| ==> Commands(items)[|a| + |b| + i] == c[i];
    if a != [] && Owned(own, a[0]) { assert Owned(own, Commands(items)[0]); }
    if b != [] && Owned(own, b[0]) { assert Owned(own, Commands(items)[|a|]); }
    if c != [] && Owned(own, c[0]) { assert Owned(own, Commands(items)[|a| + |b|]); }
  }

  lemma {:induction false} PlainStaysUnowned(items: Items, own: Owner)
    requires UniqueItems(items, Obj) && PlainItems(items) && !AnyOwned(items, own)
    ensures !AnyOwned(CleanFields(items, own), own)
  {
    hide AnyOwned, Owned, Lookup, CleanFields, PlainItems, UniqueItems, Ascii;
    OwnedMeans(items, own);
    OwnedMeans(CleanFields(items, own), own);
    FieldAfterCleaning(items, Ascii("command"), own);
    FieldAfterCleaning(items, Ascii("bash"), own);
    FieldAfterCleaning(items, Ascii("powershell"), own);
  }

  // With plain command fields cleaning is idempotent.
  lemma {:induction false} PlainIsSettled(value: Json, own: Owner)
    requires Unique(value) && PlainCommands(value)
    ensures Settled(value, own)
    decreases value, 1
  {
    hide AnyOwned, AllOwned, HooksGone;
    if value.Container? {
      if value.kind.Arr? {
        PlainElementsSettle(value.items, own);
      } else if !AnyOwned(value.items, own) {
        PlainStaysUnowned(value.items, own);
        PlainFieldsSettle(value.items, own);
      }
    }
  }

  lemma {:induction false} PlainElementsSettle(items: Items, own: Owner)
    requires UniqueItems(items, Arr) && PlainItems(items)
    ensures SettledElements(items, own)
    decreases items, 0
  {
    hide Clean, Settled, PlainCommands, Unique, PlainCommand;
    if items.Item? {
      PlainIsSettled(items.value, own);
      PlainElementsSettle(items.rest, own);
    }
  }

  lemma {:induction false} PlainFieldsSettle(items: Items, own: Owner)
    requires UniqueItems(items, Obj) && PlainItems(items)
    ensures SettledFields(items, own)
    decreases items, 0
  {
    hide Clean, Settled, PlainCommands, Unique, PlainCommand;
    if items.Item? {
      PlainIsSettled(items.value, own);
      PlainFieldsSettle(items.rest, own);
    }
  }

  lemma {:induction false} NamesDiffer()
    ensures |Ascii("command")| == 7 && |Ascii("bash")| == 4 && |Ascii("powershell")| == 10 && |Ascii("hooks")| == 5
  {}

  lemma {:induction false} OneCommandOnly(command: Json)
    ensures Commands(Item(Ascii("command"), command, Nil)) == [command]
    ensures Lookup(Item(Ascii("command"), command, Nil), Ascii("hooks")) == None
  {
    hide Ascii;
    NamesDiffer();
    assert Lookup(Nil, Ascii("bash")) == Lookup(Nil, Ascii("powershell")) == Lookup(Nil, Ascii("hooks")) == None;
  }

  // Without plain command fields it need not be: {"command": ["x", {"command": "x"}]} first becomes
  // {"command": ["x"]}, which a second run removes.
  lemma {:induction false} CleaningTwiceCanDiffer(x: Name, path: Path)
    ensures var own := (v: Json) => v == Str(x) || v == Container(Arr, Item([], Str(x), Nil));
      var inner := Container(Obj, Item(Ascii("command"), Str(x), Nil));
      var list := Container(Arr, Item([], Str(x), Item([], inner, Nil)));
      var value := Container(Obj, Item(Ascii("command"), list, Nil));
      var once := Container(Obj, Item(Ascii("command"), Container(Arr, Item([], Str(x), Nil)), Nil));
      Unique(value) && Clean(value, own) == Keep(once) && Clean(once, own) == Drop && Removed(once, path, own) == {path}
  {
    hide Ascii, Commands;
    var own := (v: Json) => v == Str(x) || v == Container(Arr, Item([], Str(x), Nil));
    var inner := Container(Obj, Item(Ascii("command"), Str(x), Nil));
    var list := Container(Arr, Item([], Str(x), Item([], inner, Nil)));
    var short := Container(Arr, Item([], Str(x), Nil));
    OneCommandOnly(Str(x));
    OneCommandOnly(list);
    OneCommandOnly(short);
    assert Owned(own, Commands(inner.items)[0]) && AllOwned(inner.items, own);
    assert Clean(inner, own) == Drop;
    assert AllTexts(short.items) by { assert AllTexts(Nil); }
    assert Owned(own, Commands(Item(Ascii("command"), short, Nil))[0]);
    assert CleanElements(Item([], inner, Nil), own) == Nil;
    assert CleanElements(list.items, own) == short.items by { assert Clean(Str(x), own) == Keep(Str(x)); }
    assert Clean(list, own) == Keep(short);
    assert CleanFields(Item(Ascii("command"), list, Nil), own) == Item(Ascii("command"), short, Nil);
    assert UniqueItems(Nil, Obj) && UniqueItems(Nil, Arr) && Unique(Str(x));
    assert UniqueItems(inner.items, Obj) && Unique(inner);
    assert UniqueItems(Item([], inner, Nil), Arr);
    assert UniqueItems(list.items, Arr) && Unique(list);
  }
}
