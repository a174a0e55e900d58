/** Cleaning a configuration file that has been cleaned: when the second run leaves it alone. */
module CleaningAgain {
  import opened Lexical
  import opened Syntax
  import opened Options
  import opened Values
  import opened Pruning
  import opened Hooks
  import opened Conditions
  import opened Recovery

  // Every key a run may look at.
  const KEYS: seq<string> := EVENTS + ["hooks", GUARDIAN] + MCP_KEYS + PLUGIN_KEYS

  // What a run removes through one key.
  function Part(config: Items, key: string, s: Settings): set<Path> {
    if key in EVENTS then (if s.host.Copilot? then KeyRemoved(config, key, s.own) else {})
    else if key == "hooks" then KeyRemoved(config, key, s.own)
    else if key == GUARDIAN then (if s.host.Antigravity? then GuardianRemoved(config, s.own) else {})
    else if key in MCP_KEYS then McpRemoved(config, key, s)
    else if key in PLUGIN_KEYS then (if s.host.Opencode? then PluginsRemoved(config, key, s) else {})
    else {}
  }

  lemma {:induction false} KeysAreApart()
    ensures forall k :: k in EVENTS ==> k != "hooks" && k != GUARDIAN && k !in MCP_KEYS && k !in PLUGIN_KEYS
    ensures forall k :: k in MCP_KEYS ==> k != "hooks" && k != GUARDIAN && k !in PLUGIN_KEYS
    ensures "hooks" !in PLUGIN_KEYS && GUARDIAN !in PLUGIN_KEYS && GUARDIAN != "hooks"
  {
    KeysDiffer();
    forall k | k in EVENTS ensures k in FirstOf(EVENTS, |EVENTS|) { FirstOfMeans(EVENTS, |EVENTS|, k); }
    forall k | k in MCP_KEYS ensures k in FirstOf(MCP_KEYS, |MCP_KEYS|) { FirstOfMeans(MCP_KEYS, |MCP_KEYS|, k); }
  }

  lemma {:induction false} EventsAre(config: Items, n: nat, own: Owner, q: Path)
    requires n <= |EVENTS|
    ensures q in EventsRemoved(config, n, own) <==> exists i :: 0 <= i < n && q in KeyRemoved(config, EVENTS[i], own)
  {
    hide KeyRemoved;
    if n > 0 { EventsAre(config, n - 1, own, q); }
  }

  lemma {:induction false} ServersAre(config: Items, n: nat, s: Settings, q: Path)
    requires n <= |MCP_KEYS|
    ensures q in McpAllRemoved(config, n, s) <==> exists i :: 0 <= i < n && q in McpRemoved(config, MCP_KEYS[i], s)
  {
    hide McpRemoved;
    if n > 0 { ServersAre(config, n - 1, s, q); }
  }

  lemma {:induction false} PluginsAre(config: Items, n: nat, s: Settings, q: Path)
    requires n <= |PLUGIN_KEYS|
    ensures q in PluginsAllRemoved(config, n, s) <==> exists i :: 0 <= i < n && q in PluginsRemoved(config, PLUGIN_KEYS[i], s)
  {
    hide PluginsRemoved;
    if n > 0 { PluginsAre(config, n - 1, s, q); }
  }

  // The removals are those through each key.
  lemma {:induction false} RemovalsAreParts(config: Items, s: Settings, q: Path)
    ensures q in Removals(config, s) <==> exists k :: k in KEYS && q in Part(config, k, s)
  {
    hide KeyRemoved, GuardianRemoved, McpRemoved, PluginsRemoved, EventsRemoved, McpAllRemoved, PluginsAllRemoved;
    KeysAreApart();
    EventsAre(config, |EVENTS|, s.own, q);
    ServersAre(config, |MCP_KEYS|, s, q);
    PluginsAre(config, |PLUGIN_KEYS|, s, q);
    assert "hooks" in KEYS && GUARDIAN in KEYS;
    assert forall k :: k in KEYS <==> k in EVENTS || k == "hooks" || k == GUARDIAN || k in MCP_KEYS || k in PLUGIN_KEYS;
    if q in Removals(config, s) {
      if s.host.Copilot? && q in EventsRemoved(config, |EVENTS|, s.own) {
        var i :| 0 <= i < |EVENTS| && q in KeyRemoved(config, EVENTS[i], s.own);
        assert EVENTS[i] in KEYS && q in Part(config, EVENTS[i], s);
      } else if q in KeyRemoved(config, "hooks", s.own) {
        assert q in Part(config, "hooks", s);
      } else if s.host.Antigravity? && q in GuardianRemoved(config, s.own) {
        assert q in Part(config, GUARDIAN, s);
      } else if q in McpAllRemoved(config, |MCP_KEYS|, s) {
        var i :| 0 <= i < |MCP_KEYS| && q in McpRemoved(config, MCP_KEYS[i], s);
        assert MCP_KEYS[i] in KEYS && q in Part(config, MCP_KEYS[i], s);
      } else {
        var i :| 0 <= i < |PLUGIN_KEYS| && q in PluginsRemoved(config, PLUGIN_KEYS[i], s);
        assert PLUGIN_KEYS[i] in KEYS && q in Part(config, PLUGIN_KEYS[i], s);
      }
    }
  }

  lemma {:induction false} PartIsThrough(config: Items, key: string, s: Settings)
    ensures AllThrough(Part(config, key, s), [], Ascii(key))
  {
    hide Ascii, Lookup, Removed, AllThrough, McpRemoved, PluginsRemoved, GuardianRemoved;
    NothingIsThrough(Ascii(key));
    KeyRemovedIsThrough(config, key, s.own);
    GuardianIsThrough(config, s.own);
    McpIsThrough(config, key, s);
    PluginsAreThrough(config, key, s);
  }

  lemma {:induction false} NothingIsThrough(name: Name)
    ensures AllThrough({}, [], name)
  {}

  lemma {:induction false} KeyRemovedIsThrough(config: Items, key: string, own: Owner)
    ensures AllThrough(KeyRemoved(config, key, own), [], Ascii(key))
  {
    hide Ascii, Lookup, Removed;
    var found := Lookup(config, Ascii(key));
    if found.Some? { KeyIsThrough(found.value, Ascii(key), own); }
  }

  // Through a key the removals are its part.
  lemma {:induction false} PartOfRemovals(config: Items, key: string, s: Settings, q: Path)
    requires key in KEYS && Through(q, [], Ascii(key))
    ensures q in Removals(config, s) <==> q in Part(config, key, s)
  {
    hide Ascii, Part, Removals;
    RemovalsAreParts(config, s, q);
    if q in Removals(config, s) {
      var k :| k in KEYS && q in Part(config, k, s);
      PartIsThrough(config, k, s);
      assert Through(q, [], Ascii(k));
      assert ([] + [Named(Ascii(k))])[0] == q[0] == ([] + [Named(Ascii(key))])[0];
      AsciiIsInjective(k, key);
    }
  }

  /* ---- the file after the first run ---- */

  function CleanedItems(config: Items, s: Settings): Items { PruneItems(config, Obj, 0, [], Removals(config, s)) }

  // A field of what pruning leaves.
  lemma {:induction false} LookupPruned(items: Items, idx: nat, name: Name, removed: set<Path>, part: set<Path>)
    requires UniqueItems(items, Obj)
    requires forall q :: Through(q, [], name) ==> (q in removed <==> q in part)
    ensures var found, p := Lookup(items, name), [] + [Named(name)];
      Lookup(PruneItems(items, Obj, idx, [], removed), name) ==
        if found.Some? && p !in part then Some(Prune(found.value, p, part)) else None
  {
    hide Prune, Unique;
    if items.Item? {
      LookupPruned(items.rest, idx + 1, name, removed, part);
      if items.name == name {
        var p := [] + [Named(name)];
        assert p == [Named(name)] == [] + [KeyOf(Obj, name, idx)];
        assert Through(p, [], name);
        SamePruned(items.value, name, removed, part);
        NoFieldLeft(items.rest, idx + 1, name, removed);
      }
    }
  }

  lemma {:induction false} SamePruned(value: Json, name: Name, removed: set<Path>, part: set<Path>)
    requires forall q :: Through(q, [], name) ==> (q in removed <==> q in part)
    ensures Prune(value, [] + [Named(name)], removed) == Prune(value, [] + [Named(name)], part)
  {
    var p := [] + [Named(name)];
    forall q | p < q ensures q in removed <==> q in part { assert Through(q, [], name); }
    PruneLocal(value, p, removed, part);
  }

  lemma {:induction false} NoFieldLeft(items: Items, idx: nat, name: Name, removed: set<Path>)
    requires !HasName(items, name)
    ensures Lookup(PruneItems(items, Obj, idx, [], removed), name).None?
  {
    hide Prune;
    if items.Item? { NoFieldLeft(items.rest, idx + 1, name, removed); }
  }

  lemma {:induction false} FieldCleaned(config: Items, key: string, s: Settings)
    requires UniqueItems(config, Obj) && key in KEYS
    ensures var found, p := Lookup(config, Ascii(key)), [Named(Ascii(key))];
      Lookup(CleanedItems(config, s), Ascii(key)) ==
        if found.Some? && p !in Part(config, key, s) then Some(Prune(found.value, p, Part(config, key, s))) else None
  {
    hide Ascii, Part, Removals, Prune, PruneItems, Lookup;
    forall q | Through(q, [], Ascii(key)) ensures q in Removals(config, s) <==> q in Part(config, key, s) {
      PartOfRemovals(config, key, s, q);
    }
    LookupPruned(config, 0, Ascii(key), Removals(config, s), Part(config, key, s));
    assert [] + [Named(Ascii(key))] == [Named(Ascii(key))];
  }

  /* ---- the second run, key by key ---- */

  // A hook value that is kept: what the first run leaves of it, and what the second removes from that.
  lemma {:induction false} HookAgain(config: Items, key: string, s: Settings)
    requires UniqueItems(config, Obj) && key in KEYS && Part(config, key, s) == KeyRemoved(config, key, s.own)
    requires Lookup(config, Ascii(key)).Some? && !Goes(Lookup(config, Ascii(key)).value, s.own)
    ensures var value := Lookup(config, Ascii(key)).value;
      && Clean(value, s.own).Keep?
      && Lookup(CleanedItems(config, s), Ascii(key)) == Some(Clean(value, s.own).value)
      && (KeyRemoved(CleanedItems(config, s), key, s.own) == {} <==> StaysClean(value, s.own))
  {
    hide Ascii, Part, Removals, Prune, PruneItems, Lookup, Removed, Clean, Goes, StaysClean, UniqueItems, CleanedItems;
    var value, p := Lookup(config, Ascii(key)).value, [Named(Ascii(key))];
    FieldCleaned(config, key, s);
    UniqueAt(config, Obj, Ascii(key));
    GoesIsDropped(value, s.own);
    KeyIsThrough(value, Ascii(key), s.own);
    assert [] + p == p;
    KeptIsPruned(config, value, Ascii(key), s.own);
    SecondRunIsIdle(value, p, s.own);
  }

  // The tool's own entry, kept or deleted.
  lemma {:induction false} GuardianAgain(config: Items, s: Settings)
    requires UniqueItems(config, Obj) && s.host.Antigravity? && Lookup(config, Ascii(GUARDIAN)).Some?
    ensures var value := Lookup(config, Ascii(GUARDIAN)).value;
      GuardianRemoved(CleanedItems(config, s), s.own) == {} <==> Fades(value, s.own) || StaysClean(value, s.own)
  {
    hide Ascii, Part, Removals, Prune, PruneItems, Lookup, Removed, Clean, Goes, Fades, StaysClean, UniqueItems, CleanedItems, Vanishes;
    var value, p := Lookup(config, Ascii(GUARDIAN)).value, [Named(Ascii(GUARDIAN))];
    GuardianPart(config, s);
    FieldCleaned(config, GUARDIAN, s);
    UniqueAt(config, Obj, Ascii(GUARDIAN));
    GuardianIsThrough(config, s.own);
    FadesIsVanished(value, s.own);
    assert [] + p == p;
    if !Fades(value, s.own) {
      KeptEntry(value, s.own);
      KeptIsPruned(config, value, Ascii(GUARDIAN), s.own);
      assert GuardianRemoved(config, s.own) == Removed(value, p, s.own);
      SecondRunIsIdle(value, p, s.own);
      if StaysClean(value, s.own) { IdleStays(Clean(value, s.own).value, s.own); }
    }
  }

  lemma {:induction false} GuardianPart(config: Items, s: Settings)
    requires s.host.Antigravity?
    ensures GUARDIAN in KEYS && Part(config, GUARDIAN, s) == GuardianRemoved(config, s.own)
  {
    hide GuardianRemoved;
    KeysAreApart();
    assert KEYS[|EVENTS| + 1] == GUARDIAN;
  }

  lemma {:induction false} KeptEntry(value: Json, own: Owner)
    requires Unique(value) && !Vanishes(value, Clean(value, own))
    ensures Clean(value, own).Keep? && !Goes(value, own)
  {
    GoesIsDropped(value, own);
  }

  lemma {:induction false} IdleStays(value: Json, own: Owner)
    requires Clean(value, own) == Keep(value)
    ensures !Vanishes(value, Clean(value, own))
  {}

  // A container of servers: the tool's own are gone.
  lemma {:induction false} ServersAgain(config: Items, key: string, s: Settings)
    requires UniqueItems(config, Obj) && key in MCP_KEYS && Lookup(config, Ascii(key)).Some?
    requires IsObj(Lookup(config, Ascii(key)).value) && ServersFit(config)
    ensures McpRemoved(CleanedItems(config, s), key, s) == {}
    ensures var found := Lookup(CleanedItems(config, s), Ascii(key));
      found.Some? && IsObj(found.value) && (key == "mcp" ==> ObjIfPresent(found.value.items, "servers"))
  {
    hide Ascii, Part, Removals, Prune, PruneItems, Lookup, UniqueItems, CleanedItems, OwnsServer;
    var value, p := Lookup(config, Ascii(key)).value, [Named(Ascii(key))];
    McpPart(config, key, s);
    FieldCleaned(config, key, s);
    McpIsThrough(config, key, s);
    assert [] + p == p;
    McpPruned(config, key, s);
    UniqueAt(config, Obj, Ascii(key));
    OwnIsGone(value.items, s);
    var nested := Lookup(value.items, Ascii("servers"));
    GuardianIsNotServers();
    DeleteOther(value.items, Ascii(GUARDIAN), Ascii("servers"));
    if key == "mcp" && nested.Some? {
      UniqueAt(value.items, Obj, Ascii("servers"));
      OwnIsGone(nested.value.items, s);
      ReplaceLooks(WithoutOwn(value.items, s), Ascii("servers"), Container(Obj, WithoutOwn(nested.value.items, s)), Ascii(GUARDIAN));
      SameOwner(WithoutOwn(value.items, s), Replace(WithoutOwn(value.items, s), Ascii("servers"), Container(Obj, WithoutOwn(nested.value.items, s))), s);
    }
  }

  lemma {:induction false} McpPart(config: Items, key: string, s: Settings)
    requires key in MCP_KEYS
    ensures key in KEYS && Part(config, key, s) == McpRemoved(config, key, s)
  {
    hide McpRemoved;
    KeysAreApart();
  }

  lemma {:induction false} DeleteOther(items: Items, name: Name, other: Name)
    requires name != other
    ensures Lookup(Delete(items, name), other) == Lookup(items, other)
  {
    if items.Item? && items.name != name { DeleteOther(items.rest, name, other); }
  }

  lemma {:induction false} DeleteGone(items: Items, name: Name)
    requires UniqueItems(items, Obj)
    ensures Lookup(Delete(items, name), name).None?
  {
    hide Unique;
    if items.Item? {
      if items.name == name { NoName(items.rest, name); } else { DeleteGone(items.rest, name); }
    }
  }

  lemma {:induction false} NoName(items: Items, name: Name)
    requires !HasName(items, name)
    ensures Lookup(items, name).None?
  {
    if items.Item? { NoName(items.rest, name); }
  }

  lemma {:induction false} OwnIsGone(servers: Items, s: Settings)
    requires UniqueItems(servers, Obj)
    ensures !OwnsServer(WithoutOwn(servers, s), s)
  {
    hide Ascii, Lookup, UniqueItems, Delete;
    if OwnsServer(servers, s) { DeleteGone(servers, Ascii(GUARDIAN)); }
  }

  lemma {:induction false} ReplaceLooks(items: Items, name: Name, value: Json, other: Name)
    ensures name != other ==> Lookup(Replace(items, name, value), other) == Lookup(items, other)
    ensures Lookup(items, name).Some? ==> Lookup(Replace(items, name, value), name) == Some(value)
  {
    if items.Item? && items.name != name { ReplaceLooks(items.rest, name, value, other); }
  }

  lemma {:induction false} SameOwner(a: Items, b: Items, s: Settings)
    requires Lookup(a, Ascii(GUARDIAN)) == Lookup(b, Ascii(GUARDIAN))
    ensures OwnsServer(a, s) <==> OwnsServer(b, s)
  {}

  // A plugin list: the known plugins are gone.
  lemma {:induction false} PluginsAgain(config: Items, key: string, s: Settings)
    requires UniqueItems(config, Obj) && key in PLUGIN_KEYS && s.host.Opencode? && Lookup(config, Ascii(key)).Some?
    requires IsArr(Lookup(config, Ascii(key)).value)
    ensures PluginsRemoved(CleanedItems(config, s), key, s) == {}
    ensures Lookup(CleanedItems(config, s), Ascii(key)).Some? && IsArr(Lookup(CleanedItems(config, s), Ascii(key)).value)
  {
    hide Ascii, Part, Removals, PruneItems, Lookup, UniqueItems, CleanedItems;
    var value, p := Lookup(config, Ascii(key)).value, [Named(Ascii(key))];
    PluginPart(config, key, s);
    FieldCleaned(config, key, s);
    PluginsAreThrough(config, key, s);
    assert [] + p == p;
    PluginsPruned(value.items, 0, p, s, PluginsRemoved(config, key, s));
    PluginsAreGone(value.items, 0, p, s);
  }

  lemma {:induction false} PluginPart(config: Items, key: string, s: Settings)
    requires key in PLUGIN_KEYS && s.host.Opencode?
    ensures key in KEYS && Part(config, key, s) == PluginsRemoved(config, key, s)
  {
    hide PluginsRemoved;
    KeysAreApart();
  }

  lemma {:induction false} PluginsAreGone(items: Items, idx: nat, path: Path, s: Settings)
    ensures PluginsRemovedFrom(KeepPlugins(items, s), idx, path, s) == {}
  {
    if items.Item? {
      if IsPlugin(items.value, s) { PluginsAreGone(items.rest, idx, path, s); } else { PluginsAreGone(items.rest, idx + 1, path, s); }
    }
  }

  /* ---- the second run ---- */

  predicate KeyStaysClean(config: Items, key: string, own: Owner) {
    var found := Lookup(config, Ascii(key));
    found.Some? ==> StaysClean(found.value, own)
  }

  // Every value that a run cleans stays clean, or goes.
  predicate FileStaysClean(config: Items, s: Settings) {
    && (s.host.Copilot? ==> forall k :: k in EVENTS ==> KeyStaysClean(config, k, s.own))
    && KeyStaysClean(config, "hooks", s.own)
    && (s.host.Antigravity? && Lookup(config, Ascii(GUARDIAN)).Some? ==>
        Fades(Lookup(config, Ascii(GUARDIAN)).value, s.own) || KeyStaysClean(config, GUARDIAN, s.own))
  }

  // What is left under a key is of the kind it was.
  lemma {:induction false} KindKept(config: Items, key: string, s: Settings)
    requires UniqueItems(config, Obj) && key in KEYS
    ensures var was, is_ := Lookup(config, Ascii(key)), Lookup(CleanedItems(config, s), Ascii(key));
      is_.Some? ==> was.Some? && (IsArr(is_.value) <==> IsArr(was.value)) && (IsObj(is_.value) <==> IsObj(was.value))
  {
    hide Ascii, Part, Removals, PruneItems, Lookup, UniqueItems, CleanedItems;
    FieldCleaned(config, key, s);
  }

  lemma {:induction false} ShapeMeans(config: Items, s: Settings)
    requires ShapeError(config, s.host).None?
    ensures s.host.Copilot? ==> forall k :: k in EVENTS ==> ListIfPresent(config, k)
    ensures HooksFit(config, s.host) && ServersFit(config)
    ensures forall k :: k in MCP_KEYS ==> ObjIfPresent(config, k)
    ensures s.host.Opencode? ==> forall k :: k in PLUGIN_KEYS ==> ListIfPresent(config, k)
  {
    hide ListIfPresent, ObjIfPresent, HooksFit, ServersFit;
  }

  // A file fit for a run is fit for the next one.
  lemma {:induction false} StillFit(config: Items, s: Settings)
    requires UniqueItems(config, Obj) && ShapeError(config, s.host).None?
    ensures ShapeError(CleanedItems(config, s), s.host).None?
  {
    hide Ascii, Lookup, UniqueItems, CleanedItems, ServersFit, ShapeError;
    ShapeMeans(config, s);
    forall k | k in KEYS
      ensures ListIfPresent(config, k) ==> ListIfPresent(CleanedItems(config, s), k)
      ensures ObjIfPresent(config, k) ==> ObjIfPresent(CleanedItems(config, s), k)
    {
      KindKept(config, k, s);
    }
    HooksInKeys();
    KindKept(config, "hooks", s);
    if Lookup(config, Ascii("mcp")).Some? { ServersAgain(config, "mcp", s) by { assert MCP_KEYS[2] == "mcp"; } }
    McpStillFits(config, s);
    FitSays(CleanedItems(config, s), s);
  }

  lemma {:induction false} HooksInKeys()
    ensures "hooks" in KEYS && "mcp" in MCP_KEYS && forall k :: k in EVENTS || k in MCP_KEYS || k in PLUGIN_KEYS ==> k in KEYS
  {
    assert KEYS[|EVENTS|] == "hooks" && MCP_KEYS[2] == "mcp";
  }

  lemma {:induction false} McpStillFits(config: Items, s: Settings)
    requires UniqueItems(config, Obj) && ObjIfPresent(config, "mcp") && ServersFit(config)
    ensures ServersFit(CleanedItems(config, s))
  {
    hide Ascii, Lookup, UniqueItems, CleanedItems;
    HooksInKeys();
    KindKept(config, "mcp", s);
    if Lookup(config, Ascii("mcp")).Some? { ServersAgain(config, "mcp", s); }
  }

  lemma {:induction false} FitSays(config: Items, s: Settings)
    requires s.host.Copilot? ==> forall k :: k in EVENTS ==> ListIfPresent(config, k)
    requires HooksFit(config, s.host) && ServersFit(config) && forall k :: k in MCP_KEYS ==> ObjIfPresent(config, k)
    requires s.host.Opencode? ==> forall k :: k in PLUGIN_KEYS ==> ListIfPresent(config, k)
    ensures ShapeError(config, s.host).None?
  {
    hide ListIfPresent, ObjIfPresent, HooksFit, ServersFit;
    assert forall i :: 0 <= i < |EVENTS| ==> EVENTS[i] in EVENTS;
    assert forall i :: 0 <= i < |MCP_KEYS| ==> MCP_KEYS[i] in MCP_KEYS;
    assert forall i :: 0 <= i < |PLUGIN_KEYS| ==> PLUGIN_KEYS[i] in PLUGIN_KEYS;
  }

  // What the second run removes through a key.
  lemma {:induction false} PartAgain(config: Items, key: string, s: Settings)
    requires UniqueItems(config, Obj) && ShapeError(config, s.host).None? && !HooksDropped(config, s.own) && key in KEYS
    ensures Part(CleanedItems(config, s), key, s) == {} <==>
      (key in EVENTS && s.host.Copilot? ==> KeyStaysClean(config, key, s.own))
      && (key == "hooks" ==> KeyStaysClean(config, key, s.own))
      && (key == GUARDIAN && s.host.Antigravity? && Lookup(config, Ascii(GUARDIAN)).Some? ==>
          Fades(Lookup(config, Ascii(GUARDIAN)).value, s.own) || KeyStaysClean(config, key, s.own))
  {
    hide Ascii, Lookup, UniqueItems, CleanedItems, ServersFit, ShapeError, Removed, Goes, Fades, StaysClean, Removals, Prune, OwnsServer;
    KeysAreApart();
    ShapeMeans(config, s);
    FieldCleaned(config, key, s);
    if Lookup(config, Ascii(key)).Some? {
      if key in EVENTS {
        if s.host.Copilot? {
          ListStays(Lookup(config, Ascii(key)).value, s.own);
          HookAgain(config, key, s);
        }
      } else if key == "hooks" {
        HookAgain(config, key, s);
      } else if key == GUARDIAN {
        if s.host.Antigravity? { GuardianAgain(config, s); }
      } else if key in MCP_KEYS {
        ServersAgain(config, key, s);
      } else if key in PLUGIN_KEYS && s.host.Opencode? {
        PluginsAgain(config, key, s);
      }
    }
  }

  lemma {:induction false} ListStays(value: Json, own: Owner)
    requires IsArr(value)
    ensures !Goes(value, own)
  {}

  lemma {:induction false} HooksStay(config: Items, s: Settings)
    requires UniqueItems(config, Obj) && !HooksDropped(config, s.own) && KeyStaysClean(config, "hooks", s.own)
    ensures !HooksDropped(CleanedItems(config, s), s.own)
  {
    hide Ascii, Lookup, UniqueItems, CleanedItems, Removed, Goes, StaysClean, Clean, Prune;
    HooksInKeys();
    KeysAreApart();
    FieldCleaned(config, "hooks", s);
    if Lookup(config, Ascii("hooks")).Some? {
      var value := Lookup(config, Ascii("hooks")).value;
      HookAgain(config, "hooks", s);
      UniqueAt(config, Obj, Ascii("hooks"));
      PruneKeepsUnique(value, [Named(Ascii("hooks"))], Part(config, "hooks", s));
      SecondRunIsIdle(value, [], s.own);
      GoesIsDropped(Clean(value, s.own).value, s.own);
    }
  }

  // A second run on the cleaned file is fit, and removes nothing exactly when every value that the first one cleans
  // stays clean; the hooks container is not dropped then either.
  lemma {:induction false} SecondFileRun(config: Items, s: Settings)
    requires UniqueItems(config, Obj) && ShapeError(config, s.host).None? && !HooksDropped(config, s.own)
    ensures ShapeError(CleanedItems(config, s), s.host).None?
    ensures Removals(CleanedItems(config, s), s) == {} <==> FileStaysClean(config, s)
    ensures FileStaysClean(config, s) ==> !HooksDropped(CleanedItems(config, s), s.own)
  {
    hide Ascii, Lookup, UniqueItems, CleanedItems, ShapeError, HooksDropped, Removals, Part, Fades, KeyStaysClean;
    StillFit(config, s);
    NoRemovals(CleanedItems(config, s), s);
    forall k | k in KEYS
      ensures Part(CleanedItems(config, s), k, s) == {} <==>
        (k in EVENTS && s.host.Copilot? ==> KeyStaysClean(config, k, s.own))
        && (k == "hooks" ==> KeyStaysClean(config, k, s.own))
        && (k == GUARDIAN && s.host.Antigravity? && Lookup(config, Ascii(GUARDIAN)).Some? ==>
            Fades(Lookup(config, Ascii(GUARDIAN)).value, s.own) || KeyStaysClean(config, k, s.own))
    {
      PartAgain(config, k, s);
    }
    HooksInKeys();
    assert KEYS[|EVENTS| + 1] == GUARDIAN;
    if FileStaysClean(config, s) { HooksStay(config, s); }
  }

  lemma {:induction false} NoRemovals(config: Items, s: Settings)
    ensures Removals(config, s) == {} <==> forall k :: k in KEYS ==> Part(config, k, s) == {}
  {
    hide Removals, Part;
    forall q ensures q in Removals(config, s) <==> exists k :: k in KEYS && q in Part(config, k, s) {
      RemovalsAreParts(config, s, q);
    }
    if Removals(config, s) == {} {
      forall k | k in KEYS ensures Part(config, k, s) == {} {
        forall q ensures q !in Part(config, k, s) { assert q !in Removals(config, s); }
      }
    }
  }
}
