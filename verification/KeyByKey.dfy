/** What a cleaned configuration holds and what is reported of it, key by key, in terms of the fields of both. */
module KeyByKey {
  import opened Syntax
  import opened Options
  import opened Values
  import opened Pruning
  import opened Hooks
  import opened Conditions
  import opened Recovery
  import opened Entries
  import opened CleaningAgain

  // The values without the texts that are plugins of the tool.
  function WithoutPlugins(xs: seq<Json>, plugin: Name -> bool): seq<Json> {
    if xs == [] then []
    else (if xs[0].Str? && plugin(xs[0].chars) then [] else [xs[0]]) + WithoutPlugins(xs[1..], plugin)
  }

  // The keys the rules for a host are about.
  function RuleKeys(host: Host): set<string> {
    {"hooks", "mcpServers", "mcp_servers", "mcp"}
    + (if host.Copilot? then {"userPromptSubmitted", "preToolUse", "postToolUse", "sessionStart", "sessionEnd"} else {})
    + (if host.Antigravity? then {"ai-guardian"} else {})
    + (if host.Opencode? then {"plugin", "plugins"} else {})
  }

  // The keys whose values are cleaned as hooks and never removed.
  function HookKeys(host: Host): set<string> {
    {"hooks"} + if host.Copilot? then {"userPromptSubmitted", "preToolUse", "postToolUse", "sessionStart", "sessionEnd"} else {}
  }

  /* ---- the laws ---- */

  // A plugin list is left without the texts that are plugins of the tool, in order.
  predicate PluginsLeft(before: Items, after: Items, key: string, s: Settings) {
    var b, a := ValueAt(before, key), ValueAt(after, key);
    b.Some? && IsList(b.value) ==>
      && a.Some? && IsList(a.value)
      && Elements(a.value.items) == WithoutPlugins(Elements(b.value.items), s.plugin)
  }

  // An object whose command and arguments are those of the tool's own server.
  predicate ServerIsOwn(entry: Option<Json>, s: Settings) {
    && entry.Some? && IsObj(entry.value)
    && s.server(ValueAt(entry.value.items, "command"), ValueAt(entry.value.items, "args"))
  }

  // The entry a name has in a mapping of servers afterwards.
  function ServerLeft(before: Items, name: Name, s: Settings): Option<Json> {
    if name == Ascii("ai-guardian") && ServerIsOwn(Lookup(before, name), s) then None else Lookup(before, name)
  }

  ghost predicate MappingLeft(before: Items, after: Items, s: Settings) {
    forall name :: Lookup(after, name) == ServerLeft(before, name, s)
  }

  // The same but for the nested mapping, if the container has one.
  ghost predicate OuterLeft(before: Items, after: Items, s: Settings, nested: bool) {
    forall name :: (nested && name == Ascii("servers")) || Lookup(after, name) == ServerLeft(before, name, s)
  }

  // A container of servers loses the tool's own, and so do the servers nested in "mcp".
  ghost predicate ServersLeft(before: Items, after: Items, key: string, s: Settings) {
    var b, a := ValueAt(before, key), ValueAt(after, key);
    b.Some? && IsObj(b.value) ==>
      && a.Some? && IsObj(a.value)
      && var inner := ValueAt(b.value.items, "servers");
        var nested := key == "mcp" && inner.Some? && IsObj(inner.value);
        && OuterLeft(b.value.items, a.value.items, s, nested)
        && (nested ==>
            var left := ValueAt(a.value.items, "servers");
            left.Some? && IsObj(left.value) && MappingLeft(inner.value.items, left.value.items, s))
  }

  predicate HooksLeft(before: Items, after: Items, key: string, own: Owner) {
    var b := ValueAt(before, key);
    if b.None? then ValueAt(after, key).None?
    else Clean(b.value, own).Keep? && ValueAt(after, key) == Some(Clean(b.value, own).value)
  }

  predicate OwnEntryLeft(before: Items, after: Items, own: Owner) {
    var b := ValueAt(before, "ai-guardian");
    if b.None? || FieldGoes(b.value, own) then ValueAt(after, "ai-guardian").None?
    else Clean(b.value, own).Keep? && ValueAt(after, "ai-guardian") == Some(Clean(b.value, own).value)
  }

  // What the configuration is afterwards.
  ghost predicate IsCleaned(before: Items, after: Items, s: Settings) {
    && (forall key :: key in HookKeys(s.host) ==> HooksLeft(before, after, key, s.own))
    && (s.host.Antigravity? ==> OwnEntryLeft(before, after, s.own))
    && (forall key :: key in {"mcpServers", "mcp_servers", "mcp"} ==> ServersLeft(before, after, key, s))
    && (s.host.Opencode? ==> PluginsLeft(before, after, "plugin", s) && PluginsLeft(before, after, "plugins", s))
    && (forall name :: (forall key :: key in RuleKeys(s.host) ==> name != Ascii(key)) ==> Lookup(after, name) == Lookup(before, name))
    && (forall name :: Lookup(before, name).None? ==> Lookup(after, name).None?)
  }

  // A mapping of servers in which an entry under the tool's name is retained.
  predicate ServerRetained(after: Items, key: string) {
    var a := ValueAt(after, key);
    && a.Some? && IsObj(a.value)
    && (|| ValueAt(a.value.items, "ai-guardian").Some?
        || (key == "mcp" && ValueAt(a.value.items, "servers").Some? && IsObj(ValueAt(a.value.items, "servers").value)
            && ValueAt(ValueAt(a.value.items, "servers").value.items, "ai-guardian").Some?))
  }

  // The values that are cleaned as hooks.
  predicate CleanedKey(host: Host, key: string) { key in HookKeys(host) || (host.Antigravity? && key == "ai-guardian") }

  // What is reported: entries of mixed and of odd commands that cleaning comes to, and retained servers.
  ghost predicate IsReported(before: Items, after: Items, problems: seq<Problem>, s: Settings) {
    && (MixedCommands in problems <==>
        exists key, e :: CleanedKey(s.host, key) && ValueAt(before, key).Some? && e in Met(ValueAt(before, key).value, s.own) && Mixed(e, s.own))
    && (UnrecognizedHook in problems <==>
        exists key, e :: CleanedKey(s.host, key) && ValueAt(before, key).Some? && e in Met(ValueAt(before, key).value, s.own) && Odd(e, s.own, s.odd))
    && (UnrecognizedServer in problems <==> exists key :: key in {"mcpServers", "mcp_servers", "mcp"} && ServerRetained(after, key))
  }

  /* ---- keys ---- */

  lemma {:induction false} KeySets()
    ensures forall k :: k in EVENTS <==> k in {"userPromptSubmitted", "preToolUse", "postToolUse", "sessionStart", "sessionEnd"}
    ensures forall k :: k in MCP_KEYS <==> k in {"mcpServers", "mcp_servers", "mcp"}
    ensures forall k :: k in PLUGIN_KEYS <==> k in {"plugin", "plugins"}
    ensures GUARDIAN == "ai-guardian"
    ensures forall k :: k in KEYS <==> k in EVENTS || k == "hooks" || k == GUARDIAN || k in MCP_KEYS || k in PLUGIN_KEYS
  {
    assert EVENTS == ["userPromptSubmitted", "preToolUse", "postToolUse", "sessionStart", "sessionEnd"];
    assert MCP_KEYS == ["mcpServers", "mcp_servers", "mcp"] && PLUGIN_KEYS == ["plugin", "plugins"];
    assert KEYS[|EVENTS|] == "hooks" && KEYS[|EVENTS| + 1] == GUARDIAN;
  }

  // A key no rule is about contributes nothing.
  lemma {:induction false} NoPart(config: Items, key: string, s: Settings)
    requires key !in RuleKeys(s.host)
    ensures Part(config, key, s) == {}
  {
    hide KeyRemoved, GuardianRemoved, McpRemoved, PluginsRemoved;
    KeySets();
  }

  lemma {:induction false} UnnamedStays(config: Items, name: Name, s: Settings)
    requires UniqueItems(config, Obj) && forall key :: key in RuleKeys(s.host) ==> name != Ascii(key)
    ensures Lookup(CleanedItems(config, s), name) == Lookup(config, name)
  {
    hide Ascii, Part, Removals, Prune, PruneItems, Lookup, RuleKeys, UniqueItems;
    forall q | Through(q, [], name) ensures q !in Removals(config, s) { NotThrough(config, name, s, q); }
    LookupPruned(config, 0, name, Removals(config, s), {});
    if Lookup(config, name).Some? { PruneNothing(Lookup(config, name).value, [] + [Named(name)], {}); }
  }

  lemma {:induction false} NotThrough(config: Items, name: Name, s: Settings, q: Path)
    requires (forall key :: key in RuleKeys(s.host) ==> name != Ascii(key)) && Through(q, [], name)
    ensures q !in Removals(config, s)
  {
    hide Ascii, Part, Removals, RuleKeys;
    RemovalsAreParts(config, s, q);
    forall k | k in KEYS ensures q !in Part(config, k, s) {
      PartIsThrough(config, k, s);
      if k in RuleKeys(s.host) { OnePathStart(q, name, Ascii(k)); } else { NoPart(config, k, s); }
    }
  }

  lemma {:induction false} OnePathStart(q: Path, a: Name, b: Name)
    requires a != b && Through(q, [], a)
    ensures !Through(q, [], b)
  {
    assert ([] + [Named(a)])[0] == Named(a) && ([] + [Named(b)])[0] == Named(b);
  }

  lemma {:induction false} AbsentStays(config: Items, name: Name, removed: set<Path>, idx: nat)
    requires Lookup(config, name).None?
    ensures Lookup(PruneItems(config, Obj, idx, [], removed), name).None?
  {
    hide Prune;
    if config.Item? { AbsentStays(config.rest, name, removed, idx + 1); }
  }

  /* ---- plugins ---- */

  lemma {:induction false} PluginsFiltered(items: Items, s: Settings)
    ensures Elements(KeepPlugins(items, s)) == WithoutPlugins(Elements(items), s.plugin)
  {
    if items.Item? {
      PluginsFiltered(items.rest, s);
      assert Elements(items)[1..] == Elements(items.rest);
    }
  }

  lemma {:induction false} PluginsAreLeft(config: Items, key: string, s: Settings)
    requires UniqueItems(config, Obj) && key in PLUGIN_KEYS && s.host.Opencode?
    ensures PluginsLeft(config, CleanedItems(config, s), key, s)
  {
    hide Ascii, Part, Removals, PruneItems, Lookup, UniqueItems, CleanedItems, KeepPlugins, Elements, WithoutPlugins;
    var found, p := Lookup(config, Ascii(key)), [Named(Ascii(key))];
    if found.Some? && IsList(found.value) {
      PluginPart(config, key, s);
      FieldCleaned(config, key, s);
      PluginsAreThrough(config, key, s);
      assert [] + p == p;
      PluginsPruned(found.value.items, 0, p, s, PluginsRemoved(config, key, s));
      PluginsFiltered(found.value.items, s);
    }
  }

  /* ---- servers ---- */

  lemma {:induction false} OwnsIsOwn(servers: Items, s: Settings)
    ensures OwnsServer(servers, s) <==> ServerIsOwn(Lookup(servers, Ascii("ai-guardian")), s)
  {}

  lemma {:induction false} WithoutOwnLeft(servers: Items, s: Settings)
    requires UniqueItems(servers, Obj)
    ensures MappingLeft(servers, WithoutOwn(servers, s), s)
  {
    hide Ascii, Lookup, UniqueItems, Delete, OwnsServer, ServerIsOwn;
    OwnsIsOwn(servers, s);
    KeySets();
    forall name ensures Lookup(WithoutOwn(servers, s), name) == ServerLeft(servers, name, s) {
      if OwnsServer(servers, s) {
        if name == Ascii(GUARDIAN) { DeleteGone(servers, name); } else { DeleteOther(servers, Ascii(GUARDIAN), name); }
      }
    }
  }

  lemma {:induction false} ServersAreLeft(config: Items, key: string, s: Settings)
    requires UniqueItems(config, Obj) && key in MCP_KEYS
    ensures ServersLeft(config, CleanedItems(config, s), key, s)
  {
    hide Ascii, Part, Removals, Prune, PruneItems, Lookup, UniqueItems, CleanedItems, OwnsServer, WithoutOwn, MappingLeft, OuterLeft;
    var found, p := Lookup(config, Ascii(key)), [Named(Ascii(key))];
    if found.Some? && IsObj(found.value) {
      McpPart(config, key, s);
      FieldCleaned(config, key, s);
      McpIsThrough(config, key, s);
      assert [] + p == p;
      McpPruned(config, key, s);
      UniqueAt(config, Obj, Ascii(key));
      ContainerIsLeft(found.value.items, s, key == "mcp");
    }
  }

  // What McpPruned says a container is pruned to.
  function ContainerAfter(servers: Items, s: Settings, mcp: bool): Items {
    var nested, own := Lookup(servers, Ascii("servers")), WithoutOwn(servers, s);
    if mcp && nested.Some? && IsObj(nested.value) then Replace(own, Ascii("servers"), Container(Obj, WithoutOwn(nested.value.items, s))) else own
  }

  lemma {:induction false} ContainerIsLeft(servers: Items, s: Settings, mcp: bool)
    requires UniqueItems(servers, Obj)
    ensures var inner, after := ValueAt(servers, "servers"), ContainerAfter(servers, s, mcp);
      var nested := mcp && inner.Some? && IsObj(inner.value);
      && OuterLeft(servers, after, s, nested)
      && (nested ==>
          var left := ValueAt(after, "servers");
          left.Some? && IsObj(left.value) && MappingLeft(inner.value.items, left.value.items, s))
  {
    hide Ascii, Lookup, UniqueItems, OwnsServer, WithoutOwn, Replace, ServerLeft;
    WithoutOwnLeft(servers, s);
    var inner, own := Lookup(servers, Ascii("servers")), WithoutOwn(servers, s);
    if mcp && inner.Some? && IsObj(inner.value) {
      UniqueAt(servers, Obj, Ascii("servers"));
      WithoutOwnLeft(inner.value.items, s);
      ServersNameStays(servers, s);
      assert Lookup(own, Ascii("servers")) == ServerLeft(servers, Ascii("servers"), s);
      forall name ensures name == Ascii("servers") || Lookup(ContainerAfter(servers, s, mcp), name) == ServerLeft(servers, name, s) {
        ReplaceLooks(own, Ascii("servers"), Container(Obj, WithoutOwn(inner.value.items, s)), name);
      }
      ReplaceLooks(own, Ascii("servers"), Container(Obj, WithoutOwn(inner.value.items, s)), Ascii(""));
    }
  }

  lemma {:induction false} ServersNameStays(servers: Items, s: Settings)
    ensures ServerLeft(servers, Ascii("servers"), s) == Lookup(servers, Ascii("servers"))
  {
    hide Ascii, Lookup, ServerIsOwn;
    KeySets();
    GuardianIsNotServers();
  }

  /* ---- hooks ---- */

  lemma {:induction false} HooksAreLeft(config: Items, key: string, s: Settings)
    requires UniqueItems(config, Obj) && ShapeError(config, s.host).None? && !HooksDropped(config, s.own) && key in HookKeys(s.host)
    ensures HooksLeft(config, CleanedItems(config, s), key, s.own)
  {
    hide Ascii, Part, Removals, Prune, PruneItems, Lookup, UniqueItems, CleanedItems, Clean, Removed, Goes, ShapeError, StaysClean, ListIfPresent;
    KeySets();
    KeysAreApart();
    ShapeMeans(config, s);
    FieldCleaned(config, key, s);
    if Lookup(config, Ascii(key)).Some? {
      if key in EVENTS { EventStays(config, key, s); }
      HookPart(config, key, s);
      HookAgain(config, key, s);
    }
  }

  lemma {:induction false} EventStays(config: Items, key: string, s: Settings)
    requires ListIfPresent(config, key) && Lookup(config, Ascii(key)).Some?
    ensures !Goes(Lookup(config, Ascii(key)).value, s.own)
  {
    hide Goes, Ascii, Lookup;
    ListStays(Lookup(config, Ascii(key)).value, s.own);
  }

  lemma {:induction false} HookPart(config: Items, key: string, s: Settings)
    requires key in HookKeys(s.host)
    ensures key in KEYS && Part(config, key, s) == KeyRemoved(config, key, s.own)
  {
    hide KeyRemoved;
    KeySets();
    KeysAreApart();
  }

  lemma {:induction false} OwnEntryIsLeft(config: Items, s: Settings)
    requires UniqueItems(config, Obj) && s.host.Antigravity?
    ensures OwnEntryLeft(config, CleanedItems(config, s), s.own)
  {
    hide Ascii, Part, Removals, Prune, PruneItems, Lookup, Removed, Clean, UniqueItems, CleanedItems, Vanishes, FieldGoes;
    KeySets();
    GuardianPart(config, s);
    FieldCleaned(config, GUARDIAN, s);
    GuardianIsThrough(config, s.own);
    var found, p := Lookup(config, Ascii(GUARDIAN)), [Named(Ascii(GUARDIAN))];
    assert [] + p == p;
    if found.Some? {
      FieldGoesIs(found.value, s.own);
      UniqueAt(config, Obj, Ascii(GUARDIAN));
      if !FieldGoes(found.value, s.own) {
        KeptEntry(found.value, s.own);
        KeptIsPruned(config, found.value, Ascii(GUARDIAN), s.own);
        assert GuardianRemoved(config, s.own) == Removed(found.value, p, s.own);
      }
    }
  }

  // The cleaned configuration obeys all the laws.
  lemma {:induction false} CleanedObeys(config: Items, s: Settings)
    requires UniqueItems(config, Obj) && ShapeError(config, s.host).None? && !HooksDropped(config, s.own)
    ensures IsCleaned(config, CleanedItems(config, s), s)
  {
    hide HooksLeft, OwnEntryLeft, ServersLeft, PluginsLeft, CleanedItems, Lookup, Ascii, ShapeError, HooksDropped, UniqueItems, RuleKeys, HookKeys;
    KeySets();
    var after := CleanedItems(config, s);
    forall key | key in HookKeys(s.host) ensures HooksLeft(config, after, key, s.own) { HooksAreLeft(config, key, s); }
    if s.host.Antigravity? { OwnEntryIsLeft(config, s); }
    forall key | key in {"mcpServers", "mcp_servers", "mcp"} ensures ServersLeft(config, after, key, s) { ServersAreLeft(config, key, s); }
    if s.host.Opencode? {
      PluginsAreLeft(config, "plugin", s);
      PluginsAreLeft(config, "plugins", s);
    }
    forall name | forall key :: key in RuleKeys(s.host) ==> name != Ascii(key) ensures Lookup(after, name) == Lookup(config, name) {
      UnnamedStays(config, name, s);
    }
    forall name | Lookup(config, name).None? ensures Lookup(after, name).None? { AbsentAfter(config, name, s); }
  }

  lemma {:induction false} AbsentAfter(config: Items, name: Name, s: Settings)
    requires Lookup(config, name).None?
    ensures Lookup(CleanedItems(config, s), name).None?
  {
    hide Removals;
    AbsentStays(config, name, Removals(config, s), 0);
  }

  /* ---- what is reported ---- */

  lemma {:induction false} EventsReport(config: Items, n: nat, s: Settings, p: Problem)
    requires n <= |EVENTS|
    ensures p in EventsProblems(config, n, s) <==> exists i :: 0 <= i < n && p in KeyProblems(config, EVENTS[i], s)
  {
    hide KeyProblems;
    if n > 0 { EventsReport(config, n - 1, s, p); }
  }

  lemma {:induction false} ServersReport(config: Items, n: nat, s: Settings, p: Problem)
    requires n <= |MCP_KEYS|
    ensures p in McpAllProblems(config, n, s) <==> exists i :: 0 <= i < n && p in McpProblems(config, MCP_KEYS[i], s)
  {
    hide McpProblems;
    if n > 0 { ServersReport(config, n - 1, s, p); }
  }

  // The reports are those of each key.
  lemma {:induction false} ReportsAre(config: Items, s: Settings, p: Problem)
    ensures p in Reports(config, s) <==>
      (exists key :: CleanedKey(s.host, key) && p in KeyProblems(config, key, s))
      || (exists key :: key in MCP_KEYS && p in McpProblems(config, key, s))
  {
    hide KeyProblems, McpProblems, EventsProblems, McpAllProblems;
    KeySets();
    EventsReport(config, |EVENTS|, s, p);
    ServersReport(config, |MCP_KEYS|, s, p);
    assert CleanedKey(s.host, "hooks") && (s.host.Antigravity? ==> CleanedKey(s.host, GUARDIAN));
    if s.host.Copilot? && p in EventsProblems(config, |EVENTS|, s) {
      var i :| 0 <= i < |EVENTS| && p in KeyProblems(config, EVENTS[i], s);
      assert EVENTS[i] in EVENTS && CleanedKey(s.host, EVENTS[i]);
    }
    if p in McpAllProblems(config, |MCP_KEYS|, s) {
      var i :| 0 <= i < |MCP_KEYS| && p in McpProblems(config, MCP_KEYS[i], s);
      assert MCP_KEYS[i] in MCP_KEYS;
    }
    if key :| key in MCP_KEYS && p in McpProblems(config, key, s) {
      var i :| 0 <= i < |MCP_KEYS| && MCP_KEYS[i] == key;
    }
    if key :| CleanedKey(s.host, key) && p in KeyProblems(config, key, s) {
      if key in EVENTS {
        var i :| 0 <= i < |EVENTS| && EVENTS[i] == key;
      }
    }
  }

  lemma {:induction false} KeyReports(config: Items, key: string, s: Settings)
    ensures MixedCommands in KeyProblems(config, key, s) <==>
      ValueAt(config, key).Some? && exists e :: e in Met(ValueAt(config, key).value, s.own) && Mixed(e, s.own)
    ensures UnrecognizedHook in KeyProblems(config, key, s) <==>
      ValueAt(config, key).Some? && exists e :: e in Met(ValueAt(config, key).value, s.own) && Odd(e, s.own, s.odd)
    ensures UnrecognizedServer !in KeyProblems(config, key, s)
  {
    hide Ascii, Lookup, Problems, Met, Mixed, Odd;
    if ValueAt(config, key).Some? { ProblemsAreMet(ValueAt(config, key).value, s.own, s.odd); }
  }

  // An entry under the tool's name is reported when it is not its own, and that is when it is retained.
  lemma {:induction false} ServerReports(before: Items, after: Items, s: Settings)
    requires Lookup(after, Ascii("ai-guardian")) == ServerLeft(before, Ascii("ai-guardian"), s)
    ensures UnrecognizedServer in ServerProblems(before, s) <==> ValueAt(after, "ai-guardian").Some?
    ensures MixedCommands !in ServerProblems(before, s) && UnrecognizedHook !in ServerProblems(before, s)
  {
    hide Ascii, Lookup, ServerIsOwn, OwnsServer;
    KeySets();
    OwnsIsOwn(before, s);
  }

  lemma {:induction false} McpReports(config: Items, key: string, s: Settings)
    requires UniqueItems(config, Obj) && key in MCP_KEYS && ObjIfPresent(config, key)
    ensures UnrecognizedServer in McpProblems(config, key, s) <==> ServerRetained(CleanedItems(config, s), key)
    ensures MixedCommands !in McpProblems(config, key, s) && UnrecognizedHook !in McpProblems(config, key, s)
  {
    hide Ascii, Lookup, UniqueItems, CleanedItems, ServerProblems, ServerLeft;
    ServersAreLeft(config, key, s);
    if Lookup(config, Ascii(key)).None? { AbsentAfter(config, Ascii(key), s); }
    var b, a := ValueAt(config, key), ValueAt(CleanedItems(config, s), key);
    if b.Some? {
      ServerNameIsNotNested();
      ServerReports(b.value.items, a.value.items, s);
      var inner := ValueAt(b.value.items, "servers");
      if key == "mcp" && inner.Some? && IsObj(inner.value) {
        ServerReports(inner.value.items, ValueAt(a.value.items, "servers").value.items, s);
      } else if key == "mcp" {
        ServersNameStays(b.value.items, s);
        assert Lookup(a.value.items, Ascii("servers")) == ServerLeft(b.value.items, Ascii("servers"), s);
      }
    }
  }

  lemma {:induction false} ServerNameIsNotNested()
    ensures Ascii("ai-guardian") != Ascii("servers")
  {
    hide Ascii;
    KeySets();
    GuardianIsNotServers();
  }

  lemma {:induction false} ReportsObey(config: Items, s: Settings)
    requires UniqueItems(config, Obj) && ShapeError(config, s.host).None?
    ensures IsReported(config, CleanedItems(config, s), Reports(config, s), s)
  {
    hide Ascii, Lookup, UniqueItems, CleanedItems, ShapeError, Reports, KeyProblems, McpProblems, ServerRetained, Met, Mixed, Odd, CleanedKey,
      ValueAt, ObjIfPresent;
    KeySets();
    ShapeMeans(config, s);
    ReportsAre(config, s, MixedCommands);
    ReportsAre(config, s, UnrecognizedHook);
    ReportsAre(config, s, UnrecognizedServer);
    forall key
      ensures MixedCommands in KeyProblems(config, key, s) <==>
        ValueAt(config, key).Some? && exists e :: e in Met(ValueAt(config, key).value, s.own) && Mixed(e, s.own)
      ensures UnrecognizedHook in KeyProblems(config, key, s) <==>
        ValueAt(config, key).Some? && exists e :: e in Met(ValueAt(config, key).value, s.own) && Odd(e, s.own, s.odd)
      ensures UnrecognizedServer !in KeyProblems(config, key, s)
    {
      KeyReports(config, key, s);
    }
    forall key | key in MCP_KEYS
      ensures UnrecognizedServer in McpProblems(config, key, s) <==> ServerRetained(CleanedItems(config, s), key)
      ensures MixedCommands !in McpProblems(config, key, s) && UnrecognizedHook !in McpProblems(config, key, s)
    {
      McpReports(config, key, s);
    }
  }
}
