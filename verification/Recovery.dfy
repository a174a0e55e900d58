/** clean_json: what a run removes from a configuration and reports, key by key, and the run itself in memory. */
module Recovery {
  import opened Lexical
  import opened Syntax
  import opened Options
  import opened Values
  import opened Pruning
  import opened Hooks
  import opened Conditions

  datatype Problem = MixedCommands | UnrecognizedHook | UnrecognizedServer

  predicate AnyOdd(items: Items, odd: Owner) {
    exists i :: 0 <= i < |Commands(items)| && Commands(items)[i].Str? && odd(Commands(items)[i])
  }

  // What cleaning a value reports, in the order it reports it.
  function Problems(value: Json, own: Owner, odd: Owner): seq<Problem> {
    match value
    case Container(kind, items) =>
      if kind.Arr? then ProblemsOf(items, own, odd)
      else if AnyOwned(items, own) then (if AllOwned(items, own) then [] else [MixedCommands])
      else (if AnyOdd(items, odd) then [UnrecognizedHook] else []) + ProblemsOf(items, own, odd)
    case _ => []
  }

  function ProblemsOf(items: Items, own: Owner, odd: Owner): seq<Problem> {
    match items
    case Nil => []
    case Item(_, value, rest) => Problems(value, own, odd) + ProblemsOf(rest, own, odd)
  }

  function Append(a: Items, b: Items): Items {
    match a
    case Nil => b
    case Item(name, value, rest) => Item(name, value, Append(rest, b))
  }

  lemma {:induction false} AppendOne(a: Items, name: Name, value: Json, b: Items)
    ensures Append(Append(a, Item(name, value, Nil)), b) == Append(a, Item(name, value, b))
    ensures Append(a, Nil) == a
  {
    if a.Item? { AppendOne(a.rest, name, value, b); }
  }

  /* ---- dictionaries ---- */

  function Replace(items: Items, name: Name, value: Json): Items {
    match items
    case Nil => Nil
    case Item(n, v, rest) => if n == name then Item(n, value, rest) else Item(n, v, Replace(rest, name, value))
  }

  function Delete(items: Items, name: Name): Items {
    match items
    case Nil => Nil
    case Item(n, v, rest) => if n == name then rest else Item(n, v, Delete(rest, name))
  }

  // Paths that go through a field of the object at path.
  predicate Through(q: Path, path: Path, name: Name) { path + [Named(name)] <= q }

  predicate NoneThrough(paths: set<Path>, path: Path, name: Name) {
    forall q :: q in paths ==> !Through(q, path, name)
  }

  predicate AllThrough(paths: set<Path>, path: Path, name: Name) {
    forall q :: q in paths ==> Through(q, path, name)
  }

  lemma {:induction false} ThroughOne(paths: set<Path>, path: Path, name: Name, other: Name)
    requires AllThrough(paths, path, name) && name != other
    ensures NoneThrough(paths, path, other)
  {
    forall q | q in paths ensures !Through(q, path, other) {
      assert Through(q, path, name);
      var a, b := path + [Named(name)], path + [Named(other)];
      assert a[|path|] == Named(name) && b[|path|] == Named(other);
    }
  }

  // Paths through other fields do not matter to a field's value.
  lemma {:induction false} PruneElsewhere(value: Json, path: Path, name: Name, a: set<Path>, b: set<Path>)
    requires NoneThrough(b, path, name)
    ensures Prune(value, path + [Named(name)], a + b) == Prune(value, path + [Named(name)], a)
    ensures path + [Named(name)] !in b
  {
    var p := path + [Named(name)];
    assert Through(p, path, name);
    forall q | p < q ensures q in a + b <==> q in a { assert Through(q, path, name); }
    PruneLocal(value, p, a + b, a);
  }

  // Before a field is dealt with, its value is the original one.
  lemma {:induction false} NotYetTouched(items: Items, idx: nat, path: Path, name: Name, removed: set<Path>)
    requires NoneThrough(removed, path, name)
    ensures Lookup(PruneItems(items, Obj, idx, path, removed), name) == Lookup(items, name)
  {
    hide Prune, Through;
    if items.Item? {
      NotYetTouched(items.rest, idx + 1, path, name, removed);
      if items.name == name {
        PruneElsewhere(items.value, path, name, {}, removed);
        assert {} + removed == removed;
        PruneNothing(items.value, path + [Named(name)], {});
      }
    }
  }

  lemma {:induction false} PruneWithout(items: Items, idx: nat, path: Path, name: Name, a: set<Path>, b: set<Path>)
    requires !HasName(items, name) && AllThrough(b, path, name)
    ensures PruneItems(items, Obj, idx, path, a + b) == PruneItems(items, Obj, idx, path, a)
  {
    hide Prune, AllThrough, NoneThrough;
    if items.Item? {
      PruneWithout(items.rest, idx + 1, path, name, a, b);
      ThroughOne(b, path, name, items.name);
      PruneElsewhere(items.value, path, items.name, a, b);
    }
  }

  // Pruning below one field more is replacing that field's value ...
  lemma {:induction false} PruneReplaces(items: Items, idx: nat, path: Path, name: Name, a: set<Path>, b: set<Path>)
    requires UniqueItems(items, Obj) && Lookup(items, name).Some?
    requires NoneThrough(a, path, name) && AllThrough(b, path, name) && path + [Named(name)] !in b
    ensures PruneItems(items, Obj, idx, path, a + b)
      == Replace(PruneItems(items, Obj, idx, path, a), name, Prune(Lookup(items, name).value, path + [Named(name)], b))
  {
    hide Prune, AllThrough, NoneThrough, Unique;
    if items.name == name {
      PruneElsewhere(items.value, path, name, b, a);
      assert a + b == b + a;
      PruneWithout(items.rest, idx + 1, path, name, a, b);
    } else {
      ThroughOne(b, path, name, items.name);
      PruneElsewhere(items.value, path, items.name, a, b);
      PruneReplaces(items.rest, idx + 1, path, name, a, b);
    }
  }

  // ... and removing the field's own path is deleting the field.
  lemma {:induction false} PruneDeletes(items: Items, idx: nat, path: Path, name: Name, a: set<Path>, b: set<Path>)
    requires UniqueItems(items, Obj) && Lookup(items, name).Some?
    requires NoneThrough(a, path, name) && AllThrough(b, path, name) && path + [Named(name)] in b
    ensures PruneItems(items, Obj, idx, path, a + b) == Delete(PruneItems(items, Obj, idx, path, a), name)
  {
    hide Prune, AllThrough, NoneThrough, Unique;
    if items.name == name {
      PruneElsewhere(items.value, path, name, b, a);
      PruneWithout(items.rest, idx + 1, path, name, a, b);
    } else {
      ThroughOne(b, path, name, items.name);
      PruneElsewhere(items.value, path, items.name, a, b);
      PruneDeletes(items.rest, idx + 1, path, name, a, b);
    }
  }

  /* ---- clean_json: the settings, the errors and what is to be removed ---- */

  datatype Host = Copilot | Gemini | Antigravity | Opencode | OtherHost

  // The environment of a run: which host the file belongs to, and the ownership tests, which are not
  // modelled further: of a hook command, of the head of a compound command, of a server's command and
  // arguments, of a plugin entry.
  datatype Settings = Settings(host: Host, own: Owner, odd: Owner,
                               server: (Option<Json>, Option<Json>) -> bool, plugin: Name -> bool)

  datatype CleanError =
    | Unreadable | NotAnObject | BadEvents | BadHooks | BadMcp | BadServers | BadPlugins | VerificationFailed

  datatype CleanResult = Refused(error: CleanError) | Edited(output: string, problems: seq<Problem>)

  const EVENTS: seq<string> := ["userPromptSubmitted", "preToolUse", "postToolUse", "sessionStart", "sessionEnd"]
  const MCP_KEYS: seq<string> := ["mcpServers", "mcp_servers", "mcp"]
  const PLUGIN_KEYS: seq<string> := ["plugin", "plugins"]
  const GUARDIAN := "ai-guardian"

  predicate IsArr(value: Json) { value.Container? && value.kind.Arr? }

  predicate IsObj(value: Json) { value.Container? && value.kind.Obj? }

  predicate ListIfPresent(config: Items, key: string) {
    var found := Lookup(config, Ascii(key));
    found.Some? ==> IsArr(found.value)
  }

  predicate HooksFit(config: Items, host: Host) {
    var found := Lookup(config, Ascii("hooks"));
    found.Some? ==> IsObj(found.value) || (host.Gemini? && IsArr(found.value))
  }

  predicate ObjIfPresent(config: Items, key: string) {
    var found := Lookup(config, Ascii(key));
    found.Some? ==> IsObj(found.value)
  }

  predicate ServersFit(config: Items) {
    var found := Lookup(config, Ascii("mcp"));
    found.Some? && IsObj(found.value) ==> ObjIfPresent(found.value.items, "servers")
  }

  // The complaint about the containers of a configuration, if there is one.
  function ShapeError(config: Items, host: Host): Option<CleanError> {
    if host.Copilot? && exists i :: 0 <= i < |EVENTS| && !ListIfPresent(config, EVENTS[i]) then Some(BadEvents)
    else if !HooksFit(config, host) then Some(BadHooks)
    else if exists i :: 0 <= i < |MCP_KEYS| && !ObjIfPresent(config, MCP_KEYS[i]) then Some(BadMcp)
    else if !ServersFit(config) then Some(BadServers)
    else if host.Opencode? && exists i :: 0 <= i < |PLUGIN_KEYS| && !ListIfPresent(config, PLUGIN_KEYS[i]) then Some(BadPlugins)
    else None
  }

  // Whether the hooks container itself is dropped.
  predicate HooksDropped(config: Items, own: Owner) {
    var found := Lookup(config, Ascii("hooks"));
    found.Some? && Goes(found.value, own)
  }

  function KeyRemoved(config: Items, key: string, own: Owner): set<Path> {
    var found := Lookup(config, Ascii(key));
    if found.Some? then Removed(found.value, [Named(Ascii(key))], own) else {}
  }

  function GuardianRemoved(config: Items, own: Owner): set<Path> {
    var found := Lookup(config, Ascii(GUARDIAN));
    KeyRemoved(config, GUARDIAN, own)
    + (if found.Some? && Vanishes(found.value, Clean(found.value, own)) then {[Named(Ascii(GUARDIAN))]} else {})
  }

  predicate OwnsServer(servers: Items, s: Settings) {
    var found := Lookup(servers, Ascii(GUARDIAN));
    found.Some? && IsObj(found.value)
    && s.server(Lookup(found.value.items, Ascii("command")), Lookup(found.value.items, Ascii("args")))
  }

  function ServerRemoved(servers: Items, path: Path, s: Settings): set<Path> {
    if OwnsServer(servers, s) then {path + [Named(Ascii(GUARDIAN))]} else {}
  }

  function McpRemoved(config: Items, key: string, s: Settings): set<Path> {
    var found := Lookup(config, Ascii(key));
    if found.Some? && IsObj(found.value) then
      var path := [Named(Ascii(key))];
      var nested := Lookup(found.value.items, Ascii("servers"));
      ServerRemoved(found.value.items, path, s)
      + (if key == "mcp" && nested.Some? && IsObj(nested.value)
         then ServerRemoved(nested.value.items, path + [Named(Ascii("servers"))], s) else {})
    else {}
  }

  predicate IsPlugin(value: Json, s: Settings) { value.Str? && s.plugin(value.chars) }

  function PluginsRemovedFrom(items: Items, idx: nat, path: Path, s: Settings): set<Path> {
    match items
    case Nil => {}
    case Item(_, value, rest) =>
      (if IsPlugin(value, s) then {path + [Index(idx)]} else {}) + PluginsRemovedFrom(rest, idx + 1, path, s)
  }

  function PluginsRemoved(config: Items, key: string, s: Settings): set<Path> {
    var found := Lookup(config, Ascii(key));
    if found.Some? && IsArr(found.value) then PluginsRemovedFrom(found.value.items, 0, [Named(Ascii(key))], s) else {}
  }

  // Everything a run removes from a configuration.
  function Removals(config: Items, s: Settings): set<Path> {
    (if s.host.Copilot? then EventsRemoved(config, |EVENTS|, s.own) else {})
    + KeyRemoved(config, "hooks", s.own)
    + (if s.host.Antigravity? then GuardianRemoved(config, s.own) else {})
    + McpAllRemoved(config, |MCP_KEYS|, s)
    + (if s.host.Opencode? then PluginsAllRemoved(config, |PLUGIN_KEYS|, s) else {})
  }

  // What the first n MCP containers, and the first n plugin lists, contribute.
  function McpAllRemoved(config: Items, n: nat, s: Settings): set<Path>
    requires n <= |MCP_KEYS|
  {
    if n == 0 then {} else McpAllRemoved(config, n - 1, s) + McpRemoved(config, MCP_KEYS[n - 1], s)
  }

  function PluginsAllRemoved(config: Items, n: nat, s: Settings): set<Path>
    requires n <= |PLUGIN_KEYS|
  {
    if n == 0 then {} else PluginsAllRemoved(config, n - 1, s) + PluginsRemoved(config, PLUGIN_KEYS[n - 1], s)
  }

  // What the first n events contribute.
  function EventsRemoved(config: Items, n: nat, own: Owner): set<Path>
    requires n <= |EVENTS|
  {
    if n == 0 then {} else EventsRemoved(config, n - 1, own) + KeyRemoved(config, EVENTS[n - 1], own)
  }

  /* ---- what is reported ---- */

  function KeyProblems(config: Items, key: string, s: Settings): seq<Problem> {
    var found := Lookup(config, Ascii(key));
    if found.Some? then Problems(found.value, s.own, s.odd) else []
  }

  function EventsProblems(config: Items, n: nat, s: Settings): seq<Problem>
    requires n <= |EVENTS|
  {
    if n == 0 then [] else EventsProblems(config, n - 1, s) + KeyProblems(config, EVENTS[n - 1], s)
  }

  // A server under the tool's own name that is not its own.
  function ServerProblems(servers: Items, s: Settings): seq<Problem> {
    if Lookup(servers, Ascii(GUARDIAN)).Some? && !OwnsServer(servers, s) then [UnrecognizedServer] else []
  }

  function McpProblems(config: Items, key: string, s: Settings): seq<Problem> {
    var found := Lookup(config, Ascii(key));
    if found.Some? && IsObj(found.value) then
      var nested := Lookup(found.value.items, Ascii("servers"));
      ServerProblems(found.value.items, s)
      + (if key == "mcp" && nested.Some? && IsObj(nested.value) then ServerProblems(nested.value.items, s) else [])
    else []
  }

  function Reports(config: Items, s: Settings): seq<Problem> {
    (if s.host.Copilot? then EventsProblems(config, |EVENTS|, s) else [])
    + KeyProblems(config, "hooks", s)
    + (if s.host.Antigravity? then KeyProblems(config, GUARDIAN, s) else [])
    + McpAllProblems(config, |MCP_KEYS|, s)
  }

  function McpAllProblems(config: Items, n: nat, s: Settings): seq<Problem>
    requires n <= |MCP_KEYS|
  {
    if n == 0 then [] else McpAllProblems(config, n - 1, s) + McpProblems(config, MCP_KEYS[n - 1], s)
  }

  /* ---- one key at a time ---- */

  lemma {:induction false} AsciiIsInjective(a: string, b: string)
    requires Ascii(a) == Ascii(b)
    ensures a == b
  {
    forall i | 0 <= i < |a| ensures a[i] == b[i] { assert Ascii(a)[i] == Ascii(b)[i]; }
  }

  // All paths go through keys already dealt with.
  ghost predicate DoneOnly(removed: set<Path>, done: set<string>) {
    forall q :: q in removed ==> q != [] && exists k :: k in done && q[0] == Named(Ascii(k))
  }

  lemma {:induction false} FreshKey(removed: set<Path>, done: set<string>, key: string)
    requires DoneOnly(removed, done) && key !in done
    ensures NoneThrough(removed, [], Ascii(key))
  {
    hide Ascii;
    forall q | q in removed ensures !Through(q, [], Ascii(key)) {
      var k :| k in done && q[0] == Named(Ascii(k));
      if Ascii(k) == Ascii(key) { AsciiIsInjective(k, key); }
      assert [] + [Named(Ascii(key))] == [Named(Ascii(key))];
    }
  }

  lemma {:induction false} MoreDone(removed: set<Path>, extra: set<Path>, done: set<string>, key: string)
    requires DoneOnly(removed, done) && AllThrough(extra, [], Ascii(key))
    ensures DoneOnly(removed + extra, done + {key})
  {}

  // What cleaning a key's value records goes through that key; the key itself just when it is dropped.
  lemma {:induction false} KeyIsThrough(value: Json, name: Name, own: Owner)
    ensures AllThrough(Removed(value, [Named(name)], own), [], name)
    ensures [] + [Named(name)] in Removed(value, [Named(name)], own) <==> Clean(value, own).Drop?
  {
    hide Removed, Clean;
    RemovedBelow(value, [Named(name)], own);
    assert [] + [Named(name)] == [Named(name)];
  }

  lemma {:induction false} UniqueAt(items: Items, kind: Kind, name: Name)
    requires UniqueItems(items, kind) && Lookup(items, name).Some?
    ensures Unique(Lookup(items, name).value)
  {
    if items.name != name { UniqueAt(items.rest, kind, name); }
  }

  lemma {:induction false} KeptIsPruned(config: Items, value: Json, name: Name, own: Owner)
    requires UniqueItems(config, Obj) && Lookup(config, name) == Some(value) && Clean(value, own).Keep?
    ensures Prune(value, [] + [Named(name)], Removed(value, [Named(name)], own)) == Clean(value, own).value
  {
    hide Removed, Clean, Prune, Lookup, UniqueItems;
    UniqueAt(config, Obj, name);
    assert [] + [Named(name)] == [Named(name)];
    CleanPrunes(value, [Named(name)], own, Removed(value, [Named(name)], own));
  }

  function FirstOf(keys: seq<string>, n: nat): set<string>
    requires n <= |keys|
  {
    if n == 0 then {} else FirstOf(keys, n - 1) + {keys[n - 1]}
  }

  lemma {:induction false} FirstOfMeans(keys: seq<string>, n: nat, key: string)
    requires n <= |keys|
    ensures key in FirstOf(keys, n) <==> exists i :: 0 <= i < n && keys[i] == key
  {
    if n > 0 { FirstOfMeans(keys, n - 1, key); }
  }

  lemma {:induction false} EventsDiffer(i: nat)
    requires i < |EVENTS|
    ensures EVENTS[i] !in FirstOf(EVENTS, i)
  {
    FirstOfMeans(EVENTS, i, EVENTS[i]);
    assert "preToolUse"[0] != "sessionEnd"[0];
  }

  lemma {:induction false} NothingAtKey(config: Items, key: string, s: Settings)
    ensures Lookup(config, Ascii(key)).None? ==> KeyRemoved(config, key, s.own) == {} && KeyProblems(config, key, s) == []
  {}

  /* ---- server containers ---- */

  function WithoutOwn(servers: Items, s: Settings): Items {
    if OwnsServer(servers, s) then Delete(servers, Ascii(GUARDIAN)) else servers
  }

  lemma {:induction false} OwnServerDeleted(servers: Items, path: Path, s: Settings)
    requires UniqueItems(servers, Obj)
    ensures PruneItems(servers, Obj, 0, path, ServerRemoved(servers, path, s)) == WithoutOwn(servers, s)
  {
    hide Ascii, Lookup, PruneItems, UniqueItems;
    PruneNoItems(servers, Obj, 0, path, {});
    if OwnsServer(servers, s) {
      var gone := {path + [Named(Ascii(GUARDIAN))]};
      PruneDeletes(servers, 0, path, Ascii(GUARDIAN), {}, gone);
      assert {} + gone == gone;
    }
  }

  lemma {:induction false} GuardianIsNotServers()
    ensures Ascii(GUARDIAN) != Ascii("servers")
  {}

  // Deleting the tool's own server from a container, and from the servers in it, is pruning the container.
  lemma {:induction false} NestedServerDeleted(servers: Items, path: Path, s: Settings)
    requires UniqueItems(servers, Obj)
    requires Lookup(servers, Ascii("servers")).Some? && IsObj(Lookup(servers, Ascii("servers")).value)
    ensures var nested := Lookup(servers, Ascii("servers")).value.items;
      var inner := path + [Named(Ascii("servers"))];
      PruneItems(servers, Obj, 0, path, ServerRemoved(servers, path, s) + ServerRemoved(nested, inner, s))
      == Replace(PruneItems(servers, Obj, 0, path, ServerRemoved(servers, path, s)), Ascii("servers"),
                 Container(Obj, WithoutOwn(nested, s)))
  {
    hide Ascii, Lookup, PruneItems, UniqueItems, OwnsServer;
    var value := Lookup(servers, Ascii("servers")).value;
    var inner := path + [Named(Ascii("servers"))];
    var a, b := ServerRemoved(servers, path, s), ServerRemoved(value.items, inner, s);
    UniqueAt(servers, Obj, Ascii("servers"));
    GuardianIsNotServers();
    assert AllThrough(a, path, Ascii(GUARDIAN));
    ThroughOne(a, path, Ascii(GUARDIAN), Ascii("servers"));
    OwnServerDeleted(value.items, inner, s);
    PruneReplaces(servers, 0, path, Ascii("servers"), a, b);
  }

  // What an MCP key contributes goes through the key, and below it.
  lemma {:induction false} McpIsThrough(config: Items, key: string, s: Settings)
    ensures AllThrough(McpRemoved(config, key, s), [], Ascii(key)) && [] + [Named(Ascii(key))] !in McpRemoved(config, key, s)
  {}

  lemma {:induction false} McpPruned(config: Items, key: string, s: Settings)
    requires UniqueItems(config, Obj) && Lookup(config, Ascii(key)).Some? && IsObj(Lookup(config, Ascii(key)).value)
    ensures var servers := Lookup(config, Ascii(key)).value.items;
      var nested := Lookup(servers, Ascii("servers"));
      var own := WithoutOwn(servers, s);
      var kept := if key == "mcp" && nested.Some? && IsObj(nested.value)
                  then Replace(own, Ascii("servers"), Container(Obj, WithoutOwn(nested.value.items, s))) else own;
      Prune(Lookup(config, Ascii(key)).value, [] + [Named(Ascii(key))], McpRemoved(config, key, s)) == Container(Obj, kept)
  {
    hide Ascii, Lookup, UniqueItems, OwnsServer, PruneItems;
    var value := Lookup(config, Ascii(key)).value;
    var path := [Named(Ascii(key))];
    assert [] + path == path;
    UniqueAt(config, Obj, Ascii(key));
    OwnServerDeleted(value.items, path, s);
    var nested := Lookup(value.items, Ascii("servers"));
    var a := ServerRemoved(value.items, path, s);
    if key == "mcp" && nested.Some? && IsObj(nested.value) {
      NestedServerDeleted(value.items, path, s);
    } else {
      assert a + {} == a;
    }
  }

  /* ---- plugin lists ---- */

  function KeepPlugins(items: Items, s: Settings): Items {
    match items
    case Nil => Nil
    case Item(name, value, rest) => if IsPlugin(value, s) then KeepPlugins(rest, s) else Item(name, value, KeepPlugins(rest, s))
  }

  lemma {:induction false} PluginsBelow(items: Items, idx: nat, path: Path, s: Settings)
    ensures forall q :: q in PluginsRemovedFrom(items, idx, path, s) ==> |q| == |path| + 1 && ThroughElement(q, path, idx)
  {
    if items.Item? { PluginsBelow(items.rest, idx + 1, path, s); }
  }

  lemma {:induction false} PluginsPruned(items: Items, idx: nat, path: Path, s: Settings, removed: set<Path>)
    requires forall q :: ThroughElement(q, path, idx) ==> (q in removed <==> q in PluginsRemovedFrom(items, idx, path, s))
    ensures PruneItems(items, Arr, idx, path, removed) == KeepPlugins(items, s)
  {
    hide IsPlugin, Prune;
    if items.Item? {
      var p := path + [Index(idx)];
      PluginsBelow(items, idx, path, s);
      PluginsBelow(items.rest, idx + 1, path, s);
      assert ThroughElement(p, path, idx);
      forall q | p < q ensures q !in removed { assert ThroughElement(q, path, idx); }
      PruneNothing(items.value, p, removed);
      forall q | ThroughElement(q, path, idx + 1)
        ensures q in removed <==> q in PluginsRemovedFrom(items.rest, idx + 1, path, s)
      {
        assert ThroughElement(q, path, idx) && q != p;
      }
      PluginsPruned(items.rest, idx + 1, path, s, removed);
    }
  }

  lemma {:induction false} PluginsAreThrough(config: Items, key: string, s: Settings)
    ensures AllThrough(PluginsRemoved(config, key, s), [], Ascii(key)) && [] + [Named(Ascii(key))] !in PluginsRemoved(config, key, s)
  {
    hide Ascii, Lookup;
    assert [] + [Named(Ascii(key))] == [Named(Ascii(key))];
    var found := Lookup(config, Ascii(key));
    if found.Some? && IsArr(found.value) { PluginsBelow(found.value.items, 0, [Named(Ascii(key))], s); }
  }

  lemma {:induction false} GuardianIsThrough(config: Items, own: Owner)
    ensures AllThrough(GuardianRemoved(config, own), [], Ascii(GUARDIAN))
    ensures var found := Lookup(config, Ascii(GUARDIAN));
      [] + [Named(Ascii(GUARDIAN))] in GuardianRemoved(config, own) <==>
      found.Some? && Vanishes(found.value, Clean(found.value, own))
  {
    hide Ascii, Lookup, Clean, Removed;
    assert [] + [Named(Ascii(GUARDIAN))] == [Named(Ascii(GUARDIAN))];
    var found := Lookup(config, Ascii(GUARDIAN));
    if found.Some? { KeyIsThrough(found.value, Ascii(GUARDIAN), own); }
  }

  lemma {:induction false} ServersDiffer(i: nat)
    requires i < |MCP_KEYS|
    ensures MCP_KEYS[i] !in FirstOf(MCP_KEYS, i)
  {
    FirstOfMeans(MCP_KEYS, i, MCP_KEYS[i]);
  }

  lemma {:induction false} PluginsDiffer(i: nat)
    requires i < |PLUGIN_KEYS|
    ensures PLUGIN_KEYS[i] !in FirstOf(PLUGIN_KEYS, i)
  {}

  lemma {:induction false} NotAnEvent(key: string)
    requires forall i :: 0 <= i < |EVENTS| ==> EVENTS[i] != key
    ensures key !in FirstOf(EVENTS, |EVENTS|)
  {
    FirstOfMeans(EVENTS, |EVENTS|, key);
  }

  // The keys of the five groups are pairwise different.
  lemma {:induction false} KeysDiffer()
    ensures var early := FirstOf(EVENTS, |EVENTS|); var middle := early + {"hooks", GUARDIAN};
      && "hooks" !in early && GUARDIAN !in early + {"hooks"}
      && (forall i :: 0 <= i < |MCP_KEYS| ==> MCP_KEYS[i] !in middle)
      && (forall i :: 0 <= i < |PLUGIN_KEYS| ==> PLUGIN_KEYS[i] !in middle + FirstOf(MCP_KEYS, |MCP_KEYS|))
  {
    NotAnEvent("hooks");
    NotAnEvent(GUARDIAN);
    assert "mcpServers"[0] != "preToolUse"[0] && "mcpServers"[0] != "sessionEnd"[0];
    assert "mcp_servers"[0] != "postToolUse"[0] && GUARDIAN[0] != "postToolUse"[0] && GUARDIAN[0] != "mcp_servers"[0];
    forall i | 0 <= i < |MCP_KEYS| ensures MCP_KEYS[i] !in FirstOf(EVENTS, |EVENTS|) && MCP_KEYS[i] != "hooks" && MCP_KEYS[i] != GUARDIAN {
      NotAnEvent(MCP_KEYS[i]);
    }
    forall i | 0 <= i < |PLUGIN_KEYS| ensures PLUGIN_KEYS[i] !in FirstOf(EVENTS, |EVENTS|) && PLUGIN_KEYS[i] !in FirstOf(MCP_KEYS, |MCP_KEYS|) {
      NotAnEvent(PLUGIN_KEYS[i]);
      FirstOfMeans(MCP_KEYS, |MCP_KEYS|, PLUGIN_KEYS[i]);
    }
  }

  lemma {:induction false} LoadedIsUnique(text: string)
    ensures LoadJson(text).Some? ==> Unique(LoadJson(text).value)
    ensures LoadJson(text).Some? && IsObj(LoadJson(text).value) ==> UniqueItems(LoadJson(text).value.items, Obj)
  {}

  lemma {:induction false} DroppedIsRemoved(config: Items, s: Settings)
    requires UniqueItems(config, Obj)
    ensures HooksDropped(config, s.own) ==> Removals(config, s) != {}
  {
    hide Goes, Clean, Removed, Ascii;
    var found := Lookup(config, Ascii("hooks"));
    if found.Some? {
      LookupIsUnique(config, Ascii("hooks"));
      GoesIsDropped(found.value, s.own);
      RemovedBelow(found.value, [Named(Ascii("hooks"))], s.own);
    }
  }

  // The run of clean_json over one configuration. The sentinel is the object clean_hooks returns for a value
  // to drop; clean_json stores even that under hooks.
  class Cleaner {
    const settings: Settings
    var expected: Items
    var sentinel: bool
    var removed: set<Path>
    var problems: seq<Problem>

    constructor (settings: Settings, config: Items)
      ensures this.settings == settings && expected == config && !sentinel && removed == {} && problems == []
    {
      this.settings := settings;
      expected, sentinel := config, false;
      removed, problems := {}, [];
    }

    // clean_hooks: the cleaned value; removals and problems are added to what is already recorded.
    method CleanHooks(value: Json, path: Path) returns (r: Cleaned)
      modifies `removed, `problems
      ensures r == Clean(value, settings.own)
      ensures removed == old(removed) + Removed(value, path, settings.own)
      ensures problems == old(problems) + Problems(value, settings.own, settings.odd)
      decreases value, 1
    {
      hide CleanElements, CleanFields, RemovedElements, RemovedFields, ProblemsOf, AnyOwned, AllOwned, AnyOdd, HooksGone;
      if !value.Container? { return Keep(value); }
      if value.kind.Arr? {
        var cleaned := CleanList(value.items, path);
        return Keep(Container(Arr, cleaned));
      }
      if AnyOwned(value.items, settings.own) {
        if AllOwned(value.items, settings.own) {
          removed := removed + {path};
          return Drop;
        }
        problems := problems + [MixedCommands];
        return Keep(value);
      }
      if AnyOdd(value.items, settings.odd) {
        problems := problems + [UnrecognizedHook];
      }
      var result := CleanDict(value.items, path);
      if HooksGone(value.items, result) {
        removed := removed + {path};
        return Drop;
      }
      r := Keep(Container(Obj, result));
    }

    // The loop over the elements of a list.
    method CleanList(items: Items, path: Path) returns (cleaned: Items)
      modifies `removed, `problems
      ensures cleaned == CleanElements(items, settings.own)
      ensures removed == old(removed) + RemovedElements(items, 0, path, settings.own)
      ensures problems == old(problems) + ProblemsOf(items, settings.own, settings.odd)
      decreases items, 0
    {
      hide Clean, Removed, Problems;
      var rest, index := items, 0;
      cleaned := Nil;
      while rest.Item?
        invariant index >= 0 && (rest == items || rest < items)
        invariant Append(cleaned, CleanElements(rest, settings.own)) == CleanElements(items, settings.own)
        invariant removed + RemovedElements(rest, index, path, settings.own) == old(removed) + RemovedElements(items, 0, path, settings.own)
        invariant problems + ProblemsOf(rest, settings.own, settings.odd) == old(problems) + ProblemsOf(items, settings.own, settings.odd)
        decreases rest
      {
        var result := CleanHooks(rest.value, path + [Index(index)]);
        if result.Keep? {
          AppendOne(cleaned, rest.name, result.value, CleanElements(rest.rest, settings.own));
          cleaned := Append(cleaned, Item(rest.name, result.value, Nil));
        }
        rest, index := rest.rest, index + 1;
      }
      AppendOne(cleaned, [], Scalar(""), Nil);
    }

    // The loop over the fields of an object.
    method CleanDict(items: Items, path: Path) returns (result: Items)
      modifies `removed, `problems
      ensures result == CleanFields(items, settings.own)
      ensures removed == old(removed) + RemovedFields(items, path, settings.own)
      ensures problems == old(problems) + ProblemsOf(items, settings.own, settings.odd)
      decreases items, 0
    {
      hide Clean, Removed, Problems, Vanishes;
      var rest := items;
      result := Nil;
      while rest.Item?
        invariant rest == items || rest < items
        invariant Append(result, CleanFields(rest, settings.own)) == CleanFields(items, settings.own)
        invariant removed + RemovedFields(rest, path, settings.own) == old(removed) + RemovedFields(items, path, settings.own)
        invariant problems + ProblemsOf(rest, settings.own, settings.odd) == old(problems) + ProblemsOf(items, settings.own, settings.odd)
        decreases rest
      {
        var p := path + [Named(rest.name)];
        var cleaned := CleanHooks(rest.value, p);
        if Vanishes(rest.value, cleaned) {
          removed := removed + {p};
        } else {
          VanishingDrop(rest.value);
          AppendOne(result, rest.name, cleaned.value, CleanFields(rest.rest, settings.own));
          result := Append(result, Item(rest.name, cleaned.value, Nil));
        }
        rest := rest.rest;
      }
      AppendOne(result, [], Scalar(""), Nil);
    }
    // The work so far: what is expected is the configuration pruned at the recorded paths, all of which go
    // through keys already dealt with. While the sentinel stands under hooks, expected lacks that key.
    ghost predicate Tracks(config: Items, done: set<string>)
      reads this
    {
      && UniqueItems(config, Obj)
      && expected == PruneItems(config, Obj, 0, [], removed)
      && DoneOnly(removed, done)
    }

    // Cleans one top-level value as clean_hooks does; true when it is to be dropped.
    method CleanKey(key: string, ghost config: Items, ghost done: set<string>) returns (gone: bool)
      requires Tracks(config, done) && key !in done && Lookup(expected, Ascii(key)).Some?
      modifies this
      ensures Tracks(config, done + {key})
      ensures Lookup(config, Ascii(key)).Some? && gone == Clean(Lookup(config, Ascii(key)).value, settings.own).Drop?
      ensures removed == old(removed) + KeyRemoved(config, key, settings.own) && sentinel == old(sentinel)
      ensures problems == old(problems) + KeyProblems(config, key, settings)
    {
      hide Clean, Removed, Lookup, PruneItems, Prune, Problems, Ascii, AllThrough, NoneThrough, UniqueItems, DoneOnly;
      var name := Ascii(key);
      FreshKey(removed, done, key);
      NotYetTouched(config, 0, [], name, removed);
      ghost var was := removed;
      var value := Lookup(expected, name).value;
      ghost var extra := Removed(value, [Named(name)], settings.own);
      var r := CleanHooks(value, [Named(name)]);
      KeyIsThrough(value, name, settings.own);
      if r.Keep? {
        KeptIsPruned(config, value, name, settings.own);
        PruneReplaces(config, 0, [], name, was, extra);
        expected := Replace(expected, name, r.value);
      } else {
        PruneDeletes(config, 0, [], name, was, extra);
        expected := Delete(expected, name);
      }
      gone := r.Drop?;
      MoreDone(was, extra, done, key);
    }

    // The event lists of a Copilot file; false when one of them is not a list.
    method CleanEvents(ghost config: Items) returns (ok: bool)
      requires Tracks(config, {}) && removed == {} && problems == []
      modifies this
      ensures ok <==> forall i :: 0 <= i < |EVENTS| ==> ListIfPresent(config, EVENTS[i])
      ensures ok ==> Tracks(config, FirstOf(EVENTS, |EVENTS|)) && removed == EventsRemoved(config, |EVENTS|, settings.own)
      ensures ok ==> problems == EventsProblems(config, |EVENTS|, settings)
      ensures sentinel == old(sentinel)
    {
      hide KeyRemoved, KeyProblems, Lookup, PruneItems, Ascii, UniqueItems, DoneOnly, Tracks;
      for i := 0 to |EVENTS|
        invariant Tracks(config, FirstOf(EVENTS, i)) && removed == EventsRemoved(config, i, settings.own)
        invariant problems == EventsProblems(config, i, settings)
        invariant forall j :: 0 <= j < i ==> ListIfPresent(config, EVENTS[j])
        invariant sentinel == old(sentinel)
      {
        EventsDiffer(i);
        Untouched(config, FirstOf(EVENTS, i), EVENTS[i]);
        var found := Lookup(expected, Ascii(EVENTS[i]));
        NothingAtKey(config, EVENTS[i], settings);
        if found.Some? {
          if !IsArr(found.value) { return false; }
          var gone := CleanKey(EVENTS[i], config, FirstOf(EVENTS, i));
        } else {
          NothingToDo(config, FirstOf(EVENTS, i), EVENTS[i]);
        }
        assert removed + {} == removed && problems + [] == problems;
      }
      ok := true;
    }

    // All the keys in turn. The first unfit container stops the run.
    method CleanAll(ghost config: Items) returns (error: Option<CleanError>)
      requires UniqueItems(config, Obj) && expected == config && removed == {} && problems == [] && !sentinel
      modifies this
      ensures error == ShapeError(config, settings.host)
      ensures error.None? ==>
        && expected == PruneItems(config, Obj, 0, [], removed) && removed == Removals(config, settings)
        && problems == Reports(config, settings) && sentinel == HooksDropped(config, settings.own)
    {
      hide Lookup, PruneItems, Ascii, UniqueItems, DoneOnly, HooksFit, ListIfPresent, ObjIfPresent, ServersFit, HooksDropped,
        KeyRemoved, GuardianRemoved, McpRemoved, PluginsRemoved, KeyProblems, McpProblems, EventsRemoved, EventsProblems, FirstOf, Tracks;
      NothingDone(config);
      var host := settings.host;
      ghost var done: set<string> := {};
      if host.Copilot? {
        var fit := CleanEvents(config);
        if !fit { return Some(BadEvents); }
        done := FirstOf(EVENTS, |EVENTS|);
      }
      KeysDiffer();
      var fit := CleanHooksKey(config, done);
      if !fit { return Some(BadHooks); }
      done := done + {"hooks"};
      if host.Antigravity? {
        CleanGuardian(config, done);
        done := done + {GUARDIAN};
      }
      error := CleanAllServers(config, done);
      if error.Some? { return; }
      done := done + FirstOf(MCP_KEYS, |MCP_KEYS|);
      if host.Opencode? {
        fit := CleanAllPlugins(config, done);
        if !fit { return Some(BadPlugins); }
        done := done + FirstOf(PLUGIN_KEYS, |PLUGIN_KEYS|);
      }
      TracksMeans(config, done);
      assert removed == Removals(config, settings);
      assert problems == Reports(config, settings);
    }

    method CleanAllServers(ghost config: Items, ghost done: set<string>) returns (error: Option<CleanError>)
      requires Tracks(config, done) && forall i :: 0 <= i < |MCP_KEYS| ==> MCP_KEYS[i] !in done
      modifies this
      ensures error == if exists i :: 0 <= i < |MCP_KEYS| && !ObjIfPresent(config, MCP_KEYS[i]) then Some(BadMcp)
                       else if !ServersFit(config) then Some(BadServers) else None
      ensures error.None? ==> Tracks(config, done + FirstOf(MCP_KEYS, |MCP_KEYS|))
      ensures error.None? ==> removed == old(removed) + McpAllRemoved(config, |MCP_KEYS|, settings)
      ensures error.None? ==> problems == old(problems) + McpAllProblems(config, |MCP_KEYS|, settings)
      ensures sentinel == old(sentinel)
    {
      hide Ascii, ObjIfPresent, ServersFit, McpRemoved, McpProblems, Tracks;
      assert done + FirstOf(MCP_KEYS, 0) == done;
      for i := 0 to |MCP_KEYS|
        invariant Tracks(config, done + FirstOf(MCP_KEYS, i))
        invariant removed == old(removed) + McpAllRemoved(config, i, settings)
        invariant problems == old(problems) + McpAllProblems(config, i, settings)
        invariant forall j :: 0 <= j < i ==> ObjIfPresent(config, MCP_KEYS[j])
        invariant i == |MCP_KEYS| ==> ServersFit(config)
        invariant sentinel == old(sentinel)
      {
        ServersDiffer(i);
        error := CleanServers(MCP_KEYS[i], config, done + FirstOf(MCP_KEYS, i));
        if error.Some? { return; }
        assert done + FirstOf(MCP_KEYS, i) + {MCP_KEYS[i]} == done + FirstOf(MCP_KEYS, i + 1);
      }
      error := None;
    }

    method CleanAllPlugins(ghost config: Items, ghost done: set<string>) returns (ok: bool)
      requires Tracks(config, done) && forall i :: 0 <= i < |PLUGIN_KEYS| ==> PLUGIN_KEYS[i] !in done
      modifies this
      ensures ok <==> forall i :: 0 <= i < |PLUGIN_KEYS| ==> ListIfPresent(config, PLUGIN_KEYS[i])
      ensures ok ==> Tracks(config, done + FirstOf(PLUGIN_KEYS, |PLUGIN_KEYS|))
      ensures ok ==> removed == old(removed) + PluginsAllRemoved(config, |PLUGIN_KEYS|, settings)
      ensures problems == old(problems) && sentinel == old(sentinel)
    {
      hide Ascii, ListIfPresent, PluginsRemoved, Tracks;
      assert done + FirstOf(PLUGIN_KEYS, 0) == done;
      for i := 0 to |PLUGIN_KEYS|
        invariant Tracks(config, done + FirstOf(PLUGIN_KEYS, i))
        invariant removed == old(removed) + PluginsAllRemoved(config, i, settings)
        invariant forall j :: 0 <= j < i ==> ListIfPresent(config, PLUGIN_KEYS[j])
        invariant problems == old(problems) && sentinel == old(sentinel)
      {
        PluginsDiffer(i);
        var fit := CleanPlugins(PLUGIN_KEYS[i], config, done + FirstOf(PLUGIN_KEYS, i));
        if !fit { return false; }
        assert done + FirstOf(PLUGIN_KEYS, i) + {PLUGIN_KEYS[i]} == done + FirstOf(PLUGIN_KEYS, i + 1);
      }
      ok := true;
    }

    lemma {:induction false} NothingDone(config: Items)
      requires UniqueItems(config, Obj) && expected == config && removed == {}
      ensures Tracks(config, {})
    {
      PruneNoItems(config, Obj, 0, [], {});
    }

    // A key that is absent counts as dealt with.
    lemma {:induction false} NothingToDo(config: Items, done: set<string>, key: string)
      requires Tracks(config, done)
      ensures Tracks(config, done + {key})
    {}

    lemma {:induction false} TracksMeans(config: Items, done: set<string>)
      requires Tracks(config, done)
      ensures expected == PruneItems(config, Obj, 0, [], removed)
    {}

    // What is expected at a key not dealt with yet is what the configuration has there.
    lemma {:induction false} Untouched(config: Items, done: set<string>, key: string)
      requires Tracks(config, done) && key !in done
      ensures Lookup(expected, Ascii(key)) == Lookup(config, Ascii(key))
    {
      FreshKey(removed, done, key);
      NotYetTouched(config, 0, [], Ascii(key), removed);
    }

    // The hooks container; the sentinel stands under hooks afterwards when cleaning dropped it.
    method CleanHooksKey(ghost config: Items, ghost done: set<string>) returns (ok: bool)
      requires Tracks(config, done) && "hooks" !in done && !sentinel
      modifies this
      ensures ok <==> HooksFit(config, settings.host)
      ensures ok ==> Tracks(config, done + {"hooks"}) && sentinel == HooksDropped(config, settings.own)
      ensures ok ==> removed == old(removed) + KeyRemoved(config, "hooks", settings.own)
      ensures ok ==> problems == old(problems) + KeyProblems(config, "hooks", settings)
    {
      hide Lookup, PruneItems, Ascii, UniqueItems, DoneOnly, Clean, Removed, Problems;
      Untouched(config, done, "hooks");
      var found := Lookup(expected, Ascii("hooks"));
      if found.Some? {
        if !IsObj(found.value) && !(settings.host.Gemini? && IsArr(found.value)) { return false; }
        LookupIsUnique(config, Ascii("hooks"));
        GoesIsDropped(found.value, settings.own);
        sentinel := CleanKey("hooks", config, done);
      } else {
        MoreDone(removed, {}, done, "hooks");
        assert removed + {} == removed && problems + [] == problems;
      }
      ok := true;
    }

    // The entry of the tool itself in an Antigravity file.
    method CleanGuardian(ghost config: Items, ghost done: set<string>)
      requires Tracks(config, done) && GUARDIAN !in done
      modifies this
      ensures Tracks(config, done + {GUARDIAN}) && sentinel == old(sentinel)
      ensures removed == old(removed) + GuardianRemoved(config, settings.own)
      ensures problems == old(problems) + KeyProblems(config, GUARDIAN, settings)
    {
      hide Lookup, PruneItems, Ascii, UniqueItems, DoneOnly, Clean, Removed, Problems, Prune, AllThrough, NoneThrough, Vanishes;
      var name := Ascii(GUARDIAN);
      Untouched(config, done, GUARDIAN);
      FreshKey(removed, done, GUARDIAN);
      var found := Lookup(expected, name);
      ghost var was, extra := removed, GuardianRemoved(config, settings.own);
      GuardianIsThrough(config, settings.own);
      if found.Some? {
        var cleaned := CleanHooks(found.value, [Named(name)]);
        if Vanishes(found.value, cleaned) {
          removed := removed + {[Named(name)]};
          PruneDeletes(config, 0, [], name, was, extra);
          expected := Delete(expected, name);
        } else {
          VanishingDrop(found.value);
          KeyIsThrough(found.value, name, settings.own);
          KeptIsPruned(config, found.value, name, settings.own);
          assert extra == Removed(found.value, [Named(name)], settings.own);
          PruneReplaces(config, 0, [], name, was, extra);
          expected := Replace(expected, name, cleaned.value);
        }
        assert removed == was + extra;
      } else {
        assert extra == {};
        assert removed + extra == removed && problems + [] == problems;
      }
      MoreDone(was, extra, done, GUARDIAN);
    }

    // One MCP container: the tool's own servers go. An error is a container or its servers not being an object.
    method CleanServers(key: string, ghost config: Items, ghost done: set<string>) returns (error: Option<CleanError>)
      requires Tracks(config, done) && key !in done
      modifies this
      ensures error == if !ObjIfPresent(config, key) then Some(BadMcp)
                       else if key == "mcp" && !ServersFit(config) then Some(BadServers) else None
      ensures error.None? ==> Tracks(config, done + {key}) && removed == old(removed) + McpRemoved(config, key, settings)
      ensures error.None? ==> problems == old(problems) + McpProblems(config, key, settings)
      ensures sentinel == old(sentinel)
    {
      hide Lookup, PruneItems, Ascii, UniqueItems, DoneOnly, Prune, AllThrough, NoneThrough, OwnsServer;
      var name := Ascii(key);
      Untouched(config, done, key);
      FreshKey(removed, done, key);
      McpIsThrough(config, key, settings);
      ghost var was, extra := removed, McpRemoved(config, key, settings);
      ghost var reported := problems;
      var found := Lookup(expected, name);
      if found.None? {
        MoreDone(was, extra, done, key);
        assert removed + {} == removed && problems + [] == problems;
        return None;
      }
      if !IsObj(found.value) { return Some(BadMcp); }
      var container := found.value.items;
      var nested := if key == "mcp" then Lookup(container, Ascii("servers")) else None;
      if nested.Some? && !IsObj(nested.value) { return Some(BadServers); }
      var kept := CleanContainer(container, [Named(name)]);
      if nested.Some? {
        var inner := CleanContainer(nested.value.items, [Named(name)] + [Named(Ascii("servers"))]);
        kept := Replace(kept, Ascii("servers"), Container(Obj, inner));
      }
      McpPruned(config, key, settings);
      PruneReplaces(config, 0, [], name, was, extra);
      expected := Replace(expected, name, Container(Obj, kept));
      MoreDone(was, extra, done, key);
      if key == "mcp" && nested.Some? {
        assert removed == was + (ServerRemoved(container, [Named(name)], settings)
                                 + ServerRemoved(nested.value.items, [Named(name)] + [Named(Ascii("servers"))], settings));
        assert problems == reported + (ServerProblems(container, settings) + ServerProblems(nested.value.items, settings));
      }
      assert removed == was + extra;
      assert problems == reported + McpProblems(config, key, settings);
      error := None;
    }

    // The tool's own server goes from a container; another one under its name is reported.
    method CleanContainer(servers: Items, path: Path) returns (kept: Items)
      modifies `removed, `problems
      ensures kept == WithoutOwn(servers, settings)
      ensures removed == old(removed) + ServerRemoved(servers, path, settings)
      ensures problems == old(problems) + ServerProblems(servers, settings)
    {
      hide Lookup, Ascii;
      kept := servers;
      var found := Lookup(servers, Ascii(GUARDIAN));
      if found.Some? {
        var server := found.value;
        if IsObj(server) && settings.server(Lookup(server.items, Ascii("command")), Lookup(server.items, Ascii("args"))) {
          kept := Delete(servers, Ascii(GUARDIAN));
          removed := removed + {path + [Named(Ascii(GUARDIAN))]};
        } else {
          problems := problems + [UnrecognizedServer];
        }
      }
    }

    // One OpenCode plugin list; false when it is not a list.
    method CleanPlugins(key: string, ghost config: Items, ghost done: set<string>) returns (ok: bool)
      requires Tracks(config, done) && key !in done
      modifies this
      ensures ok <==> ListIfPresent(config, key)
      ensures ok ==> Tracks(config, done + {key}) && removed == old(removed) + PluginsRemoved(config, key, settings)
      ensures problems == old(problems) && sentinel == old(sentinel)
    {
      hide Lookup, PruneItems, Ascii, UniqueItems, DoneOnly, AllThrough, NoneThrough;
      var name := Ascii(key);
      Untouched(config, done, key);
      FreshKey(removed, done, key);
      PluginsAreThrough(config, key, settings);
      ghost var was, extra := removed, PluginsRemoved(config, key, settings);
      var found := Lookup(expected, name);
      if found.Some? {
        if !IsArr(found.value) { return false; }
        var retained := RetainPlugins(found.value.items, [Named(name)]);
        assert [] + [Named(name)] == [Named(name)];
        PluginsPruned(found.value.items, 0, [Named(name)], settings, extra);
        PruneReplaces(config, 0, [], name, was, extra);
        expected := Replace(expected, name, Container(Arr, retained));
      } else {
        assert removed + {} == removed;
      }
      MoreDone(was, extra, done, key);
      ok := true;
    }

    method RetainPlugins(items: Items, path: Path) returns (retained: Items)
      modifies `removed
      ensures retained == KeepPlugins(items, settings)
      ensures removed == old(removed) + PluginsRemovedFrom(items, 0, path, settings)
    {
      hide IsPlugin;
      var rest, index := items, 0;
      retained := Nil;
      while rest.Item?
        invariant index >= 0
        invariant Append(retained, KeepPlugins(rest, settings)) == KeepPlugins(items, settings)
        invariant removed + PluginsRemovedFrom(rest, index, path, settings) == old(removed) + PluginsRemovedFrom(items, 0, path, settings)
        decreases rest
      {
        if IsPlugin(rest.value, settings) {
          removed := removed + {path + [Index(index)]};
        } else {
          AppendOne(retained, rest.name, rest.value, KeepPlugins(rest.rest, settings));
          retained := Append(retained, Item(rest.name, rest.value, Nil));
        }
        rest, index := rest.rest, index + 1;
      }
      AppendOne(retained, [], Scalar(""), Nil);
    }
  }

  lemma {:induction false} VanishingDrop(value: Json)
    ensures Vanishes(value, Drop)
  {}
}
