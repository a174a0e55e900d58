/** The cache of parsed ignore files, by project root and modification time. */
module IgnoreCache {
  import opened Options

  type Root = string

  datatype File = File(mtime: int, text: string)

  // Parsed ignore file.
  datatype Config = Config(globalPaths: seq<string>, scannerPaths: map<string, seq<string>>)

  // What becomes of a file between reading its time and reading its text.
  datatype Meanwhile = Nothing | Edited(file: File) | Removed

  // What happens, one thing after another. Edits and removals come from outside; a write is the module's own.
  datatype Event =
    | Load(root: Root, now: int, meanwhile: Meanwhile)
    | Edit(root: Root, file: File)
    | Remove(root: Root)
    | Write(root: Root, file: File)
    | Reset
    | Cleanup(now: int, maxAge: int)

  type Files = map<Root, File>

  // The text a file had at a time, unless it changed while a load had read its time only.
  datatype Version = Sure(text: string) | Unsure

  // The versions seen since the cache was last empty, by root and time.
  type Versions = map<(Root, int), Version>

  function Fresh(files: Files, root: Root, parse: string -> Option<Config>): Option<Config> {
    if root in files then parse(files[root].text) else None
  }

  function FilesThen(files: Files, root: Root, meanwhile: Meanwhile): Files {
    match meanwhile
    case Nothing => files
    case Edited(file) => files[root := file]
    case Removed => files - {root}
  }

  function FilesAfter(files: Files, e: Event): Files {
    match e
    case Load(root, _, meanwhile) => FilesThen(files, root, meanwhile)
    case Edit(root, file) => files[root := file]
    case Remove(root) => files - {root}
    case Write(root, file) => files[root := file]
    case _ => files
  }

  function Current(files: Files): Versions {
    map root, time | root in files && time == files[root].mtime :: (root, time) := Sure(files[root].text)
  }

  // Every file's text is the one seen at its time.
  predicate Knows(versions: Versions, files: Files) {
    forall root :: root in files ==>
      (root, files[root].mtime) in versions && versions[(root, files[root].mtime)] == Sure(files[root].text)
  }

  lemma {:induction false} CurrentKnows(files: Files)
    ensures Knows(Current(files), files)
  {}

  // A time that a load has read and that is then gone is no longer sure.
  function VersionsThen(versions: Versions, files: Files, root: Root, meanwhile: Meanwhile): Versions {
    match meanwhile
    case Edited(file) =>
      (if root in files && files[root].mtime != file.mtime then versions[(root, files[root].mtime) := Unsure] else versions)
      [(root, file.mtime) := Sure(file.text)]
    case _ => versions
  }

  function VersionsAfter(versions: Versions, files: Files, e: Event): Versions {
    match e
    case Load(root, _, meanwhile) => VersionsThen(versions, files, root, meanwhile)
    case Edit(root, file) => versions[(root, file.mtime) := Sure(file.text)]
    case Write(root, file) => Current(files[root := file])
    case Reset => Current(files)
    case _ => versions
  }

  // A file from outside does not bring a time back with another text, nor one that is no longer sure.
  predicate Agrees(versions: Versions, root: Root, file: File) {
    (root, file.mtime) in versions ==> versions[(root, file.mtime)] == Sure(file.text)
  }

  predicate Honest(versions: Versions, e: Event) {
    && (e.Edit? ==> Agrees(versions, e.root, e.file))
    && (e.Load? && e.meanwhile.Edited? ==> Agrees(versions, e.root, e.meanwhile.file))
  }

  predicate HonestRun(versions: Versions, files: Files, events: seq<Event>)
    decreases |events|
  {
    events != [] ==>
      && Honest(versions, events[0])
      && HonestRun(VersionsAfter(versions, files, events[0]), FilesAfter(files, events[0]), events[1..])
  }

  /* ---- the cache, by the texts it was read from ---- */

  // The time and the text an entry was read from.
  datatype Entry = Entry(time: int, text: string)

  datatype Store = Store(files: Files, entries: map<Root, Entry>, accessed: map<Root, int>)

  predicate Hits(s: Store, root: Root) {
    root in s.files && root in s.entries && s.entries[root].time == s.files[root].mtime
  }

  // What a load returns.
  function Answer(s: Store, root: Root, meanwhile: Meanwhile, parse: string -> Option<Config>): Option<Config> {
    if root !in s.files then None
    else if Hits(s, root) then parse(s.entries[root].text)
    else Fresh(FilesThen(s.files, root, meanwhile), root, parse)
  }

  function StoreAfter(s: Store, e: Event, parse: string -> Option<Config>): Store {
    match e
    case Load(root, now, meanwhile) =>
      var files := FilesThen(s.files, root, meanwhile);
      if root !in s.files then s.(files := files)
      else
        Store(files,
              if Hits(s, root) || Answer(s, root, meanwhile, parse).None? then s.entries
              else s.entries[root := Entry(s.files[root].mtime, files[root].text)],
              s.accessed[root := now])
    case Edit(_, _) => s.(files := FilesAfter(s.files, e))
    case Remove(_) => s.(files := FilesAfter(s.files, e))
    case Write(_, _) => Store(FilesAfter(s.files, e), map[], map[])
    case Reset => Store(s.files, map[], map[])
    case Cleanup(now, maxAge) =>
      var stale := set root | root in s.accessed && now - s.accessed[root] > maxAge;
      Store(s.files, s.entries - stale, s.accessed - stale)
  }

  // What the loads of a run return.
  function Answers(s: Store, events: seq<Event>, parse: string -> Option<Config>): seq<Option<Config>>
    decreases |events|
  {
    if events == [] then []
    else
      (if events[0].Load? then [Answer(s, events[0].root, events[0].meanwhile, parse)] else [])
      + Answers(StoreAfter(s, events[0], parse), events[1..], parse)
  }

  class Cache {
    const parse: string -> Option<Config>
    var files: Files
    var configs: map<Root, (int, Config)>
    var lastAccessed: map<Root, int>

    // The cached configurations are what the texts of the entries parse as, and their roots have an access time.
    ghost predicate Mirrors(s: Store)
      reads this
    {
      && files == s.files && lastAccessed == s.accessed && configs.Keys == s.entries.Keys <= lastAccessed.Keys
      && forall root :: root in configs ==>
        configs[root].0 == s.entries[root].time && parse(s.entries[root].text) == Some(configs[root].1)
    }

    constructor (files: Files, parse: string -> Option<Config>)
      ensures this.parse == parse && Mirrors(Store(files, map[], map[]))
    {
      this.files, this.parse := files, parse;
      configs, lastAccessed := map[], map[];
    }

    // The file changes under the cache.
    method Happen(root: Root, meanwhile: Meanwhile)
      modifies this`files
      ensures files == FilesThen(old(files), root, meanwhile)
    {
      match meanwhile
      case Nothing =>
      case Edited(file) => files := files[root := file];
      case Removed => files := files - {root};
    }

    // load_aiguardignore. What happens meanwhile happens between reading the time and reading the text, or at the end
    // when the text is not read.
    method LoadConfig(root: Root, now: int, meanwhile: Meanwhile, ghost s: Store) returns (r: Option<Config>)
      requires Mirrors(s)
      modifies this
      ensures Mirrors(StoreAfter(s, Load(root, now, meanwhile), parse)) && r == Answer(s, root, meanwhile, parse)
    {
      if root !in files {
        Happen(root, meanwhile);
        return None;
      }
      var mtime := files[root].mtime;
      lastAccessed := lastAccessed[root := now];
      if root in configs && configs[root].0 == mtime {
        r := Some(configs[root].1);
        Happen(root, meanwhile);
        return;
      }
      Happen(root, meanwhile);
      if root !in files { return None; }
      r := parse(files[root].text);
      if r.Some? { configs := configs[root := (mtime, r.value)]; }
    }

    // reset_cache
    method ResetCache()
      modifies this`configs, this`lastAccessed
      ensures Mirrors(Store(files, map[], map[]))
    {
      configs, lastAccessed := map[], map[];
    }

    // cleanup_stale_entries
    method CleanupStaleEntries(now: int, maxAge: int, ghost s: Store)
      requires Mirrors(s)
      modifies this`configs, this`lastAccessed
      ensures Mirrors(StoreAfter(s, Cleanup(now, maxAge), parse))
      ensures forall root :: root in lastAccessed <==> root in old(lastAccessed) && now - old(lastAccessed)[root] <= maxAge
      ensures forall root :: root in lastAccessed ==> lastAccessed[root] == old(lastAccessed)[root]
      ensures forall root :: root in configs <==> root in old(configs) && now - old(lastAccessed)[root] <= maxAge
      ensures forall root :: root in configs ==> configs[root] == old(configs)[root]
    {
      var stale := set root | root in lastAccessed && now - lastAccessed[root] > maxAge;
      configs, lastAccessed := configs - stale, lastAccessed - stale;
    }

    // An internal write replaces the file and resets the cache, so that its time may be any.
    method WriteText(root: Root, file: File)
      modifies this
      ensures Mirrors(Store(old(files)[root := file], map[], map[]))
    {
      files := files[root := file];
      ResetCache();
    }

    // One event, and what it returns if it is a load.
    method Handle(e: Event, ghost s: Store) returns (loaded: seq<Option<Config>>)
      requires Mirrors(s)
      modifies this
      ensures Mirrors(StoreAfter(s, e, parse))
      ensures loaded == if e.Load? then [Answer(s, e.root, e.meanwhile, parse)] else []
    {
      hide Answer;
      loaded := [];
      match e
      case Load(root, now, meanwhile) =>
        var r := LoadConfig(root, now, meanwhile, s);
        loaded := [r];
      case Edit(root, file) => files := files[root := file];
      case Remove(root) => files := files - {root};
      case Write(root, file) => WriteText(root, file);
      case Reset => ResetCache();
      case Cleanup(now, maxAge) => CleanupStaleEntries(now, maxAge, s);
    }
  }

  lemma {:induction false} AnswersFrom(
    s: Store, events: seq<Event>, i: nat, parse: string -> Option<Config>, results: seq<Option<Config>>)
    requires i < |events|
    ensures var loaded := if events[i].Load? then [Answer(s, events[i].root, events[i].meanwhile, parse)] else [];
      results + Answers(s, events[i..], parse) == results + loaded + Answers(StoreAfter(s, events[i], parse), events[i + 1..], parse)
  {
    hide StoreAfter, Answer;
    assert events[i..][0] == events[i] && events[i..][1..] == events[i + 1..];
  }

  // Over every run whatsoever, loads return what the entries' texts parse as, or a fresh parse.
  method RunEvents(files: Files, events: seq<Event>, parse: string -> Option<Config>) returns (results: seq<Option<Config>>)
    ensures results == Answers(Store(files, map[], map[]), events, parse)
  {
    hide StoreAfter, Answer;
    var cache := new Cache(files, parse);
    results := [];
    ghost var s := Store(files, map[], map[]);
    assert events[0..] == events;
    for i := 0 to |events|
      invariant fresh(cache) && cache.parse == parse && cache.Mirrors(s)
      invariant results + Answers(s, events[i..], parse) == Answers(Store(files, map[], map[]), events, parse)
    {
      AnswersFrom(s, events, i, parse, results);
      var loaded := cache.Handle(events[i], s);
      s := StoreAfter(s, events[i], parse);
      results := results + loaded;
    }
    assert events[|events|..] == [];
  }

  /* ---- when loads are fresh ---- */

  // What loads return when every one of them parses the file.
  function Uncached(files: Files, events: seq<Event>, parse: string -> Option<Config>): seq<Option<Config>>
    decreases |events|
  {
    if events == [] then []
    else
      (if events[0].Load? then [Fresh(files, events[0].root, parse)] else [])
      + Uncached(FilesAfter(files, events[0]), events[1..], parse)
  }

  // Every load that hits finds a file whose text parses as the text its entry was read from.
  predicate HitsAgree(s: Store, events: seq<Event>, parse: string -> Option<Config>)
    decreases |events|
  {
    events != [] ==>
      && (events[0].Load? && Hits(s, events[0].root) ==>
          parse(s.entries[events[0].root].text) == parse(s.files[events[0].root].text))
      && HitsAgree(StoreAfter(s, events[0], parse), events[1..], parse)
  }

  lemma {:induction false} FilesFollow(s: Store, e: Event, parse: string -> Option<Config>)
    ensures StoreAfter(s, e, parse).files == FilesAfter(s.files, e)
  {}

  // Over a run in which nothing changes during a load, the loads return what uncached ones would exactly when the hits
  // agree.
  lemma {:induction false} FreshWhenHitsAgree(s: Store, events: seq<Event>, parse: string -> Option<Config>)
    requires forall e :: e in events && e.Load? ==> e.meanwhile.Nothing?
    ensures Answers(s, events, parse) == Uncached(s.files, events, parse) <==> HitsAgree(s, events, parse)
    decreases |events|
  {
    hide StoreAfter, FilesAfter;
    if events != [] {
      assert events[0] in events;
      FilesFollow(s, events[0], parse);
      var s' := StoreAfter(s, events[0], parse);
      FreshWhenHitsAgree(s', events[1..], parse);
      if events[0].Load? {
        SameHeads(Answer(s, events[0].root, events[0].meanwhile, parse), Answers(s', events[1..], parse),
                  Fresh(s.files, events[0].root, parse), Uncached(s'.files, events[1..], parse));
      } else {
        assert [] + Answers(s', events[1..], parse) == Answers(s', events[1..], parse);
        assert [] + Uncached(s'.files, events[1..], parse) == Uncached(s'.files, events[1..], parse);
      }
    }
  }

  lemma {:induction false} SameHeads<T>(x: T, xs: seq<T>, y: T, ys: seq<T>)
    ensures [x] + xs == [y] + ys <==> x == y && xs == ys
  {
    if [x] + xs == [y] + ys {
      assert ([x] + xs)[0] == x && ([y] + ys)[0] == y;
      assert ([x] + xs)[1..] == xs && ([y] + ys)[1..] == ys;
    }
  }

  /* ---- honest runs ---- */

  // Every load returned what parsing the file would, at its beginning or at its end.
  predicate Explains(files: Files, events: seq<Event>, results: seq<Option<Config>>, parse: string -> Option<Config>)
    decreases |events|
  {
    if events == [] then results == []
    else if events[0].Load? then
      && results != []
      && (results[0] == Fresh(files, events[0].root, parse)
          || results[0] == Fresh(FilesAfter(files, events[0]), events[0].root, parse))
      && Explains(FilesAfter(files, events[0]), events[1..], results[1..], parse)
    else Explains(FilesAfter(files, events[0]), events[1..], results, parse)
  }

  // Every entry was read from the text of its version.
  ghost predicate Coherent(s: Store, versions: Versions) {
    && Knows(versions, s.files)
    && forall root :: root in s.entries ==>
      && (root, s.entries[root].time) in versions
      && (versions[(root, s.entries[root].time)].Sure? ==> versions[(root, s.entries[root].time)].text == s.entries[root].text)
  }

  // In a coherent cache a load returns what the file parses as, at one end of the load or the other, and the cache
  // stays coherent.
  lemma {:induction false} LoadIsFresh(s: Store, versions: Versions, root: Root, now: int, meanwhile: Meanwhile, parse: string -> Option<Config>)
    requires Coherent(s, versions) && Honest(versions, Load(root, now, meanwhile))
    ensures var r := Answer(s, root, meanwhile, parse);
      && (r == Fresh(s.files, root, parse) || r == Fresh(FilesThen(s.files, root, meanwhile), root, parse))
      && Coherent(StoreAfter(s, Load(root, now, meanwhile), parse), VersionsThen(versions, s.files, root, meanwhile))
  {}

  lemma {:induction false} EventKeepsCoherent(s: Store, versions: Versions, e: Event, parse: string -> Option<Config>)
    requires Coherent(s, versions) && Honest(versions, e)
    ensures Coherent(StoreAfter(s, e, parse), VersionsAfter(versions, s.files, e))
  {
    hide Current;
    match e
    case Load(root, now, meanwhile) => LoadIsFresh(s, versions, root, now, meanwhile, parse);
    case Write(root, file) => CurrentKnows(s.files[root := file]);
    case Reset => CurrentKnows(s.files);
    case _ =>
  }

  // Over every honest run each load returns what parsing the file would, at its beginning or at its end.
  lemma {:induction false} HonestRunsAreFresh(s: Store, versions: Versions, events: seq<Event>, parse: string -> Option<Config>)
    requires Coherent(s, versions) && HonestRun(versions, s.files, events)
    ensures Explains(s.files, events, Answers(s, events, parse), parse)
    decreases |events|
  {
    hide Coherent, Honest, StoreAfter, VersionsAfter, FilesAfter, Fresh, Answer;
    if events != [] {
      var e := events[0];
      FilesFollow(s, e, parse);
      EventKeepsCoherent(s, versions, e, parse);
      var s' := StoreAfter(s, e, parse);
      HonestRunsAreFresh(s', VersionsAfter(versions, s.files, e), events[1..], parse);
      if e.Load? {
        LoadEnds(s.files, e);
        LoadIsFresh(s, versions, e.root, e.now, e.meanwhile, parse);
        assert ([Answer(s, e.root, e.meanwhile, parse)] + Answers(s', events[1..], parse))[1..] == Answers(s', events[1..], parse);
      } else {
        assert [] + Answers(s', events[1..], parse) == Answers(s', events[1..], parse);
      }
    }
  }

  lemma {:induction false} LoadEnds(files: Files, e: Event)
    requires e.Load?
    ensures FilesAfter(files, e) == FilesThen(files, e.root, e.meanwhile)
  {}

  // From an empty cache.
  lemma {:induction false} HonestFromStart(files: Files, events: seq<Event>, parse: string -> Option<Config>)
    requires HonestRun(Current(files), files, events)
    ensures Explains(files, events, Answers(Store(files, map[], map[]), events, parse), parse)
  {
    hide Current;
    CurrentKnows(files);
    HonestRunsAreFresh(Store(files, map[], map[]), Current(files), events, parse);
  }

  // An edit that keeps the time goes unseen, and so does one in the middle of a load once the earlier time comes back:
  // the second load is right exactly when the texts parse alike.
  lemma {:induction false} TimeKept(root: Root, early: File, text: string, parse: string -> Option<Config>)
    requires parse(early.text).Some?
    ensures var late := File(early.mtime, text);
      var results := Answers(Store(map[root := early], map[], map[]), [Load(root, 0, Nothing), Edit(root, late), Load(root, 1, Nothing)], parse);
      && |results| == 2 && results[0] == parse(early.text)
      && (results[1] == parse(text) <==> parse(text) == parse(early.text))
  {
    var late := File(early.mtime, text);
    TwoLoads(root, early, Nothing, late, parse);
  }

  lemma {:induction false} TimeComesBack(root: Root, early: File, late: File, parse: string -> Option<Config>)
    requires parse(late.text).Some?
    ensures
      var results := Answers(Store(map[root := early], map[], map[]), [Load(root, 0, Edited(late)), Edit(root, early), Load(root, 1, Nothing)], parse);
      && |results| == 2 && results[0] == parse(late.text)
      && (results[1] == parse(early.text) <==> parse(early.text) == parse(late.text))
  {
    TwoLoads(root, early, Edited(late), early, parse);
  }

  // Two loads, the second after a return to the time the first one read.
  lemma {:induction false} TwoLoads(root: Root, early: File, meanwhile: Meanwhile, late: File, parse: string -> Option<Config>)
    requires late.mtime == early.mtime && root in FilesThen(map[root := early], root, meanwhile)
    requires parse(FilesThen(map[root := early], root, meanwhile)[root].text).Some?
    ensures var first := parse(FilesThen(map[root := early], root, meanwhile)[root].text);
      Answers(Store(map[root := early], map[], map[]), [Load(root, 0, meanwhile), Edit(root, late), Load(root, 1, Nothing)], parse)
        == [first, first]
  {
    var s0 := Store(map[root := early], map[], map[]);
    var events := [Load(root, 0, meanwhile), Edit(root, late), Load(root, 1, Nothing)];
    var s1 := StoreAfter(s0, events[0], parse);
    var s2 := StoreAfter(s1, events[1], parse);
    var s3 := StoreAfter(s2, events[2], parse);
    assert Hits(s2, root) && s2.entries[root] == s1.entries[root];
    assert Answers(s3, [], parse) == [];
    assert events[1..][1..][1..] == [] && events[1..][1..][0] == events[2] && events[1..][0] == events[1];
    assert Answers(s2, events[1..][1..], parse) == [Answer(s2, root, Nothing, parse)];
    assert Answers(s1, events[1..], parse) == [] + Answers(s2, events[1..][1..], parse);
  }
}
