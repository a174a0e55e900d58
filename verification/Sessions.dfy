/** The context file of one session: savers that hold the lock, readers that do not, in any interleaving. */
module Sessions {
  import opened Options

  type Pid = nat
  type Key = string

  const CONTEXT_TTL := 300

  datatype Entry = Entry(context: string, timestamp: int)

  type Data = map<Key, Entry>

  // What a file holds: a map, or something that does not read as one (nothing yet, or part of one).
  datatype File = Unreadable | Holds(data: Data)

  // A save that took effect. It is blind when reading the file failed and it started over from nothing, and torn
  // when the one write call wrote less than it was given, which goes unnoticed.
  datatype Save = Save(key: Key, entry: Entry, blind: bool, torn: bool)

  // Where a process is. Numbers are files; since counts the saves that had taken effect when a load began.
  datatype Process =
    | Idle
    | Waiting(key: Key, context: string)
    | Holding(key: Key, context: string)
    | Checked(key: Key, context: string, exists_: bool)
    | Opened(key: Key, context: string, file: nat)
    | Loaded(key: Key, context: string, data: Data, blind: bool)
    | Writing(save: Save, data: Data, temporary: nat)
    | Written(save: Save, data: Data, temporary: nat)
    | Saved(save: Save)
    | Looking(key: Key, since: nat)
    | Seen(key: Key, since: nat, exists_: bool)
    | Reading(key: Key, since: nat, file: nat)
    | Got(key: Key, since: nat, result: Option<Data>)

  // Every file ever made, the one the path names, the holder of the lock, the processes, and the saves in the
  // order in which they took effect.
  datatype State = State(files: seq<File>, path: Option<nat>, lock: Option<Pid>, processes: map<Pid, Process>, saves: seq<Save>)
  {
    function At(p: Pid): Process { if p in processes then processes[p] else Idle }
    function Move(p: Pid, to: Process): State { this.(processes := processes[p := to]) }
  }

  // What a process does next; the flags say whether the system call succeeds.
  datatype Action =
    | StartSave(key: Key, context: string)
    | Acquire
    | Exists
    | Open(ok: bool)
    | Read(ok: bool)
    | Create(now: int)
    | Write(whole: bool)
    | Replace
    | Release
    | Fail
    | StartLoad(key: Key)

  function ViewOf(file: File): Data { if file.Holds? then file.data else map[] }

  function View(s: State): Data {
    if s.path.Some? && s.path.value < |s.files| then ViewOf(s.files[s.path.value]) else map[]
  }

  function FileAt(s: State, file: nat): Data { if file < |s.files| then ViewOf(s.files[file]) else map[] }

  function Unlocked(s: State, p: Pid): State {
    if s.lock == Some(p) then s.Move(p, Idle).(lock := None) else s.Move(p, Idle)
  }

  // One step of a process; an action that is not its next one changes nothing.
  function Step(s: State, p: Pid, a: Action): State {
    match (s.At(p), a)
    case (Idle, StartSave(key, context)) => s.Move(p, Waiting(key, context))
    case (Waiting(key, context), Acquire) =>
      if s.lock.None? then s.Move(p, Holding(key, context)).(lock := Some(p)) else s
    case (Holding(key, context), Exists) => s.Move(p, Checked(key, context, s.path.Some?))
    case (Checked(key, context, there), Open(ok)) =>
      if !there then s.Move(p, Loaded(key, context, map[], false))
      else if ok && s.path.Some? then s.Move(p, Opened(key, context, s.path.value))
      else s.Move(p, Loaded(key, context, map[], true))
    case (Opened(key, context, file), Read(ok)) =>
      s.Move(p, if ok then Loaded(key, context, FileAt(s, file), false) else Loaded(key, context, map[], true))
    case (Loaded(key, context, data, blind), Create(now)) =>
      var entry := Entry(context, now);
      s.Move(p, Writing(Save(key, entry, blind, false), data[key := entry], |s.files|)).(files := s.files + [Unreadable])
    case (Writing(save, data, temporary), Write(whole)) =>
      if temporary < |s.files| then
        s.Move(p, Written(save.(torn := !whole), data, temporary))
        .(files := s.files[temporary := if whole then Holds(data) else Unreadable])
      else s
    case (Written(save, data, temporary), Replace) =>
      s.Move(p, Saved(save)).(path := Some(temporary), saves := s.saves + [save])
    case (Saved(_), Release) => Unlocked(s, p)
    case (Idle, StartLoad(key)) => s.Move(p, Looking(key, |s.saves|))
    case (Looking(key, since), Exists) => s.Move(p, Seen(key, since, s.path.Some?))
    case (Seen(key, since, there), Open(ok)) =>
      if !there then s.Move(p, Got(key, since, Some(map[])))
      else if ok && s.path.Some? then s.Move(p, Reading(key, since, s.path.value))
      else s.Move(p, Got(key, since, None))
    case (Reading(key, since, file), Read(ok)) =>
      s.Move(p, Got(key, since, if ok then Some(FileAt(s, file)) else None))
    case (_, Fail) => Unlocked(s, p)
    case _ => s
  }

  function Run(s: State, trace: seq<(Pid, Action)>, n: nat): State
    requires n <= |trace|
  {
    if n == 0 then s else Step(Run(s, trace, n - 1), trace[n - 1].0, trace[n - 1].1)
  }

  /* ---- what the saves amount to ---- */

  function After(base: Data, saves: seq<Save>, n: nat): Data
    requires n <= |saves|
  {
    if n == 0 then base
    else
      var before := if saves[n - 1].blind then map[] else After(base, saves, n - 1);
      if saves[n - 1].torn then map[] else before[saves[n - 1].key := saves[n - 1].entry]
  }

  // The save leaves other keys as they are.
  predicate Adds(save: Save) { !save.blind && !save.torn }

  // Save j is whole and the last of its key, and none after it started over or was torn.
  predicate Stands(saves: seq<Save>, j: nat, n: nat) {
    j < n <= |saves| && !saves[j].torn && forall m :: j < m < n ==> Adds(saves[m]) && saves[m].key != saves[j].key
  }

  // A key that no save touches keeps what it had at first.
  predicate Unsaved(saves: seq<Save>, key: Key, n: nat) {
    n <= |saves| && forall m :: 0 <= m < n ==> Adds(saves[m]) && saves[m].key != key
  }

  // A whole save is there until the same key is saved again or a save starts over or is torn, and nothing else is there.
  lemma {:induction false} WhatIsThere(base: Data, saves: seq<Save>, n: nat, key: Key)
    requires n <= |saves|
    ensures forall j :: 0 <= j < n && saves[j].key == key && Stands(saves, j, n) ==>
      key in After(base, saves, n) && After(base, saves, n)[key] == saves[j].entry
    ensures key in After(base, saves, n) ==>
      (Unsaved(saves, key, n) && key in base && After(base, saves, n)[key] == base[key])
      || exists j :: 0 <= j < n && saves[j].key == key && Stands(saves, j, n)
  {
    if n > 0 {
      WhatIsThere(base, saves, n - 1, key);
      forall j | 0 <= j < n && saves[j].key == key && Stands(saves, j, n)
        ensures key in After(base, saves, n) && After(base, saves, n)[key] == saves[j].entry
      {
        if j < n - 1 { assert Stands(saves, j, n - 1); }
      }
      if key in After(base, saves, n) {
        if saves[n - 1].key == key {
          assert Stands(saves, n - 1, n);
        } else if exists j :: 0 <= j < n - 1 && saves[j].key == key && Stands(saves, j, n - 1) {
          var j :| 0 <= j < n - 1 && saves[j].key == key && Stands(saves, j, n - 1);
          assert Stands(saves, j, n);
        }
      }
    }
  }

  /* ---- the invariant ---- */

  predicate Critical(q: Process) {
    q.Holding? || q.Checked? || q.Opened? || q.Loaded? || q.Writing? || q.Written? || q.Saved?
  }

  // The map was the whole content at some moment since the load began.
  ghost predicate SeenSince(base: Data, saves: seq<Save>, since: nat, data: Data) {
    exists k :: since <= k <= |saves| && data == After(base, saves, k)
  }

  ghost predicate Fits(s: State, base: Data, q: Process) {
    match q
    case Checked(_, _, there) => there == s.path.Some?
    case Opened(_, _, file) => s.path == Some(file)
    case Loaded(_, _, data, blind) => data == if blind then map[] else View(s)
    case Writing(save, data, temporary) =>
      && temporary < |s.files| && s.path != Some(temporary)
      && data == (if save.blind then map[] else View(s))[save.key := save.entry]
    case Written(save, data, temporary) =>
      && temporary < |s.files| && s.path != Some(temporary) && s.files[temporary] == (if save.torn then Unreadable else Holds(data))
      && data == (if save.blind then map[] else View(s))[save.key := save.entry]
    case Saved(save) => s.saves != [] && s.saves[|s.saves| - 1] == save
    case Looking(_, since) => since <= |s.saves|
    case Seen(_, since, there) => since <= |s.saves| && (!there ==> SeenSince(base, s.saves, since, map[]))
    case Reading(_, since, file) => file < |s.files| && SeenSince(base, s.saves, since, ViewOf(s.files[file]))
    case Got(_, since, result) => result.Some? ==> SeenSince(base, s.saves, since, result.value)
    case _ => true
  }

  // No process is about to write a file that another one reads.
  predicate Apart(q: Process, r: Process) { q.Writing? && r.Reading? ==> q.temporary != r.file }

  ghost predicate Inv(s: State, base: Data) {
    && (s.path.Some? ==> s.path.value < |s.files|)
    && View(s) == After(base, s.saves, |s.saves|)
    && (forall p :: p in s.processes ==> Fits(s, base, s.processes[p]))
    && (forall p :: p in s.processes && Critical(s.processes[p]) ==> s.lock == Some(p))
    && (forall p, r :: p in s.processes && r in s.processes ==> Apart(s.processes[p], s.processes[r]))
  }

  lemma {:induction false} AfterPrefix(base: Data, saves: seq<Save>, more: seq<Save>, k: nat)
    requires k <= |saves|
    ensures After(base, saves + more, k) == After(base, saves, k)
  {
    if k > 0 { AfterPrefix(base, saves, more, k - 1); }
  }

  lemma {:induction false} StillSeen(base: Data, saves: seq<Save>, save: Save, since: nat, data: Data)
    requires SeenSince(base, saves, since, data)
    ensures SeenSince(base, saves + [save], since, data)
  {
    var k :| since <= k <= |saves| && data == After(base, saves, k);
    AfterPrefix(base, saves, [save], k);
  }

  // The current content was there just now.
  lemma {:induction false} SeenNow(s: State, base: Data, since: nat)
    requires View(s) == After(base, s.saves, |s.saves|) && since <= |s.saves|
    ensures SeenSince(base, s.saves, since, View(s))
  {}

  lemma {:induction false} FitsHere(s: State, s': State, base: Data, q: Process)
    requires Fits(s, base, q) && s'.files == s.files && s'.path == s.path && s'.saves == s.saves
    ensures Fits(s', base, q)
  {}

  // A step that leaves the files, the path and the saves alone.
  lemma {:induction false} MoveKeeps(s: State, s': State, base: Data, p: Pid, q: Process)
    requires Inv(s, base) && s'.files == s.files && s'.path == s.path && s'.saves == s.saves
    requires s'.processes == s.processes[p := q] && Fits(s, base, q) && !q.Writing?
    requires q.Reading? ==> forall r :: r in s.processes ==> Apart(s.processes[r], q)
    requires Critical(q) ==> s'.lock == Some(p)
    requires s'.lock == s.lock || s.lock.None? || s.lock == Some(p)
    ensures Inv(s', base)
  {
    hide After, SeenSince, Fits;
    forall r | r in s'.processes ensures Fits(s', base, s'.processes[r]) { FitsHere(s, s', base, s'.processes[r]); }
    assert View(s') == View(s);
  }

  lemma {:induction false} CreateKeeps(s: State, base: Data, p: Pid, now: int)
    requires Inv(s, base) && s.At(p).Loaded?
    ensures Inv(Step(s, p, Create(now)), base)
  {
    hide After, SeenSince;
    var s' := Step(s, p, Create(now));
    assert s.lock == Some(p) && View(s') == View(s);
    forall r | r in s'.processes ensures Fits(s', base, s'.processes[r]) {
      if r != p { assert Fits(s, base, s.processes[r]); }
    }
    forall r, r' | r in s'.processes && r' in s'.processes ensures Apart(s'.processes[r], s'.processes[r']) {
      if r' != p { assert Fits(s, base, s.processes[r']); }
    }
  }

  lemma {:induction false} WriteKeeps(s: State, base: Data, p: Pid, whole: bool)
    requires Inv(s, base) && s.At(p).Writing?
    ensures Inv(Step(s, p, Write(whole)), base)
  {
    hide After, SeenSince;
    var s' := Step(s, p, Write(whole));
    var temporary := s.At(p).temporary;
    assert Fits(s, base, s.At(p)) && s.lock == Some(p) && View(s') == View(s);
    forall r | r in s'.processes ensures Fits(s', base, s'.processes[r]) {
      if r != p { assert Fits(s, base, s.processes[r]) && Apart(s.At(p), s.processes[r]); }
    }
  }

  lemma {:induction false} ReplaceKeeps(s: State, base: Data, p: Pid)
    requires Inv(s, base) && s.At(p).Written?
    ensures Inv(Step(s, p, Replace), base)
  {
    hide SeenSince;
    var s', save := Step(s, p, Replace), s.At(p).save;
    assert Fits(s, base, s.At(p)) && s.lock == Some(p);
    AfterPrefix(base, s.saves, [save], |s.saves|);
    assert View(s') == After(base, s'.saves, |s'.saves|);
    forall r | r in s'.processes ensures Fits(s', base, s'.processes[r]) {
      if r != p { ReplaceKeepsOther(s, base, p, r); }
    }
  }

  lemma {:induction false} ReplaceKeepsOther(s: State, base: Data, p: Pid, r: Pid)
    requires Inv(s, base) && s.At(p).Written? && r in s.processes && r != p
    ensures Fits(Step(s, p, Replace), base, s.processes[r])
  {
    hide After, SeenSince;
    var q, save := s.processes[r], s.At(p).save;
    assert Fits(s, base, q) && s.lock == Some(p);
    if q.Seen? && !q.exists_ {
      StillSeen(base, s.saves, save, q.since, map[]);
    } else if q.Reading? {
      StillSeen(base, s.saves, save, q.since, ViewOf(s.files[q.file]));
    } else if q.Got? && q.result.Some? {
      StillSeen(base, s.saves, save, q.since, q.result.value);
    }
  }

  // Every step keeps the invariant.
  lemma {:induction false} StepKeeps(s: State, base: Data, p: Pid, a: Action)
    requires Inv(s, base)
    ensures Inv(Step(s, p, a), base)
  {
    hide After, Inv;
    var q, s' := s.At(p), Step(s, p, a);
    if s' == s {
    } else if q.Loaded? && a.Create? {
      CreateKeeps(s, base, p, a.now);
    } else if q.Writing? && a.Write? {
      WriteKeeps(s, base, p, a.whole);
    } else if q.Written? && a.Replace? {
      ReplaceKeeps(s, base, p);
    } else {
      MoveFits(s, base, p, a);
      MoveKeeps(s, s', base, p, s'.At(p));
    }
  }

  predicate Moves(q: Process, a: Action) {
    !(q.Loaded? && a.Create?) && !(q.Writing? && a.Write?) && !(q.Written? && a.Replace?)
  }

  lemma {:induction false} MoveShape(s: State, p: Pid, a: Action)
    requires Moves(s.At(p), a) && (Critical(s.At(p)) ==> s.lock == Some(p)) && Step(s, p, a) != s
    ensures var s' := Step(s, p, a);
      && s'.files == s.files && s'.path == s.path && s'.saves == s.saves && s'.processes == s.processes[p := s'.At(p)]
      && !s'.At(p).Writing? && (Critical(s'.At(p)) ==> s'.lock == Some(p))
      && (s'.lock == s.lock || s.lock.None? || s.lock == Some(p))
  {}

  predicate Loads(q: Process) { q.Looking? || q.Seen? || q.Reading? || q.Got? }

  lemma {:induction false} SaverFits(s: State, base: Data, p: Pid, a: Action)
    requires Fits(s, base, s.At(p)) && !Loads(s.At(p)) && Moves(s.At(p), a)
    ensures Fits(s, base, Step(s, p, a).At(p)) && !Step(s, p, a).At(p).Reading?
  {
    hide After, SeenSince;
  }

  lemma {:induction false} LoaderFits(s: State, base: Data, p: Pid, a: Action)
    requires Inv(s, base) && Fits(s, base, s.At(p)) && Loads(s.At(p))
    ensures var q := Step(s, p, a).At(p);
      && Fits(s, base, q) && (q.Reading? ==> q == s.At(p) || s.path == Some(q.file))
  {
    hide After, SeenSince;
    var q := s.At(p);
    if q.Looking? || q.Seen? { SeenNow(s, base, q.since); }
  }

  lemma {:induction false} MoveFits(s: State, base: Data, p: Pid, a: Action)
    requires Inv(s, base) && Moves(s.At(p), a) && Step(s, p, a) != s
    ensures var s' := Step(s, p, a);
      && s'.files == s.files && s'.path == s.path && s'.saves == s.saves && s'.processes == s.processes[p := s'.At(p)]
      && Fits(s, base, s'.At(p)) && !s'.At(p).Writing?
      && (s'.At(p).Reading? ==> forall r :: r in s.processes ==> Apart(s.processes[r], s'.At(p)))
      && (Critical(s'.At(p)) ==> s'.lock == Some(p))
      && (s'.lock == s.lock || s.lock.None? || s.lock == Some(p))
  {
    hide After, SeenSince, Step;
    var q := s.At(p);
    IdleFits(s, base, p);
    MoveShape(s, p, a);
    if Loads(q) { LoaderFits(s, base, p, a); } else { SaverFits(s, base, p, a); }
    if Step(s, p, a).At(p).Reading? {
      forall r | r in s.processes ensures Apart(s.processes[r], Step(s, p, a).At(p)) {
        assert Fits(s, base, s.processes[r]) && (p in s.processes ==> Apart(s.processes[r], s.processes[p]));
      }
    }
  }

  lemma {:induction false} IdleFits(s: State, base: Data, p: Pid)
    requires Inv(s, base)
    ensures Fits(s, base, s.At(p)) && (Critical(s.At(p)) ==> s.lock == Some(p))
  {}

  // Before anyone has done anything.
  predicate Starts(s: State) {
    s.lock.None? && s.processes == map[] && s.saves == [] && (s.path.Some? ==> s.path.value < |s.files|)
  }

  lemma {:induction false} RunKeeps(s: State, trace: seq<(Pid, Action)>, n: nat)
    requires Starts(s) && n <= |trace|
    ensures Inv(Run(s, trace, n), View(s))
  {
    hide Step, Inv;
    if n == 0 {
      StartFits(s);
    } else {
      RunKeeps(s, trace, n - 1);
      StepKeeps(Run(s, trace, n - 1), View(s), trace[n - 1].0, trace[n - 1].1);
    }
  }

  lemma {:induction false} StartFits(s: State)
    requires Starts(s)
    ensures Inv(s, View(s))
  {}

  /* ---- what it is for ---- */

  lemma {:induction false} SavesGrow(s: State, trace: seq<(Pid, Action)>, m: nat, n: nat)
    requires m <= n <= |trace|
    ensures Run(s, trace, m).saves <= Run(s, trace, n).saves
  {
    hide Step;
    if m < n {
      SavesGrow(s, trace, m, n - 1);
      StepGrows(Run(s, trace, n - 1), trace[n - 1].0, trace[n - 1].1);
    }
  }

  lemma {:induction false} StepGrows(s: State, p: Pid, a: Action)
    ensures s.saves <= Step(s, p, a).saves
  {}

  // After any run the file holds the saves in their order.
  lemma {:induction false} FileHoldsTheSaves(s: State, trace: seq<(Pid, Action)>, n: nat)
    requires Starts(s) && n <= |trace|
    ensures View(Run(s, trace, n)) == After(View(s), Run(s, trace, n).saves, |Run(s, trace, n).saves|)
  {
    hide Run, After;
    RunKeeps(s, trace, n);
  }

  // A whole save that has returned True, at step m, stays until its key is saved again or a save whose read failed
  // starts over or one is torn.
  lemma {:induction false} NoSaveIsLost(s: State, trace: seq<(Pid, Action)>, p: Pid, m: nat, n: nat)
    requires Starts(s) && m <= n <= |trace| && Run(s, trace, m).At(p).Saved?
    ensures var save, saves, j := Run(s, trace, m).At(p).save, Run(s, trace, n).saves, |Run(s, trace, m).saves| - 1;
      && 0 <= j < |saves| && saves[j] == save
      && (Stands(saves, j, |saves|) ==> save.key in View(Run(s, trace, n)) && View(Run(s, trace, n))[save.key] == save.entry)
  {
    hide Run, After, Stands, View;
    RunKeeps(s, trace, m);
    assert Fits(Run(s, trace, m), View(s), Run(s, trace, m).At(p));
    FileHoldsTheSaves(s, trace, n);
    SavesGrow(s, trace, m, n);
    WhatIsThere(View(s), Run(s, trace, n).saves, |Run(s, trace, n).saves|, Run(s, trace, m).At(p).save.key);
  }

  // _load_from_file, from the map it has read
  function Answer(data: Data, key: Key, now: int): Option<string> {
    if key !in data || now - data[key].timestamp > CONTEXT_TTL then None else Some(data[key].context)
  }

  // A load answers from what was the whole content at one moment since it began: from the last save of its key
  // before that moment, unless that has expired.
  lemma {:induction false} LoadSeesOneMoment(s: State, trace: seq<(Pid, Action)>, p: Pid, now: int)
    requires Starts(s) && Run(s, trace, |trace|).At(p).Got? && Run(s, trace, |trace|).At(p).result.Some?
    ensures var t := Run(s, trace, |trace|); var q := t.At(p);
      exists k :: q.since <= k <= |t.saves| && q.result.value == After(View(s), t.saves, k)
        && AnswersFrom(View(s), t.saves, k, q.key, now, Answer(q.result.value, q.key, now))
  {
    hide Run, After, Answer, AnswersFrom;
    RunKeeps(s, trace, |trace|);
    var t := Run(s, trace, |trace|);
    var q := t.At(p);
    assert Fits(t, View(s), q);
    var k :| q.since <= k <= |t.saves| && q.result.value == After(View(s), t.saves, k);
    AnswerIs(View(s), t.saves, k, q.key, now);
  }

  ghost predicate AnswersFrom(base: Data, saves: seq<Save>, k: nat, key: Key, now: int, answer: Option<string>)
    requires k <= |saves|
  {
    && (forall j :: 0 <= j < k && saves[j].key == key && Stands(saves, j, k) ==>
      answer == if now - saves[j].entry.timestamp > CONTEXT_TTL then None else Some(saves[j].entry.context))
    && (Unsaved(saves, key, k) ==> answer == Answer(base, key, now))
    && (answer.Some? ==> Unsaved(saves, key, k) || exists j :: 0 <= j < k && saves[j].key == key && Stands(saves, j, k))
  }

  lemma {:induction false} AnswerIs(base: Data, saves: seq<Save>, k: nat, key: Key, now: int)
    requires k <= |saves|
    ensures AnswersFrom(base, saves, k, key, now, Answer(After(base, saves, k), key, now))
  {
    hide After, Stands, Unsaved;
    WhatIsThere(base, saves, k, key);
    if Unsaved(saves, key, k) { Untouched(base, saves, k, key); }
  }

  lemma {:induction false} Untouched(base: Data, saves: seq<Save>, k: nat, key: Key)
    requires Unsaved(saves, key, k)
    ensures key in After(base, saves, k) <==> key in base
    ensures key in base ==> After(base, saves, k)[key] == base[key]
  {
    if k > 0 { Untouched(base, saves, k - 1, key); }
  }

  /* ---- loads that succeed ---- */

  // The process's own opens and reads succeed.
  predicate OpensAndReads(trace: seq<(Pid, Action)>, p: Pid) {
    forall i :: 0 <= i < |trace| && trace[i].0 == p ==> (trace[i].1.Open? ==> trace[i].1.ok) && (trace[i].1.Read? ==> trace[i].1.ok)
  }

  // A load has its result, and one that has seen the file can open it.
  predicate LoadGoesWell(s: State, p: Pid) {
    && (s.At(p).Seen? && s.At(p).exists_ ==> s.path.Some?)
    && (s.At(p).Got? ==> s.At(p).result.Some?)
  }

  lemma {:induction false} StepGoesWell(s: State, p: Pid, q: Pid, a: Action)
    requires LoadGoesWell(s, p) && (p == q ==> (a.Open? ==> a.ok) && (a.Read? ==> a.ok))
    ensures LoadGoesWell(Step(s, q, a), p)
  {}

  lemma {:induction false} RunGoesWell(s: State, trace: seq<(Pid, Action)>, p: Pid, n: nat)
    requires Starts(s) && OpensAndReads(trace, p) && n <= |trace|
    ensures LoadGoesWell(Run(s, trace, n), p)
  {
    hide Step, LoadGoesWell;
    if n == 0 {
      StartGoesWell(s, p);
    } else {
      RunGoesWell(s, trace, p, n - 1);
      StepGoesWell(Run(s, trace, n - 1), p, trace[n - 1].0, trace[n - 1].1);
    }
  }

  lemma {:induction false} StartGoesWell(s: State, p: Pid)
    requires Starts(s)
    ensures LoadGoesWell(s, p)
  {}

  // Over any run, a load whose own open and read succeed ends with a map.
  lemma {:induction false} LoadSucceeds(s: State, trace: seq<(Pid, Action)>, p: Pid)
    requires Starts(s) && OpensAndReads(trace, p) && Run(s, trace, |trace|).At(p).Got?
    ensures Run(s, trace, |trace|).At(p).result.Some?
  {
    hide Run;
    RunGoesWell(s, trace, p, |trace|);
  }

  /* ---- two runs that lose a save ---- */

  // The steps of one save that nothing disturbs; a step that is not due changes nothing.
  function Alone(p: Pid, key: Key, context: string, now: int, opens: bool, whole: bool): (r: seq<(Pid, Action)>)
    ensures |r| == 9
  {
    [(p, StartSave(key, context)), (p, Acquire), (p, Exists), (p, Open(opens)), (p, Read(true)), (p, Create(now)),
     (p, Write(whole)), (p, Replace), (p, Release)]
  }

  predicate Quiet(s: State, p: Pid) {
    s.At(p).Idle? && s.lock.None? && (s.path.Some? ==> s.path.value < |s.files|)
  }

  // Up to the lock,
  lemma {:induction false} AloneHolds(s: State, p: Pid, key: Key, context: string, now: int, opens: bool, whole: bool)
    requires Quiet(s, p)
    ensures Run(s, Alone(p, key, context, now, opens, whole), 3)
      == s.Move(p, Checked(key, context, s.path.Some?)).(lock := Some(p))
  {
    hide Run;
    var trace := Alone(p, key, context, now, opens, whole);
    RunSteps(s, trace, 0);
    RunSteps(s, trace, 1);
    RunSteps(s, trace, 2);
    assert Run(s, trace, 1) == s.Move(p, Waiting(key, context));
    assert Run(s, trace, 2) == s.Move(p, Holding(key, context)).(lock := Some(p));
  }

  // up to the map a save goes on from,
  lemma {:induction false} AloneLoads(s: State, p: Pid, key: Key, context: string, now: int, opens: bool, whole: bool)
    requires Quiet(s, p)
    ensures var t := Run(s, Alone(p, key, context, now, opens, whole), 5);
      var blind := s.path.Some? && !opens;
      && t.At(p) == Loaded(key, context, if blind then map[] else View(s), blind)
      && t == s.Move(p, t.At(p)).(lock := Some(p))
  {
    hide View, Run;
    var trace := Alone(p, key, context, now, opens, whole);
    AloneHolds(s, p, key, context, now, opens, whole);
    RunSteps(s, trace, 3);
    RunSteps(s, trace, 4);
    ViewIs(s);
    if s.path.Some? && opens {
      assert Run(s, trace, 4) == s.Move(p, Opened(key, context, s.path.value)).(lock := Some(p));
    }
  }

  lemma {:induction false} ViewIs(s: State)
    requires s.path.Some? ==> s.path.value < |s.files|
    ensures View(s) == if s.path.Some? then FileAt(s, s.path.value) else map[]
  {}

  lemma {:induction false} RunSteps(s: State, trace: seq<(Pid, Action)>, n: nat)
    requires n < |trace|
    ensures Run(s, trace, 0) == s && Run(s, trace, n + 1) == Step(Run(s, trace, n), trace[n].0, trace[n].1)
  {}

  // up to the file it makes,
  lemma {:induction false} AloneCreates(s: State, p: Pid, key: Key, context: string, now: int, opens: bool, whole: bool)
    requires Quiet(s, p)
    ensures var blind := s.path.Some? && !opens;
      var data := (if blind then map[] else View(s))[key := Entry(context, now)];
      Run(s, Alone(p, key, context, now, opens, whole), 6) ==
        s.Move(p, Writing(Save(key, Entry(context, now), blind, false), data, |s.files|))
        .(lock := Some(p), files := s.files + [Unreadable])
  {
    hide View, Run;
    AloneLoads(s, p, key, context, now, opens, whole);
    RunSteps(s, Alone(p, key, context, now, opens, whole), 5);
  }

  // up to the file it writes,
  lemma {:induction false} AloneWrites(s: State, p: Pid, key: Key, context: string, now: int, opens: bool, whole: bool)
    requires Quiet(s, p)
    ensures var blind := s.path.Some? && !opens;
      var data := (if blind then map[] else View(s))[key := Entry(context, now)];
      Run(s, Alone(p, key, context, now, opens, whole), 7) ==
        s.Move(p, Written(Save(key, Entry(context, now), blind, !whole), data, |s.files|))
        .(lock := Some(p), files := s.files + [if whole then Holds(data) else Unreadable])
  {
    hide View, Run;
    AloneCreates(s, p, key, context, now, opens, whole);
    RunSteps(s, Alone(p, key, context, now, opens, whole), 6);
  }

  // and to its end.
  lemma {:induction false} AloneSaves(s: State, p: Pid, key: Key, context: string, now: int, opens: bool, whole: bool)
    requires Quiet(s, p)
    ensures var t := Run(s, Alone(p, key, context, now, opens, whole), 9);
      var from := if s.path.Some? && !opens then map[] else View(s);
      && Quiet(t, p) && View(t) == (if whole then from[key := Entry(context, now)] else map[])
      && (forall q :: q != p ==> t.At(q) == s.At(q))
  {
    hide View, Run;
    var trace := Alone(p, key, context, now, opens, whole);
    AloneWrites(s, p, key, context, now, opens, whole);
    RunSteps(s, trace, 7);
    RunSteps(s, trace, 8);
    ViewIs(Run(s, trace, 9));
  }

  lemma {:induction false} RunSplits(s: State, a: seq<(Pid, Action)>, b: seq<(Pid, Action)>, n: nat)
    requires n <= |b|
    ensures Run(s, a + b, |a| + n) == Run(Run(s, a, |a|), b, n)
  {
    hide Step;
    if n == 0 { RunPrefix(s, a, b, |a|); } else { RunSplits(s, a, b, n - 1); }
  }

  lemma {:induction false} RunPrefix(s: State, a: seq<(Pid, Action)>, b: seq<(Pid, Action)>, n: nat)
    requires n <= |a|
    ensures Run(s, a + b, n) == Run(s, a, n)
  {
    hide Step;
    if n > 0 { RunPrefix(s, a, b, n - 1); }
  }

  // The steps of one load.
  function AloneLoad(q: Pid, key: Key): (r: seq<(Pid, Action)>)
    ensures |r| == 4
  {
    [(q, StartLoad(key)), (q, Exists), (q, Open(true)), (q, Read(true))]
  }

  lemma {:induction false} AloneLooks(s: State, q: Pid, key: Key)
    requires Quiet(s, q)
    ensures Run(s, AloneLoad(q, key), 2) == s.Move(q, Seen(key, |s.saves|, s.path.Some?))
  {
    hide Run;
    var trace := AloneLoad(q, key);
    RunSteps(s, trace, 0);
    RunSteps(s, trace, 1);
    assert Run(s, trace, 1) == s.Move(q, Looking(key, |s.saves|));
  }

  lemma {:induction false} AloneGets(s: State, q: Pid, key: Key)
    requires Quiet(s, q)
    ensures Run(s, AloneLoad(q, key), 4).At(q) == Got(key, |s.saves|, Some(View(s)))
  {
    hide View, Run;
    var trace := AloneLoad(q, key);
    AloneLooks(s, q, key);
    RunSteps(s, trace, 2);
    RunSteps(s, trace, 3);
    ViewIs(s);
    if s.path.Some? { assert Run(s, trace, 3) == s.Move(q, Reading(key, |s.saves|, s.path.value)); }
  }

  // After a whole save that nothing disturbs, a load that nothing disturbs answers with what was saved, until the
  // 300 seconds are over.
  lemma {:induction false} LoadAfterSave(s: State, p: Pid, q: Pid, key: Key, context: string, now: int, opens: bool, later: int)
    requires Quiet(s, p) && s.At(q).Idle?
    ensures var t := Run(s, Alone(p, key, context, now, opens, true) + AloneLoad(q, key), 13).At(q);
      && t.Got? && t.key == key && t.result.Some?
      && (later - now <= 300 ==> Answer(t.result.value, key, later) == Some(context))
      && (later - now > 300 ==> Answer(t.result.value, key, later) == None)
  {
    hide View, Run;
    var save, load := Alone(p, key, context, now, opens, true), AloneLoad(q, key);
    AloneSaves(s, p, key, context, now, opens, true);
    RunPrefix(s, save, load, 9);
    RunSplits(s, save, load, 4);
    AloneGets(Run(s, save, 9), q, key);
  }

  const NOTHING_YET := State([], None, None, map[], [])

  // A save has returned and is there; then another one, whose read fails or whose write is short, takes it away.
  lemma {:induction false} LaterSaveLosesIt(opens: bool, whole: bool)
    requires !opens || !whole
    ensures var first, second := Alone(0, "a", "x", 0, true, true), Alone(1, "b", "y", 0, opens, whole);
      && Starts(NOTHING_YET)
      && "a" in View(Run(NOTHING_YET, first + second, 9)) && "a" !in View(Run(NOTHING_YET, first + second, 18))
  {
    hide Run, View;
    var first, second := Alone(0, "a", "x", 0, true, true), Alone(1, "b", "y", 0, opens, whole);
    AloneSaves(NOTHING_YET, 0, "a", "x", 0, true, true);
    var s := Run(NOTHING_YET, first, 9);
    RunPrefix(NOTHING_YET, first, second, 9);
    RunSplits(NOTHING_YET, first, second, 9);
    ViewIs(s);
    ViewIs(NOTHING_YET);
    assert s.At(1) == NOTHING_YET.At(1) == Idle;
    AloneSaves(s, 1, "b", "y", 0, opens, whole);
  }
}
