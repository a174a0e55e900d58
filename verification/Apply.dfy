/**
 Applying an edit to a file: a state machine over system calls any of which may fail, with every state the
 disk passes through on record. Whatever happens, and wherever the run is cut off, no data is lost.
 */
module Apply {
  import opened Options

  type Bytes = seq<bv8>
  type Mode = bv16

  // A file's bytes, whether they are known to be on the medium, and its mode.
  datatype File = File(data: Bytes, synced: bool, mode: Mode)

  type Files = map<string, File>

  const ANY_WRITE: Mode := 0x92
  const PERMISSIONS: Mode := 0xFFF
  const PRIVATE: Mode := 0x180

  // The file system as one process sees it. Call number n fails when fails(n); a failing write stops after
  // torn(n) bytes. The trace is every state since the disk was made.
  class Disk {
    var files: Files
    var directory: Mode
    var clock: nat
    const fails: nat -> bool
    const torn: nat -> nat
    ghost var trace: seq<Files>

    constructor (files: Files, directory: Mode, fails: nat -> bool, torn: nat -> nat)
      ensures Valid() && this.files == files && this.directory == directory && trace == [files]
    {
      this.files, this.directory, this.fails, this.torn := files, directory, fails, torn;
      clock, trace := 0, [files];
    }

    ghost predicate Valid()
      reads this
    {
      trace != [] && trace[|trace| - 1] == files
    }

    method Call() returns (ok: bool)
      modifies `clock
      ensures ok == !fails(old(clock)) && clock == old(clock) + 1
    {
      ok := !fails(clock);
      clock := clock + 1;
    }

    method Read(name: string) returns (ok: bool)
      modifies `clock
      ensures ok == (!fails(old(clock)) && name in files) && clock == old(clock) + 1
    {
      ok := Call();
      ok := ok && name in files;
    }

    // Creates an empty file that was not there; fails when it was.
    method Create(name: string, mode: Mode) returns (ok: bool)
      requires Valid()
      modifies `clock, `files, `trace
      ensures Valid() && ok == (!fails(old(clock)) && name !in old(files)) && clock == old(clock) + 1
      ensures ok ==> name !in old(files) && files == old(files)[name := File([], false, mode)] && trace == old(trace) + [files]
      ensures !ok ==> files == old(files) && trace == old(trace)
    {
      ok := Call();
      if ok && name !in files {
        files := files[name := File([], false, mode)];
        trace := trace + [files];
      } else {
        ok := false;
      }
    }

    // Writes the bytes of an empty file one after another; a failure leaves a part of them.
    method Write(name: string, data: Bytes) returns (ok: bool)
      requires Valid() && name in files && files[name].data == []
      modifies `clock, `files, `trace
      ensures Valid() && |trace| >= |old(trace)| && trace[..|old(trace)|] == old(trace)
      ensures forall i :: |old(trace)| <= i < |trace| ==>
        exists k :: 0 <= k <= |data| && trace[i] == old(files)[name := File(data[..k], false, old(files)[name].mode)]
      ensures files == old(files) || exists k :: 0 <= k <= |data| && files == old(files)[name := File(data[..k], false, old(files)[name].mode)]
      ensures ok ==> files == old(files)[name := File(data, false, old(files)[name].mode)]
      ensures ok == !fails(old(clock)) && clock == old(clock) + 1
    {
      ok := Call();
      var stop := if ok then |data| else if torn(clock) < |data| then torn(clock) else |data|;
      var mode := files[name].mode;
      ghost var was := files;
      for k := 0 to stop
        invariant Valid() && clock == old(clock) + 1
        invariant |trace| >= |old(trace)| && trace[..|old(trace)|] == old(trace)
        invariant files == was || files == was[name := File(data[..k], false, mode)]
        invariant k > 0 ==> files == was[name := File(data[..k], false, mode)]
        invariant forall i :: |old(trace)| <= i < |trace| ==>
          exists j :: 0 <= j <= |data| && trace[i] == was[name := File(data[..j], false, mode)]
      {
        files := files[name := File(data[..k + 1], false, mode)];
        trace := trace + [files];
      }
      if ok && data == [] {
        files := files[name := File(data[..0], false, mode)];
        trace := trace + [files];
      }
      assert data[..|data|] == data;
    }

    method Sync(name: string) returns (ok: bool)
      requires Valid() && name in files
      modifies `clock, `files, `trace
      ensures Valid() && ok == !fails(old(clock)) && clock == old(clock) + 1
      ensures ok ==> files == old(files)[name := old(files)[name].(synced := true)] && trace == old(trace) + [files]
      ensures !ok ==> files == old(files) && trace == old(trace)
    {
      ok := Call();
      if ok {
        files := files[name := files[name].(synced := true)];
        trace := trace + [files];
      }
    }

    method Chmod(name: string, mode: Mode) returns (ok: bool)
      requires Valid() && name in files
      modifies `clock, `files, `trace
      ensures Valid() && ok == !fails(old(clock)) && clock == old(clock) + 1
      ensures ok ==> files == old(files)[name := old(files)[name].(mode := mode)] && trace == old(trace) + [files]
      ensures !ok ==> files == old(files) && trace == old(trace)
    {
      ok := Call();
      if ok {
        files := files[name := files[name].(mode := mode)];
        trace := trace + [files];
      }
    }

    // Puts a file in the place of another in one step.
    method Rename(from: string, to: string) returns (ok: bool)
      requires Valid() && from in files
      modifies `clock, `files, `trace
      ensures Valid() && ok == !fails(old(clock)) && clock == old(clock) + 1
      ensures ok ==> files == (old(files) - {from})[to := old(files)[from]] && trace == old(trace) + [files]
      ensures !ok ==> files == old(files) && trace == old(trace)
    {
      ok := Call();
      if ok {
        files := (files - {from})[to := files[from]];
        trace := trace + [files];
      }
    }

    method Unlink(name: string) returns (ok: bool)
      requires Valid()
      modifies `clock, `files, `trace
      ensures Valid() && clock == old(clock) + 1 && ok == !fails(old(clock))
      ensures ok ==> files == old(files) - {name} && trace == old(trace) + [files]
      ensures !ok ==> files == old(files) && trace == old(trace)
    {
      ok := Call();
      if ok {
        files := files - {name};
        trace := trace + [files];
      }
    }
  }

  // A planned edit: the file as it was previewed, and its new contents, or None to remove it.
  datatype Change = Change(path: string, original: Bytes, replacement: Option<Bytes>, mode: Mode)

  // The target is untouched.
  predicate Intact(files: Files, c: Change, before: Files) {
    c.path in files && c.path in before && files[c.path] == before[c.path]
  }

  // The edit is there in full.
  predicate InPlace(files: Files, c: Change) {
    match c.replacement
    case None => c.path !in files
    case Some(data) => c.path in files && files[c.path] == File(data, true, c.mode & PERMISSIONS)
  }

  // A complete backup that its owner alone may read and write.
  predicate BackedUp(files: Files, c: Change, backup: string) {
    backup in files && files[backup] == File(c.original, true, 0x180)
  }

  // Nothing is lost: the target is untouched, or the edit is there in full beside a complete backup.
  predicate Safe(files: Files, c: Change, backup: string, before: Files) {
    Intact(files, c, before) || (InPlace(files, c) && BackedUp(files, c, backup))
  }

  // Files other than the three of the run are as they were.
  ghost predicate OthersKept(files: Files, before: Files, mine: set<string>) {
    forall n :: n !in mine ==> (n in files <==> n in before) && (n in files ==> files[n] == before[n])
  }

  ghost predicate Good(files: Files, c: Change, backup: string, temp: string, before: Files) {
    Safe(files, c, backup, before) && OthersKept(files, before, {c.path, backup, temp})
  }

  // Every state of the trace from a point on is good.
  ghost predicate GoodFrom(trace: seq<Files>, from: nat, c: Change, backup: string, temp: string, before: Files) {
    forall i :: from <= i < |trace| ==> Good(trace[i], c, backup, temp, before)
  }

  // No call from number n on fails.
  ghost predicate NoneFails(disk: Disk, n: nat) { forall k: nat :: n <= k ==> !disk.fails(k) }

  // The target is as previewed, and may be written.
  predicate AsPreviewed(files: Files, directory: Mode, c: Change) {
    && c.path in files && files[c.path].data == c.original && files[c.path].mode == c.mode
    && c.mode & ANY_WRITE != 0 && directory & ANY_WRITE != 0
  }

  // The names the edit needs are not taken; a removal needs no temporary file.
  predicate NamesAreFree(files: Files, c: Change, backup: string, temp: string) {
    backup !in files && (c.replacement.Some? ==> temp !in files)
  }

  method Validate(disk: Disk, c: Change) returns (ok: bool)
    modifies disk`clock
    ensures disk.clock == old(disk.clock) + 1
    ensures ok <==>
      && !disk.fails(old(disk.clock)) && c.path in disk.files && disk.files[c.path].data == c.original
      && disk.files[c.path].mode == c.mode && c.mode & ANY_WRITE != 0 && disk.directory & ANY_WRITE != 0
  {
    ok := disk.Read(c.path);
    ok := ok && disk.files[c.path].data == c.original && disk.files[c.path].mode == c.mode
      && c.mode & ANY_WRITE != 0 && disk.directory & ANY_WRITE != 0;
  }

  // Makes the backup; true once it is complete.
  method MakeBackup(disk: Disk, c: Change, backup: string, ghost temp: string) returns (ok: bool)
    requires disk.Valid() && c.path in disk.files && backup != c.path
    modifies disk`clock, disk`files, disk`trace
    ensures disk.Valid() && |disk.trace| >= |old(disk.trace)| && disk.trace[..|old(disk.trace)|] == old(disk.trace)
    ensures GoodFrom(disk.trace, |old(disk.trace)|, c, backup, temp, old(disk.files))
    ensures Good(disk.files, c, backup, temp, old(disk.files)) && Intact(disk.files, c, old(disk.files))
    ensures OthersKept(disk.files, old(disk.files), {backup})
    ensures ok ==> backup !in old(disk.files) && BackedUp(disk.files, c, backup)
    ensures disk.clock >= old(disk.clock)
    ensures NoneFails(disk, old(disk.clock)) && backup !in old(disk.files) ==> ok
  {
    ok := disk.Create(backup, PRIVATE);
    if !ok { return; }
    ok := disk.Write(backup, c.original);
    if !ok { return; }
    ok := disk.Sync(backup);
  }

  // States in which only one file has changed since another state.
  ghost predicate OnlyFrom(trace: seq<Files>, from: nat, name: string, since: Files) {
    forall i :: from <= i < |trace| ==> OthersKept(trace[i], since, {name})
  }

  // Fills a temporary file with the replacement, ready to be moved.
  method Prepare(disk: Disk, temp: string, data: Bytes, mode: Mode) returns (made: bool, ok: bool)
    requires disk.Valid()
    modifies disk`clock, disk`files, disk`trace
    ensures disk.Valid() && |disk.trace| >= |old(disk.trace)| && disk.trace[..|old(disk.trace)|] == old(disk.trace)
    ensures OnlyFrom(disk.trace, |old(disk.trace)|, temp, old(disk.files))
    ensures OthersKept(disk.files, old(disk.files), {temp})
    ensures made ==> temp !in old(disk.files)
    ensures !made ==> !ok && disk.files == old(disk.files)
    ensures ok ==> temp in disk.files && disk.files[temp] == File(data, true, mode)
    ensures disk.clock >= old(disk.clock)
    ensures NoneFails(disk, old(disk.clock)) && temp !in old(disk.files) ==> ok
  {
    ok := disk.Create(temp, PRIVATE);
    made := ok;
    if !ok { return; }
    ok := disk.Write(temp, data);
    if !ok { return; }
    ok := disk.Sync(temp);
    if !ok { return; }
    ok := disk.Chmod(temp, mode);
  }

  lemma {:induction false} TempIsHarmless(files: Files, since: Files, c: Change, backup: string, temp: string, before: Files)
    requires temp != c.path && temp != backup && OthersKept(files, since, {temp})
    requires Good(since, c, backup, temp, before) && Intact(since, c, before) && BackedUp(since, c, backup)
    ensures Good(files, c, backup, temp, before) && Intact(files, c, before) && BackedUp(files, c, backup)
  {}

  lemma {:induction false} TempsAreHarmless(trace: seq<Files>, from: nat, since: Files, c: Change, backup: string, temp: string, before: Files)
    requires temp != c.path && temp != backup && OnlyFrom(trace, from, temp, since)
    requires Good(since, c, backup, temp, before) && Intact(since, c, before) && BackedUp(since, c, backup)
    ensures GoodFrom(trace, from, c, backup, temp, before)
  {
    hide Good, OthersKept, Intact, BackedUp;
    forall i | from <= i < |trace| ensures Good(trace[i], c, backup, temp, before) {
      TempIsHarmless(trace[i], since, c, backup, temp, before);
    }
  }

  lemma {:induction false} MoveIsGood(files: Files, moved: Files, c: Change, backup: string, temp: string, before: Files)
    requires temp != c.path && temp != backup && backup != c.path && temp in files
    requires Good(files, c, backup, temp, before) && BackedUp(files, c, backup)
    requires c.replacement.Some? && files[temp] == File(c.replacement.value, true, c.mode & PERMISSIONS)
    requires moved == (files - {temp})[c.path := files[temp]]
    ensures Good(moved, c, backup, temp, before) && InPlace(moved, c) && BackedUp(moved, c, backup) && temp !in moved
  {}

  // Writes the replacement beside the target and moves it there in one step; the temporary file does not
  // outlive a failure unless the last call, the one that removes it, fails too.
  method Replace(disk: Disk, c: Change, data: Bytes, ghost backup: string, temp: string, ghost before: Files) returns (ok: bool)
    requires disk.Valid() && c.replacement == Some(data) && temp != c.path && temp != backup && backup != c.path
    requires Good(disk.files, c, backup, temp, before) && Intact(disk.files, c, before) && BackedUp(disk.files, c, backup)
    modifies disk`clock, disk`files, disk`trace
    ensures disk.Valid() && |disk.trace| >= |old(disk.trace)| && disk.trace[..|old(disk.trace)|] == old(disk.trace)
    ensures GoodFrom(disk.trace, |old(disk.trace)|, c, backup, temp, before) && Good(disk.files, c, backup, temp, before)
    ensures BackedUp(disk.files, c, backup)
    ensures if ok then InPlace(disk.files, c) && temp !in disk.files else Intact(disk.files, c, before)
    ensures NoneFails(disk, old(disk.clock)) && temp !in old(disk.files) ==> ok
    ensures !ok && temp in disk.files && temp !in old(disk.files) ==> disk.clock > 0 && disk.fails(disk.clock - 1)
  {
    hide Good, Intact, BackedUp, InPlace;
    ghost var since, from := disk.files, |disk.trace|;
    var made;
    made, ok := Prepare(disk, temp, data, c.mode & PERMISSIONS);
    TempsAreHarmless(disk.trace, from, since, c, backup, temp, before);
    TempIsHarmless(disk.files, since, c, backup, temp, before);
    ghost var ready := disk.files;
    if ok { ok := disk.Rename(temp, c.path); }
    if ok {
      MoveIsGood(ready, disk.files, c, backup, temp, before);
    } else if made && temp in disk.files {
      var gone := disk.Unlink(temp);
      TempIsHarmless(disk.files, since, c, backup, temp, before);
    }
  }

  datatype Outcome = Applied(backup: string) | Failed

  // Change.apply. With no other writer, at every step the target is untouched, or the edit is there in full
  // next to a complete backup that did not exist before. When no call fails, both names are free and the target is
  // as previewed, the edit is made.
  method ApplyChange(disk: Disk, c: Change, backup: string, temp: string) returns (r: Outcome)
    requires disk.Valid() && backup != c.path && temp != c.path && temp != backup
    modifies disk`clock, disk`files, disk`trace
    ensures disk.Valid() && |disk.trace| >= |old(disk.trace)| && disk.trace[..|old(disk.trace)|] == old(disk.trace)
    ensures c.path in old(disk.files) ==> GoodFrom(disk.trace, |old(disk.trace)|, c, backup, temp, old(disk.files))
    ensures r.Applied? ==>
      && r.backup == backup && backup !in old(disk.files) && BackedUp(disk.files, c, backup) && InPlace(disk.files, c)
      && c.path in old(disk.files) && old(disk.files)[c.path].data == c.original
      && OthersKept(disk.files, old(disk.files), {c.path, backup, temp})
    ensures NoneFails(disk, old(disk.clock)) && AsPreviewed(old(disk.files), disk.directory, c)
      && NamesAreFree(old(disk.files), c, backup, temp)
      ==> r.Applied? && InPlace(disk.files, c)
    ensures r.Failed? ==> (c.path in old(disk.files) ==> Intact(disk.files, c, old(disk.files)))
    ensures c.path !in old(disk.files) || old(disk.files)[c.path].data != c.original || old(disk.files)[c.path].mode != c.mode
      ==> r.Failed? && disk.files == old(disk.files)
  {
    ghost var before := disk.files;
    var ok := Validate(disk, c);
    if !ok { return Failed; }
    ok := MakeBackup(disk, c, backup, temp);
    if !ok { return Failed; }
    ok := disk.Read(c.path);
    if !ok || disk.files[c.path].data != c.original { return Failed; }
    match c.replacement {
      case None => ok := disk.Unlink(c.path);
      case Some(data) => ok := Replace(disk, c, data, backup, temp, before);
    }
    r := if ok then Applied(backup) else Failed;
  }
}
