/** Backup and all-or-nothing restore of a stopped database: one base name with a list of suffixes. */
module Database {
  import opened Options
  import opened Disk

  const SUFFIXES: seq<string> := ["", "-wal", "-shm"]

  predicate Distinct(suffixes: seq<string>) {
    forall i, j :: 0 <= i < j < |suffixes| ==> suffixes[i] != suffixes[j]
  }

  ghost function Paths(base: Base, suffixes: seq<string>, roles: set<Role>): iset<Path> {
    iset p: Path | p.place == base.place && p.name == base.name && p.suffix in suffixes && p.role in roles
  }

  const RESTORE_ROLES: set<Role> := {Live, RestoreTmp, RestoreOld}

  /** The database `x` of `a` and the database `y` of `b` have the same files with the same contents. */
  ghost predicate SameDatabase(a: Files, x: Base, b: Files, y: Base, suffixes: seq<string>) {
    forall s | s in suffixes :: Same(a, x.At(s, Live), b, y.At(s, Live))
  }

  /** Every file of the database `y` in `b` is missing or equal to that of `x` in `a`. */
  ghost predicate PartOf(a: Files, x: Base, b: Files, y: Base, suffixes: seq<string>) {
    forall s | s in suffixes :: y.At(s, Live) !in b || Same(a, x.At(s, Live), b, y.At(s, Live))
  }

  /** No file of the original database stands beside a file of the backup. */
  ghost predicate Unmixed(before: Files, now: Files, backup: Base, dest: Base, suffixes: seq<string>) {
    || PartOf(before, dest, now, dest, suffixes)
    || PartOf(before, backup, now, dest, suffixes)
  }

  /** Nothing but a failing call can keep the files of `source` from being copied to the names of `dest`. */
  predicate CanCopy(files: Files, source: Base, dest: Base, suffixes: seq<string>, role: Role) {
    && ("" in suffixes ==> source.At("", Live) in files)
    && forall s | s in suffixes ::
         (source.At(s, Live) in files ==> files[source.At(s, Live)].File?)
         && (dest.At(s, role) in files ==> !files[dest.At(s, role)].Dir?)
  }

  method PrepareOne(disk: Disk, backup: Path, scratch: Path, optional: bool) returns (ok: bool, copied: bool)
    requires disk.Valid() && backup != scratch
    modifies disk
    ensures disk.Valid() && old(disk.trace) <= disk.trace && disk.Counted(old(disk.faults), old(disk.slips))
    ensures disk.Since(|old(disk.trace)|, old(disk.files), iset{scratch})
    ensures ok ==> copied == (backup in old(disk.files)) && (copied || optional)
    ensures ok && copied ==>
      disk.files == old(disk.files)[scratch := old(disk.files)[backup]] && old(disk.files)[backup].File?
    ensures ok && !copied ==> disk.files == old(disk.files)
    ensures !ok ==>
      old(disk.faults) < disk.faults || (backup in old(disk.files) && !Copyable(old(disk.files), backup, scratch))
      || (backup !in old(disk.files) && !optional)
  {
    var stat := disk.Stat(backup);
    if !stat.Present? {
      return optional && stat.Absent?, false;
    }
    ok := disk.CopyFile(backup, scratch);
    copied := ok;
  }

  method PrepareCopies(disk: Disk, backup: Base, dest: Base, suffixes: seq<string>)
    returns (ok: bool, prepared: set<string>)
    requires disk.Valid() && backup != dest
    modifies disk
    ensures disk.Valid() && old(disk.trace) <= disk.trace && disk.Counted(old(disk.faults), old(disk.slips))
    ensures disk.Since(|old(disk.trace)|, old(disk.files), Paths(dest, suffixes, {RestoreTmp}))
    ensures ok ==> Copied(old(disk.files), disk.files, backup, dest, suffixes, prepared)
    ensures ok ==> forall s | s in prepared :: dest.At(s, RestoreTmp) in disk.files
    ensures forall i | |old(disk.trace)| <= i < |disk.trace| ::
      PartOf(old(disk.files), dest, disk.trace[i], dest, suffixes)
    ensures SameDatabase(old(disk.files), dest, disk.files, dest, suffixes)
    ensures ok && "" in suffixes ==> backup.At("", Live) in old(disk.files)
    ensures !ok ==> old(disk.faults) < disk.faults || !CanCopy(old(disk.files), backup, dest, suffixes, RestoreTmp)
  {
    prepared := {};
    ok := true;
    ghost var mark, before, all := |disk.trace|, disk.files, Paths(dest, suffixes, {RestoreTmp});
    for i := 0 to |suffixes|
      invariant disk.Valid() && old(disk.trace) <= disk.trace && disk.Counted(old(disk.faults), old(disk.slips))
      invariant disk.Since(mark, before, all)
      invariant forall s | s in suffixes[..i] :: s in prepared <==> backup.At(s, Live) in disk.files
      invariant forall s | s in prepared ::
        s in suffixes[..i] && dest.At(s, RestoreTmp) in disk.files
          && Same(disk.files, backup.At(s, Live), disk.files, dest.At(s, RestoreTmp))
      invariant "" in suffixes[..i] ==> backup.At("", Live) in before
      invariant CanCopy(before, backup, dest, suffixes, RestoreTmp) ==>
        CanCopy(disk.files, backup, dest, suffixes, RestoreTmp)
    {
      var s := suffixes[i];
      assert dest.At(s, RestoreTmp) in all;
      ghost var files, trace := disk.files, disk.trace;
      var copied;
      ok, copied := PrepareOne(disk, backup.At(s, Live), dest.At(s, RestoreTmp), s != "");
      Chain(mark, before, trace, all, files, disk.trace, disk.files, iset{dest.At(s, RestoreTmp)});
      if !ok {
        Untouched(disk, mark, before, dest, suffixes, {RestoreTmp});
        return;
      }
      prepared := if copied then prepared + {s} else prepared;
    }
    Untouched(disk, mark, before, dest, suffixes, {RestoreTmp});
    CopiesMade(before, disk.files, backup, dest, suffixes, prepared);
  }

  lemma CopiesMade(before: Files, ready: Files, source: Base, dest: Base, suffixes: seq<string>, prepared: set<string>)
    requires Within(before, ready, Paths(dest, suffixes, {RestoreTmp})) && source != dest
    requires forall s | s in suffixes :: s in prepared <==> source.At(s, Live) in ready
    requires forall s | s in prepared :: s in suffixes && Same(ready, source.At(s, Live), ready, dest.At(s, RestoreTmp))
    ensures Copied(before, ready, source, dest, suffixes, prepared)
  {
    forall s | s in suffixes
      ensures Same(before, dest.At(s, Live), ready, dest.At(s, Live))
        && Same(before, source.At(s, Live), ready, source.At(s, Live))
    {
    }
  }

  method MoveOne(disk: Disk, dest: Base, s: string) returns (ok: bool, moved: bool)
    requires disk.Valid()
    modifies disk
    ensures disk.Valid() && old(disk.trace) <= disk.trace
    ensures disk.Since(|old(disk.trace)|, old(disk.files), iset{dest.At(s, Live), dest.At(s, RestoreOld)})
    ensures forall i | |old(disk.trace)| <= i < |disk.trace| ::
      dest.At(s, Live) !in disk.trace[i] || Same(old(disk.files), dest.At(s, Live), disk.trace[i], dest.At(s, Live))
    ensures ok ==> dest.At(s, Live) !in disk.files
    ensures moved ==>
      ok && dest.At(s, RestoreOld) in disk.files
        && Same(old(disk.files), dest.At(s, Live), disk.files, dest.At(s, RestoreOld))
    ensures !moved ==> Same(old(disk.files), dest.At(s, Live), disk.files, dest.At(s, Live))
    ensures disk.Counted(old(disk.faults), old(disk.slips))
    ensures !ok ==> old(disk.faults) < disk.faults
  {
    var stat := disk.Stat(dest.At(s, Live));
    if !stat.Present? {
      return stat.Absent?, false;
    }
    var _ := disk.Remove(dest.At(s, RestoreOld));
    ok := disk.Rename(dest.At(s, Live), dest.At(s, RestoreOld));
    moved := ok;
  }

  /** What moving the files of `moved` aside leaves for one file. */
  ghost predicate Aside(before: Files, now: Files, dest: Base, s: string, moved: set<string>) {
    if s in moved
    then dest.At(s, Live) !in now && dest.At(s, RestoreOld) in now
      && Same(before, dest.At(s, Live), now, dest.At(s, RestoreOld))
    else Same(before, dest.At(s, Live), now, dest.At(s, Live))
  }

  method MoveAside(disk: Disk, dest: Base, suffixes: seq<string>) returns (ok: bool, moved: set<string>)
    requires disk.Valid() && Distinct(suffixes)
    modifies disk
    ensures disk.Valid() && old(disk.trace) <= disk.trace
    ensures disk.Since(|old(disk.trace)|, old(disk.files), Paths(dest, suffixes, {Live, RestoreOld}))
    ensures forall i | |old(disk.trace)| <= i < |disk.trace| ::
      PartOf(old(disk.files), dest, disk.trace[i], dest, suffixes)
    ensures forall s | s in suffixes :: Aside(old(disk.files), disk.files, dest, s, moved)
    ensures ok ==> forall s | s in suffixes :: dest.At(s, Live) !in disk.files
    ensures disk.Counted(old(disk.faults), old(disk.slips))
    ensures !ok ==> old(disk.faults) < disk.faults
    ensures moved <= set s | s in suffixes
  {
    moved := {};
    ok := true;
    ghost var mark, before, all := |disk.trace|, disk.files, Paths(dest, suffixes, {Live, RestoreOld});
    for i := 0 to |suffixes|
      invariant disk.Valid() && old(disk.trace) <= disk.trace && disk.Counted(old(disk.faults), old(disk.slips))
      invariant disk.Since(mark, before, all)
      invariant forall i | mark <= i < |disk.trace| :: PartOf(before, dest, disk.trace[i], dest, suffixes)
      invariant forall s | s in suffixes :: Aside(before, disk.files, dest, s, moved)
      invariant forall s | s in moved :: s in suffixes[..i]
      invariant forall s | s in suffixes[..i] :: dest.At(s, Live) !in disk.files
    {
      var s := suffixes[i];
      assert s !in suffixes[..i];
      ghost var files, trace, earlier := disk.files, disk.trace, moved;
      var done, renamed := MoveOne(disk, dest, s);
      Chain(mark, before, trace, all, files, disk.trace, disk.files, iset{dest.At(s, Live), dest.At(s, RestoreOld)});
      moved := if renamed then moved + {s} else moved;
      AsideStep(before, files, dest, suffixes, s, earlier, disk.trace, |trace|);
      forall r | r in suffixes
        ensures Aside(before, disk.files, dest, r, moved)
        ensures r in suffixes[..i] ==> dest.At(r, Live) !in disk.files
      {
        assert Aside(before, files, dest, r, earlier);
        assert r != s ==> Same(files, dest.At(r, Live), disk.files, dest.At(r, Live));
        assert r != s ==> Same(files, dest.At(r, RestoreOld), disk.files, dest.At(r, RestoreOld));
      }
      if !done {
        return false, moved;
      }
    }
  }

  lemma AsideStep(before: Files, files: Files, dest: Base, suffixes: seq<string>, s: string, moved: set<string>,
                  trace: seq<Files>, mark: nat)
    requires forall r | r in suffixes :: Aside(before, files, dest, r, moved)
    requires AllWithin(mark, files, trace, iset{dest.At(s, Live), dest.At(s, RestoreOld)})
    requires forall i | mark <= i < |trace| ::
      dest.At(s, Live) !in trace[i] || Same(files, dest.At(s, Live), trace[i], dest.At(s, Live))
    ensures forall i | mark <= i < |trace| :: PartOf(before, dest, trace[i], dest, suffixes)
  {
    forall i, r | mark <= i < |trace| && r in suffixes
      ensures dest.At(r, Live) !in trace[i] || Same(before, dest.At(r, Live), trace[i], dest.At(r, Live))
    {
      assert Aside(before, files, dest, r, moved);
      assert r != s ==> Same(files, dest.At(r, Live), trace[i], dest.At(r, Live));
    }
  }

  method InstallCopies(disk: Disk, dest: Base, suffixes: seq<string>, prepared: set<string>)
    returns (ok: bool, installed: set<string>)
    requires disk.Valid() && Distinct(suffixes)
    requires forall s | s in prepared :: s in suffixes
    requires forall s | s in suffixes :: dest.At(s, Live) !in disk.files
    modifies disk
    ensures disk.Valid() && old(disk.trace) <= disk.trace
    ensures disk.Since(|old(disk.trace)|, old(disk.files), Paths(dest, suffixes, {Live, RestoreTmp}))
    ensures forall i | |old(disk.trace)| <= i < |disk.trace| ::
      InstalledPart(old(disk.files), disk.trace[i], dest, suffixes, prepared)
    ensures installed <= prepared && (ok ==> installed == prepared)
    ensures Installed(old(disk.files), disk.files, dest, suffixes, installed)
    ensures disk.Counted(old(disk.faults), old(disk.slips))
    ensures !ok ==>
      old(disk.faults) < disk.faults || exists s :: s in prepared && dest.At(s, RestoreTmp) !in old(disk.files)
  {
    installed := {};
    ok := true;
    ghost var mark, before, all := |disk.trace|, disk.files, Paths(dest, suffixes, {Live, RestoreTmp});
    for i := 0 to |suffixes|
      invariant disk.Valid() && old(disk.trace) <= disk.trace && disk.Counted(old(disk.faults), old(disk.slips))
      invariant disk.Since(mark, before, all)
      invariant forall i | mark <= i < |disk.trace| :: InstalledPart(before, disk.trace[i], dest, suffixes, prepared)
      invariant installed == set s | s in prepared && s in suffixes[..i]
      invariant Installed(before, disk.files, dest, suffixes, installed)
      invariant forall s | s in suffixes[i..] ::
        Same(before, dest.At(s, RestoreTmp), disk.files, dest.At(s, RestoreTmp))
    {
      var s := suffixes[i];
      assert s !in suffixes[..i] && s !in suffixes[i + 1..];
      if s in prepared {
        ghost var files, trace, earlier := disk.files, disk.trace, installed;
        var renamed := disk.Rename(dest.At(s, RestoreTmp), dest.At(s, Live));
        Chain(mark, before, trace, all, files, disk.trace, disk.files, iset{dest.At(s, RestoreTmp), dest.At(s, Live)});
        if !renamed {
          return false, installed;
        }
        installed := installed + {s};
        InstallStep(before, files, disk.files, dest, suffixes, s, earlier);
      }
    }
  }

  lemma InstallStep(before: Files, files: Files, now: Files, dest: Base, suffixes: seq<string>, s: string,
                    installed: set<string>)
    requires Installed(before, files, dest, suffixes, installed)
    requires dest.At(s, RestoreTmp) in files
      && now == (files - {dest.At(s, RestoreTmp)})[dest.At(s, Live) := files[dest.At(s, RestoreTmp)]]
    requires Same(before, dest.At(s, RestoreTmp), files, dest.At(s, RestoreTmp))
    ensures Installed(before, now, dest, suffixes, installed + {s})
    ensures forall r | r != s && Same(before, dest.At(r, RestoreTmp), files, dest.At(r, RestoreTmp)) ::
      Same(before, dest.At(r, RestoreTmp), now, dest.At(r, RestoreTmp))
  {
  }

  /** The copies of `prepared` stand in their places and no other file of the database exists. */
  ghost predicate Installed(before: Files, now: Files, dest: Base, suffixes: seq<string>, prepared: set<string>) {
    forall s | s in suffixes ::
      if s in prepared then Same(before, dest.At(s, RestoreTmp), now, dest.At(s, Live)) else dest.At(s, Live) !in now
  }

  ghost predicate InstalledPart(before: Files, now: Files, dest: Base, suffixes: seq<string>, prepared: set<string>) {
    forall s | s in suffixes ::
      dest.At(s, Live) !in now || (s in prepared && Same(before, dest.At(s, RestoreTmp), now, dest.At(s, Live)))
  }

  method RevertOne(disk: Disk, dest: Base, s: string, moved: bool, installed: bool) returns (clean: bool)
    requires disk.Valid()
    modifies disk
    ensures disk.Valid() && old(disk.trace) <= disk.trace
    ensures disk.Since(|old(disk.trace)|, old(disk.files), iset{dest.At(s, Live), dest.At(s, RestoreOld)})
    ensures clean && moved ==> Same(old(disk.files), dest.At(s, RestoreOld), disk.files, dest.At(s, Live))
    ensures clean && !moved && installed ==> dest.At(s, Live) !in disk.files
    ensures !moved && !installed ==> disk.files == old(disk.files)
    ensures disk.Counted(old(disk.faults), old(disk.slips))
    ensures !clean ==> old(disk.faults) < disk.faults || (moved && dest.At(s, RestoreOld) !in old(disk.files))
  {
    clean := true;
    if installed {
      clean := disk.Remove(dest.At(s, Live));
    }
    if moved {
      var renamed := disk.Rename(dest.At(s, RestoreOld), dest.At(s, Live));
      clean := clean && renamed;
    }
  }

  /** What an undo of `moved` and `installed` that reports no failure of its own leaves for one file. */
  ghost predicate Undone(before: Files, now: Files, dest: Base, s: string, moved: set<string>, installed: set<string>) {
    if s in moved then Same(before, dest.At(s, RestoreOld), now, dest.At(s, Live))
    else if s in installed then dest.At(s, Live) !in now
    else Same(before, dest.At(s, Live), now, dest.At(s, Live))
  }

  /** Undoes what was done; `clean` tells whether each of its own steps succeeded. */
  method Revert(disk: Disk, dest: Base, suffixes: seq<string>, moved: set<string>, installed: set<string>)
    returns (clean: bool)
    requires disk.Valid() && Distinct(suffixes)
    modifies disk
    ensures disk.Valid() && old(disk.trace) <= disk.trace
    ensures disk.Since(|old(disk.trace)|, old(disk.files), Paths(dest, suffixes, {Live, RestoreOld}))
    ensures clean ==> forall s | s in suffixes :: Undone(old(disk.files), disk.files, dest, s, moved, installed)
    ensures disk.Counted(old(disk.faults), old(disk.slips))
    ensures !clean ==>
      old(disk.faults) < disk.faults || exists s :: s in moved && dest.At(s, RestoreOld) !in old(disk.files)
  {
    clean := true;
    ghost var mark, before, all := |disk.trace|, disk.files, Paths(dest, suffixes, {Live, RestoreOld});
    for i := 0 to |suffixes|
      invariant disk.Valid() && old(disk.trace) <= disk.trace && disk.Counted(old(disk.faults), old(disk.slips))
      invariant disk.Since(mark, before, all)
      invariant clean ==> forall s | s in suffixes[..i] :: Undone(before, disk.files, dest, s, moved, installed)
      invariant clean || old(disk.faults) < disk.faults || exists s :: s in moved && dest.At(s, RestoreOld) !in before
      invariant Within(before, disk.files, Paths(dest, suffixes[..i], {Live, RestoreOld}))
    {
      var s := suffixes[i];
      assert s !in suffixes[..i];
      ghost var files, trace := disk.files, disk.trace;
      assert Same(before, dest.At(s, RestoreOld), files, dest.At(s, RestoreOld));
      assert Same(before, dest.At(s, Live), files, dest.At(s, Live));
      var reverted := RevertOne(disk, dest, s, s in moved, s in installed);
      Chain(mark, before, trace, all, files, disk.trace, disk.files, iset{dest.At(s, Live), dest.At(s, RestoreOld)});
      clean := clean && reverted;
      assert suffixes[..i + 1] == suffixes[..i] + [s];
      WithinTrans(before, files, disk.files, Paths(dest, suffixes[..i], {Live, RestoreOld}),
                  iset{dest.At(s, Live), dest.At(s, RestoreOld)}, Paths(dest, suffixes[..i + 1], {Live, RestoreOld}));
      forall r | clean && r in suffixes[..i + 1]
        ensures Undone(before, disk.files, dest, r, moved, installed)
      {
        assert r != s ==> Same(files, dest.At(r, Live), disk.files, dest.At(r, Live));
      }
    }
    assert suffixes[..|suffixes|] == suffixes;
  }

  /** Scratch paths are none of the database's own. */
  lemma Untouched(disk: Disk, mark: nat, from: Files, dest: Base, suffixes: seq<string>, roles: set<Role>)
    requires disk.Since(mark, from, Paths(dest, suffixes, roles)) && Live !in roles
    ensures SameDatabase(from, dest, disk.files, dest, suffixes)
    ensures forall i | mark <= i < |disk.trace| :: SameDatabase(disk.files, dest, disk.trace[i], dest, suffixes)
    ensures forall i | mark <= i < |disk.trace| :: SameDatabase(from, dest, disk.trace[i], dest, suffixes)
  {
    forall i, s | mark <= i < |disk.trace| && s in suffixes
      ensures Same(disk.files, dest.At(s, Live), disk.trace[i], dest.At(s, Live))
    {
      assert Same(from, dest.At(s, Live), disk.files, dest.At(s, Live));
      assert Same(from, dest.At(s, Live), disk.trace[i], dest.At(s, Live));
    }
  }

  /** Removes every scratch file of one role; failures are ignored. */
  method Cleanup(disk: Disk, dest: Base, suffixes: seq<string>, role: Role)
    requires disk.Valid() && role != Live
    modifies disk
    ensures disk.Valid() && old(disk.trace) <= disk.trace
    ensures disk.Since(|old(disk.trace)|, old(disk.files), Paths(dest, suffixes, {role}))
    ensures SameDatabase(old(disk.files), dest, disk.files, dest, suffixes)
    ensures forall i | |old(disk.trace)| <= i < |disk.trace| ::
      SameDatabase(disk.files, dest, disk.trace[i], dest, suffixes)
    ensures disk.Counted(old(disk.faults), old(disk.slips))
  {
    for i := 0 to |suffixes|
      invariant disk.Valid() && old(disk.trace) <= disk.trace && disk.Counted(old(disk.faults), old(disk.slips))
      invariant disk.Since(|old(disk.trace)|, old(disk.files), Paths(dest, suffixes, {role}))
    {
      var _ := disk.Remove(dest.At(suffixes[i], role));
    }
    Untouched(disk, |old(disk.trace)|, old(disk.files), dest, suffixes, {role});
  }

  /** Moves the old files aside and the copies in, or undoes it. `reverting` is the length of the trace when the
      undo started, the length of the whole trace when there was none. */
  method Swap(disk: Disk, dest: Base, suffixes: seq<string>, prepared: set<string>)
    returns (ok: bool, clean: bool, ghost reverting: nat)
    requires disk.Valid() && Distinct(suffixes)
    requires forall s | s in prepared :: s in suffixes
    modifies disk
    ensures disk.Valid() && old(disk.trace) <= disk.trace
    ensures disk.Since(|old(disk.trace)|, old(disk.files), Paths(dest, suffixes, RESTORE_ROLES))
    ensures ok ==> reverting == |disk.trace| && Installed(old(disk.files), disk.files, dest, suffixes, prepared)
    ensures !ok && clean ==> SameDatabase(old(disk.files), dest, disk.files, dest, suffixes)
    ensures |old(disk.trace)| <= reverting <= |disk.trace|
    ensures forall i | |old(disk.trace)| <= i < reverting ::
      Halfway(old(disk.files), disk.trace[i], dest, suffixes, prepared)
    ensures disk.Counted(old(disk.faults), old(disk.slips))
    ensures !ok ==>
      old(disk.faults) < disk.faults || exists s :: s in prepared && dest.At(s, RestoreTmp) !in old(disk.files)
    ensures clean || old(disk.faults) + 1 < disk.faults || exists s ::
      s in prepared && dest.At(s, RestoreTmp) !in old(disk.files)
  {
    ghost var before, mark := disk.files, |disk.trace|;
    ghost var all := Paths(dest, suffixes, RESTORE_ROLES);
    var moved, installed;
    clean := true;
    ok, moved := MoveAside(disk, dest, suffixes);
    ghost var empty, middle := disk.files, disk.trace;
    installed := {};
    if ok {
      ok, installed := InstallCopies(disk, dest, suffixes, prepared);
      Chain(mark, before, middle, all, empty, disk.trace, disk.files, Paths(dest, suffixes, {Live, RestoreTmp}));
      forall s | ok && s in prepared
        ensures Same(before, dest.At(s, RestoreTmp), disk.files, dest.At(s, Live))
      {
        assert Same(before, dest.At(s, RestoreTmp), empty, dest.At(s, RestoreTmp));
      }
      HalfwayThrough(before, empty, dest, suffixes, prepared, disk.trace, |middle|);
    }
    ghost var stuck, during := disk.files, disk.trace;
    reverting := |disk.trace|;
    if !ok {
      clean := Revert(disk, dest, suffixes, moved, installed);
      Chain(mark, before, during, all, stuck, disk.trace, disk.files, Paths(dest, suffixes, {Live, RestoreOld}));
      forall s | clean && s in suffixes
        ensures Same(before, dest.At(s, Live), disk.files, dest.At(s, Live))
      {
        assert Undone(stuck, disk.files, dest, s, moved, installed) && Aside(before, empty, dest, s, moved);
        assert Same(empty, dest.At(s, RestoreOld), stuck, dest.At(s, RestoreOld));
      }
    }
  }

  ghost predicate Halfway(before: Files, now: Files, dest: Base, suffixes: seq<string>, prepared: set<string>) {
    PartOf(before, dest, now, dest, suffixes) || InstalledPart(before, now, dest, suffixes, prepared)
  }

  lemma HalfwayThrough(before: Files, empty: Files, dest: Base, suffixes: seq<string>, prepared: set<string>,
                       trace: seq<Files>, mark: nat)
    requires Within(before, empty, Paths(dest, suffixes, {Live, RestoreOld})) && mark <= |trace|
    requires forall i :: mark <= i < |trace| ==> InstalledPart(empty, trace[i], dest, suffixes, prepared)
    ensures forall i | mark <= i < |trace| :: Halfway(before, trace[i], dest, suffixes, prepared)
  {
    forall i | mark <= i < |trace|
      ensures InstalledPart(before, trace[i], dest, suffixes, prepared)
    {
      forall s | s in suffixes && dest.At(s, Live) in trace[i]
        ensures s in prepared && Same(before, dest.At(s, RestoreTmp), trace[i], dest.At(s, Live))
      {
        assert Same(before, dest.At(s, RestoreTmp), empty, dest.At(s, RestoreTmp));
      }
    }
  }

  /** Copies made, then anything the swap may leave: no mixture of the old database and the backup. */
  lemma HalfwayIsUnmixed(before: Files, ready: Files, trace: seq<Files>, mark: nat, end: nat, source: Base, dest: Base,
                         suffixes: seq<string>, prepared: set<string>)
    requires Copied(before, ready, source, dest, suffixes, prepared) && mark <= end <= |trace|
    requires forall i | mark <= i < end :: Halfway(ready, trace[i], dest, suffixes, prepared)
    ensures forall i | mark <= i < end :: Unmixed(before, trace[i], source, dest, suffixes)
  {
    forall i | mark <= i < end
      ensures Unmixed(before, trace[i], source, dest, suffixes)
    {
      forall s | s in suffixes
        ensures Same(before, dest.At(s, Live), ready, dest.At(s, Live))
        ensures s in prepared ==> Same(before, source.At(s, Live), ready, dest.At(s, RestoreTmp))
      {
      }
    }
  }

  /** The copies of a backup stand beside the untouched database. */
  ghost predicate Copied(before: Files, ready: Files, source: Base, dest: Base, suffixes: seq<string>,
                         prepared: set<string>)
  {
    && SameDatabase(before, dest, ready, dest, suffixes)
    && (forall s | s in prepared :: s in suffixes && Same(before, source.At(s, Live), ready, dest.At(s, RestoreTmp)))
    && (forall s | s in suffixes && s !in prepared :: source.At(s, Live) !in before)
  }

  lemma InstalledIsRestored(before: Files, ready: Files, now: Files, source: Base, dest: Base, suffixes: seq<string>,
                            prepared: set<string>)
    requires Copied(before, ready, source, dest, suffixes, prepared) && Installed(ready, now, dest, suffixes, prepared)
    ensures SameDatabase(before, source, now, dest, suffixes)
  {
  }

  method CopyAndSwap(disk: Disk, source: Base, dest: Base, suffixes: seq<string>)
    returns (ok: bool, clean: bool, ghost reverting: nat)
    requires disk.Valid() && Distinct(suffixes) && source != dest
    modifies disk
    ensures disk.Valid() && old(disk.trace) <= disk.trace
    ensures disk.Since(|old(disk.trace)|, old(disk.files), Paths(dest, suffixes, RESTORE_ROLES))
    ensures ok ==> SameDatabase(old(disk.files), source, disk.files, dest, suffixes) && reverting == |disk.trace|
    ensures ok && "" in suffixes ==> source.At("", Live) in old(disk.files)
    ensures !ok && clean ==> SameDatabase(old(disk.files), dest, disk.files, dest, suffixes)
    ensures |old(disk.trace)| <= reverting <= |disk.trace|
    ensures forall i | |old(disk.trace)| <= i < reverting ::
      Unmixed(old(disk.files), disk.trace[i], source, dest, suffixes)
    ensures disk.Counted(old(disk.faults), old(disk.slips))
    ensures !ok ==> old(disk.faults) < disk.faults || !CanCopy(old(disk.files), source, dest, suffixes, RestoreTmp)
    ensures clean || old(disk.faults) + 1 < disk.faults
  {
    ghost var mark, before, all := |disk.trace|, disk.files, Paths(dest, suffixes, RESTORE_ROLES);
    var prepared;
    ok, prepared := PrepareCopies(disk, source, dest, suffixes);
    clean, reverting := true, |disk.trace|;
    if ok {
      ghost var ready, copied := disk.files, disk.trace;
      ok, clean, reverting := Swap(disk, dest, suffixes, prepared);
      Chain(mark, before, copied, all, ready, disk.trace, disk.files, all);
      HalfwayIsUnmixed(before, ready, disk.trace, |copied|, reverting, source, dest, suffixes, prepared);
      if ok {
        InstalledIsRestored(before, ready, disk.files, source, dest, suffixes, prepared);
      }
    }
  }

  /** Puts the backup in place of the database: when at most one call fails, it is afterwards the backup or what it was
      before. `clean` is false when the undo of a failed attempt failed itself;
      `reverting` is the length of the trace when such an undo started. */
  method RestoreDatabaseFile(disk: Disk, backup: Option<Base>, dest: Base, suffixes: seq<string>)
    returns (ok: bool, clean: bool, ghost reverting: nat)
    requires disk.Valid() && Distinct(suffixes) && backup != Some(dest)
    modifies disk
    ensures disk.Valid() && old(disk.trace) <= disk.trace
    ensures disk.Since(|old(disk.trace)|, old(disk.files), Paths(dest, suffixes, RESTORE_ROLES))
    ensures ok ==> backup.Some? && SameDatabase(old(disk.files), backup.value, disk.files, dest, suffixes)
    ensures ok && "" in suffixes ==> backup.value.At("", Live) in old(disk.files)
    ensures !ok && clean ==> SameDatabase(old(disk.files), dest, disk.files, dest, suffixes)
    ensures |old(disk.trace)| <= reverting <= |disk.trace|
    ensures forall i | |old(disk.trace)| <= i < reverting ::
      backup.Some?
      && ((forall s | s in suffixes && dest.At(s, Live) in disk.trace[i] ::
             Same(old(disk.files), dest.At(s, Live), disk.trace[i], dest.At(s, Live)))
          || (forall s | s in suffixes && dest.At(s, Live) in disk.trace[i] ::
                Same(old(disk.files), backup.value.At(s, Live), disk.trace[i], dest.At(s, Live))))
    ensures ok ==>
      forall i | reverting <= i < |disk.trace| :: SameDatabase(disk.files, dest, disk.trace[i], dest, suffixes)
    ensures disk.Counted(old(disk.faults), old(disk.slips))
    ensures !ok ==>
      old(disk.faults) < disk.faults || backup.None?
        || !CanCopy(old(disk.files), backup.value, dest, suffixes, RestoreTmp)
    ensures clean || old(disk.faults) + 1 < disk.faults
  {
    ghost var mark, before, all := |disk.trace|, disk.files, Paths(dest, suffixes, RESTORE_ROLES);
    ok, clean, reverting := false, true, mark;
    if backup.None? {
      return;
    }
    if * {
      disk.faults := disk.faults + 1; // The directory cannot be made.
      return;
    }
    ok, clean, reverting := CopyAndSwap(disk, backup.value, dest, suffixes);
    if ok {
      CleanupBoth(disk, mark, before, dest, suffixes);
    } else {
      ghost var files, trace := disk.files, disk.trace;
      Cleanup(disk, dest, suffixes, RestoreTmp);
      Chain(mark, before, trace, all, files, disk.trace, disk.files, Paths(dest, suffixes, {RestoreTmp}));
    }
  }

  method CleanupBoth(disk: Disk, ghost mark: nat, ghost before: Files, dest: Base, suffixes: seq<string>)
    requires disk.Valid() && disk.Since(mark, before, Paths(dest, suffixes, RESTORE_ROLES))
    modifies disk
    ensures disk.Valid() && old(disk.trace) <= disk.trace
    ensures disk.Since(mark, before, Paths(dest, suffixes, RESTORE_ROLES))
    ensures SameDatabase(old(disk.files), dest, disk.files, dest, suffixes)
    ensures forall i | |old(disk.trace)| <= i < |disk.trace| ::
      SameDatabase(disk.files, dest, disk.trace[i], dest, suffixes)
    ensures disk.Counted(old(disk.faults), old(disk.slips))
  {
    ghost var all := Paths(dest, suffixes, RESTORE_ROLES);
    ghost var files, trace := disk.files, disk.trace;
    Cleanup(disk, dest, suffixes, RestoreOld);
    Chain(mark, before, trace, all, files, disk.trace, disk.files, Paths(dest, suffixes, {RestoreOld}));
    ghost var files', trace' := disk.files, disk.trace;
    Cleanup(disk, dest, suffixes, RestoreTmp);
    Chain(mark, before, trace', all, files', disk.trace, disk.files, Paths(dest, suffixes, {RestoreTmp}));
  }

  method BackupOne(disk: Disk, source: Base, destination: Base, s: string) returns (ok: bool, kept: bool)
    requires disk.Valid() && source != destination
    modifies disk
    ensures disk.Valid() && old(disk.trace) <= disk.trace
    ensures disk.Since(|old(disk.trace)|, old(disk.files), iset{destination.At(s, Live)})
    ensures ok ==> CopiedOrKept(old(disk.files), disk.files, source, destination, s, if kept then {s} else {})
    ensures ok && s == "" ==> source.At("", Live) in old(disk.files)
    ensures disk.Counted(old(disk.faults), old(disk.slips))
    ensures kept ==> old(disk.slips) < disk.slips && s != ""
    ensures !ok ==> old(disk.faults) < disk.faults || !CanCopy(old(disk.files), source, destination, [s], Live)
    ensures ok && !kept && destination.At(s, Live) in disk.files ==> disk.files[destination.At(s, Live)].File?
  {
    ok, kept := true, false;
    var stat := disk.Stat(source.At(s, Live));
    if stat.Present? {
      ok := disk.CopyFile(source.At(s, Live), destination.At(s, Live));
    } else if s != "" && stat.Absent? {
      var removed := disk.Remove(destination.At(s, Live));
      kept := !removed;
      if kept {
        disk.Slip();
      }
    } else {
      ok := false;
    }
  }

  /** Copies the files of a database whose owner has exited. The removal of a stale copy is not checked: `kept`
      names the suffixes whose removal failed. */
  method BackupStoppedDatabase(disk: Disk, source: Base, destination: Base, suffixes: seq<string>)
    returns (ok: bool, kept: set<string>)
    requires disk.Valid() && Distinct(suffixes) && source != destination
    modifies disk
    ensures disk.Valid() && old(disk.trace) <= disk.trace
    ensures disk.Since(|old(disk.trace)|, old(disk.files), Paths(destination, suffixes, {Live}))
    ensures ok && "" in suffixes ==> source.At("", Live) in old(disk.files)
    ensures ok ==> AllCopiedOrKept(old(disk.files), disk.files, source, destination, suffixes, kept)
    ensures "" !in kept
    ensures disk.Counted(old(disk.faults), old(disk.slips))
    ensures kept != {} ==> old(disk.slips) < disk.slips
    ensures !ok ==> old(disk.faults) < disk.faults || !CanCopy(old(disk.files), source, destination, suffixes, Live)
    ensures ok ==> AllFiles(disk.files, destination, suffixes, kept)
  {
    ok, kept := true, {};
    ghost var mark, before, all := |disk.trace|, disk.files, Paths(destination, suffixes, {Live});
    for i := 0 to |suffixes|
      invariant disk.Valid() && old(disk.trace) <= disk.trace && disk.Counted(old(disk.faults), old(disk.slips))
      invariant disk.Since(mark, before, all)
      invariant forall s | s in kept :: s in suffixes[..i]
      invariant (kept != {} ==> old(disk.slips) < disk.slips) && "" !in kept
      invariant AllFiles(disk.files, destination, suffixes[..i], kept)
      invariant forall s | s in suffixes[..i] :: CopiedOrKept(before, disk.files, source, destination, s, kept)
      invariant forall s | s in suffixes[i..] ::
        Same(before, destination.At(s, Live), disk.files, destination.At(s, Live))
      invariant "" in suffixes[..i] ==> source.At("", Live) in before
    {
      var s := suffixes[i];
      assert s !in suffixes[..i] && s !in suffixes[i + 1..];
      assert Same(before, source.At(s, Live), disk.files, source.At(s, Live));
      ghost var files, trace, earlier := disk.files, disk.trace, kept;
      var copied, stale := BackupOne(disk, source, destination, s);
      Chain(mark, before, trace, all, files, disk.trace, disk.files, iset{destination.At(s, Live)});
      if !copied {
        return false, kept;
      }
      kept := if stale then kept + {s} else kept;
      forall r | r in suffixes && r != s
        ensures Same(files, destination.At(r, Live), disk.files, destination.At(r, Live))
        ensures CopiedOrKept(before, files, source, destination, r, earlier) ==>
          CopiedOrKept(before, disk.files, source, destination, r, kept)
      {
      }
    }
    assert suffixes[..|suffixes|] == suffixes;
  }

  ghost predicate AllFiles(files: Files, base: Base, suffixes: seq<string>, except: set<string>) {
    forall s | s in suffixes && s !in except && base.At(s, Live) in files :: files[base.At(s, Live)].File?
  }

  ghost predicate CopiedOrKept(before: Files, now: Files, source: Base, destination: Base, s: string,
                               kept: set<string>)
  {
    if s in kept
      then source.At(s, Live) !in before && Same(before, destination.At(s, Live), now, destination.At(s, Live))
    else Same(before, source.At(s, Live), now, destination.At(s, Live))
  }

  ghost predicate AllCopiedOrKept(before: Files, now: Files, source: Base, destination: Base, suffixes: seq<string>,
                                  kept: set<string>)
  {
    forall s | s in suffixes :: CopiedOrKept(before, now, source, destination, s, kept)
  }

  /** How a backup that reports success may leave the copies. */
  ghost predicate BackupLeaves(before: Files, now: Files, source: Base, destination: Base, suffixes: seq<string>) {
    exists kept: set<string> ::
      "" !in kept && AllCopiedOrKept(before, now, source, destination, suffixes, kept)
  }

  /** No copy stands there of a file that the database does not have; the main file is not optional. */
  predicate NoStale(files: Files, source: Base, destination: Base, suffixes: seq<string>) {
    forall s | s in suffixes && s != "" && source.At(s, Live) !in files :: destination.At(s, Live) !in files
  }

  lemma BackupExact(before: Files, now: Files, source: Base, destination: Base, suffixes: seq<string>,
                    kept: set<string>)
    requires "" !in kept && AllCopiedOrKept(before, now, source, destination, suffixes, kept)
    requires NoStale(before, source, destination, suffixes) || kept == {}
    ensures SameDatabase(before, source, now, destination, suffixes)
  {
    forall s | s in suffixes
      ensures Same(before, source.At(s, Live), now, destination.At(s, Live))
    {
      assert CopiedOrKept(before, now, source, destination, s, kept);
    }
  }

  /** The backup in which no stale copy can be removed. */
  ghost function WorstBackup(before: Files, source: Base, destination: Base, suffixes: seq<string>): Files {
    var stale := set s | s in suffixes && s != "" && source.At(s, Live) !in before;
    map p |
      p in before.Keys + (set s | s in suffixes :: destination.At(s, Live))
      && BackupOrigin(p, source, destination, suffixes, stale) in before ::
      before[BackupOrigin(p, source, destination, suffixes, stale)]
  }

  /** Where the backup takes the content of a path from. */
  ghost function BackupOrigin(p: Path, source: Base, destination: Base, suffixes: seq<string>,
                              stale: set<string>): Path
  {
    if p.suffix in suffixes && p.suffix !in stale && p == destination.At(p.suffix, Live) then source.At(p.suffix, Live)
    else p
  }

  lemma WorstIsBackup(before: Files, source: Base, destination: Base, suffixes: seq<string>)
    requires source != destination
    ensures
      var now := WorstBackup(before, source, destination, suffixes);
      && BackupLeaves(before, now, source, destination, suffixes)
      && Within(before, now, Paths(destination, suffixes, {Live}))
      && forall s | s in suffixes && s != "" && source.At(s, Live) !in before ::
           Same(before, destination.At(s, Live), now, destination.At(s, Live))
  {
    var now := WorstBackup(before, source, destination, suffixes);
    var stale := set s | s in suffixes && s != "" && source.At(s, Live) !in before;
    forall s | s in suffixes
      ensures CopiedOrKept(before, now, source, destination, s, stale)
    {
      var p := destination.At(s, Live);
      assert BackupOrigin(p, source, destination, suffixes, stale) == if s in stale then p else source.At(s, Live);
    }
    assert AllCopiedOrKept(before, now, source, destination, suffixes, stale);
    forall p | p !in Paths(destination, suffixes, {Live})
      ensures Same(before, p, now, p)
    {
      assert BackupOrigin(p, source, destination, suffixes, stale) == p;
    }
  }

  /** Every backup that reports success is the database, whatever fails on the way, exactly when no copy of a file that
      the database does not have stood there before the call. */
  lemma BackupFaithfulIff(before: Files, source: Base, destination: Base, suffixes: seq<string>)
    requires source != destination
    ensures (forall now | BackupLeaves(before, now, source, destination, suffixes) ::
               SameDatabase(before, source, now, destination, suffixes))
            <==> NoStale(before, source, destination, suffixes)
  {
    forall now | BackupLeaves(before, now, source, destination, suffixes)
      && NoStale(before, source, destination, suffixes)
      ensures SameDatabase(before, source, now, destination, suffixes)
    {
      var kept: set<string> :| "" !in kept && AllCopiedOrKept(before, now, source, destination, suffixes, kept);
      BackupExact(before, now, source, destination, suffixes, kept);
    }
    WorstIsBackup(before, source, destination, suffixes);
    var worst := WorstBackup(before, source, destination, suffixes);
    if SameDatabase(before, source, worst, destination, suffixes) {
      forall s | s in suffixes && s != "" && source.At(s, Live) !in before
        ensures destination.At(s, Live) !in before
      {
        assert Same(before, source.At(s, Live), worst, destination.At(s, Live));
      }
    }
  }

  /** A stale write-ahead log that cannot be removed stays in a backup of a database that has none, and the backup
      still reports success. */
  lemma StaleLogSurvives()
    ensures
      var live, copy := Base(Data, "db"), Base(DatabaseCopy, "db");
      var before := map[
        live.At("", Live) := File("new"), copy.At("", Live) := File("old"), copy.At("-wal", Live) := File("log")];
      var now := before[copy.At("", Live) := File("new")];
      BackupLeaves(before, now, live, copy, SUFFIXES) && !SameDatabase(before, live, now, copy, SUFFIXES)
  {
    var live, copy := Base(Data, "db"), Base(DatabaseCopy, "db");
    var before := map[
      live.At("", Live) := File("new"), copy.At("", Live) := File("old"), copy.At("-wal", Live) := File("log")];
    var now := before[copy.At("", Live) := File("new")];
    assert SUFFIXES == ["", "-wal", "-shm"];
    assert AllCopiedOrKept(before, now, live, copy, SUFFIXES, {"-wal"});
    assert "-wal" in SUFFIXES && !Same(before, live.At("-wal", Live), now, copy.At("-wal", Live));
  }

  /** A running program: it may write or remove any file of its database. */
  method UseDatabase(disk: Disk, live: Base, suffixes: seq<string>)
    requires disk.Valid()
    modifies disk
    ensures disk.Valid() && old(disk.trace) <= disk.trace
    ensures disk.Since(|old(disk.trace)|, old(disk.files), Paths(live, suffixes, {Live}))
    ensures disk.Counted(old(disk.faults), old(disk.slips))
  {
    for i := 0 to |suffixes|
      invariant disk.Valid() && old(disk.trace) <= disk.trace && disk.Counted(old(disk.faults), old(disk.slips))
      invariant disk.Since(|old(disk.trace)|, old(disk.files), Paths(live, suffixes, {Live}))
    {
      if * {
        var data: string := *;
        var _ := disk.Write(live.At(suffixes[i], Live), File(data));
      } else if * {
        var _ := disk.Remove(live.At(suffixes[i], Live));
      }
    }
  }

  /** One attempt to restore, cut short by a power loss at any moment, touches the restored paths only. */
  method InterruptedRestore(disk: Disk, backup: Base, dest: Base, suffixes: seq<string>)
    requires disk.Valid() && Distinct(suffixes) && backup != dest
    modifies disk
    ensures disk.Valid() && Within(old(disk.files), disk.files, Paths(dest, suffixes, RESTORE_ROLES))
    ensures disk.Counted(old(disk.faults), old(disk.slips))
  {
    var mark := |disk.trace|;
    var _, _, _ := RestoreDatabaseFile(disk, Some(backup), dest, suffixes);
    disk.PowerLoss(mark);
  }

  /** Backs a database up, lets the program change it, and restores it, with power failing during any number of
      attempts before one runs to its end: the original is back, whatever fails, if no stale copy stood there, and
      without a slip of the backup (`exact`) in any case. */
  method BackupUseRestore(disk: Disk, live: Base, copy: Base, suffixes: seq<string>, interruptions: nat)
    returns (taken: bool, ok: bool, ghost exact: bool)
    requires disk.Valid() && Distinct(suffixes) && live != copy
    modifies disk
    ensures disk.Valid()
    ensures taken && ok && exact ==> SameDatabase(old(disk.files), live, disk.files, live, suffixes)
    ensures NoStale(old(disk.files), live, copy, suffixes) ==> exact
    ensures disk.slips == old(disk.slips) ==> exact
    ensures disk.Counted(old(disk.faults), old(disk.slips))
  {
    ghost var before := disk.files;
    var kept;
    ok := false;
    taken, kept := BackupStoppedDatabase(disk, live, copy, suffixes);
    exact := NoStale(before, live, copy, suffixes) || kept == {};
    if !taken {
      return;
    }
    ghost var backed, all := disk.files, Paths(live, suffixes, RESTORE_ROLES);
    if exact {
      BackupExact(before, backed, live, copy, suffixes, kept);
    }
    UseDatabase(disk, live, suffixes);
    for i := 0 to interruptions
      invariant disk.Valid() && Within(backed, disk.files, all)
      invariant disk.Counted(old(disk.faults), old(disk.slips)) && (!exact ==> old(disk.slips) < disk.slips)
    {
      ghost var now := disk.files;
      InterruptedRestore(disk, copy, live, suffixes);
      WithinTrans(backed, now, disk.files, all, all, all);
    }
    ghost var now := disk.files;
    var restored, _, _ := RestoreDatabaseFile(disk, Some(copy), live, suffixes);
    ok := restored;
    forall s | s in suffixes
      ensures Same(backed, copy.At(s, Live), now, copy.At(s, Live))
    {
    }
  }
}
