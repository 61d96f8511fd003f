/** Exactly when an update of the Windows program is safe whatever fails: what an update may leave, and which states
    before it rule out that this is neither the old nor the new program, or a database that is not the old one. */
module WindowsLimits {
  import opened Options
  import opened Disk
  import opened Database
  import opened WindowsUpdater
  import opened WindowsTransaction

  // ---- The worst update ----

  /** Where a backup takes the content of a path from. */
  ghost function SaveOrigin(p: Path, exe: string): Path {
    if p.name in Names(exe) && p == App(Application, p.name, Live) then App(Install, p.name, Live) else p
  }

  ghost function WithProgramSaved(files: Files, exe: string): Files {
    map p |
      p in files.Keys + (set n | n in Names(exe) :: App(Application, n, Live)) && SaveOrigin(p, exe) in files ::
      files[SaveOrigin(p, exe)]
  }

  lemma ProgramIsSaved(files: Files, exe: string)
    ensures ProgramSaved(files, WithProgramSaved(files, exe), exe)
    ensures Within(files, WithProgramSaved(files, exe), Everything(Application))
  {
    var saved := WithProgramSaved(files, exe);
    forall n | n in Names(exe)
      ensures Same(files, App(Install, n, Live), saved, App(Application, n, Live))
    {
      assert SaveOrigin(App(Application, n, Live), exe) == App(Install, n, Live);
    }
    forall p | p !in Everything(Application)
      ensures Same(files, p, saved, p)
    {
      assert SaveOrigin(p, exe) == p;
    }
  }

  /** The opened journal when no stale copy of a database file could be removed. */
  ghost function WorstOpen(before: Files, exe: string): Files {
    WithProgramSaved(WorstBackup(before, DATABASE, COPY, SUFFIXES), exe)[JOURNAL := Journal(exe, None)]
  }

  lemma WorstIsOpened(before: Files, exe: string)
    ensures OpenedFrom(before, WorstOpen(before, exe), exe)
    ensures DatabaseSaved(before, WorstOpen(before, exe)) ==> Fresh(before)
  {
    var backed := WorstBackup(before, DATABASE, COPY, SUFFIXES);
    var saved, worst := WithProgramSaved(backed, exe), WorstOpen(before, exe);
    WorstIsBackup(before, DATABASE, COPY, SUFFIXES);
    ProgramIsSaved(backed, exe);
    forall n | n in Names(exe)
      ensures Same(before, App(Install, n, Live), saved, App(Application, n, Live))
    {
      assert Same(before, App(Install, n, Live), backed, App(Install, n, Live));
      assert Same(backed, App(Install, n, Live), saved, App(Application, n, Live));
    }
    CopiesStay(before, backed, saved);
    WithinTrans(before, backed, saved, Paths(COPY, SUFFIXES, {Live}), Everything(Application), Saves());
    Opening(before, saved, worst, exe);
    if DatabaseSaved(before, worst) {
      forall s | s in SUFFIXES && s != "" && DATABASE.At(s, Live) !in before
        ensures COPY.At(s, Live) !in before
      {
        assert Same(before, COPY.At(s, Live), backed, COPY.At(s, Live));
        assert Same(backed, COPY.At(s, Live), saved, COPY.At(s, Live));
        assert Same(before, DATABASE.At(s, Live), worst, COPY.At(s, Live));
      }
    }
  }

  // ---- The committed program ----

  /** Every program that an update may start as the new one is that, whatever fails on the way, exactly when the package
      leaves nothing to chance. */
  lemma InstallTrueIff(before: Files, exe: string)
    requires App(Staging, exe, Live) in before && before[App(Staging, exe, Live)].File?
    requires App(Staging, "static", Live) in before && before[App(Staging, "static", Live)].Dir?
    ensures (forall now | InstallLeaves(before, now, exe) :: NewProgram(before, now, exe)) <==> Replaceable(before, exe)
  {
    hide NewProgram, Replaceable, ReplaceLeaves, Within;
    forall now | InstallLeaves(before, now, exe) && Replaceable(before, exe)
      ensures NewProgram(before, now, exe)
    {
      var begin :| OpenedFrom(before, begin, exe) && InstalledFrom(begin, now, exe);
      OpenedIsApart(before, begin, exe);
      ReplacedIff(begin, now, exe);
      ReplacedIsNew(before, begin, now, exe);
    }
    var begin := WorstOpen(before, exe);
    WorstIsOpened(before, exe);
    OpenedIsApart(before, begin, exe);
    var worst := WorstReplace(begin, exe);
    WorstIsReplace(begin, exe);
    assert InstalledFrom(begin, worst, exe);
    assert InstallLeaves(before, worst, exe);
    ReplacedIsNew(before, begin, worst, exe);
  }

  lemma OpenedIsApart(before: Files, begin: Files, exe: string)
    requires OpenedFrom(before, begin, exe)
    ensures Within(before, begin, Backups()) && (Replaceable(before, exe) <==> Replaceable(begin, exe))
    ensures forall n ::
      && Same(before, App(Staging, n, Live), begin, App(Staging, n, Live))
      && Scratch(before, n) == Scratch(begin, n) && PackageKeys(before, n) == PackageKeys(begin, n)
  {
    WithinMore(before, begin, Saves() + Records(), Backups());
    ReplaceableStays(before, begin, exe);
    ApartFromRecords(before, begin);
    forall n
      ensures Same(before, App(Staging, n, Live), begin, App(Staging, n, Live))
    {
      PackageStays(before, begin, n);
    }
  }

  // ---- The restored program ----

  /** What a failed replacement may leave in the scratch directory of the name. */
  ghost function Spoilt(files: Files, n: string): map<string, string> {
    if n == "static" then Merged(Scratch(files, n), Entries(files, App(Staging, n, Live))) else Scratch(files, n)
  }

  lemma SpoiltIsBroken(begin: Files, n: string, exe: string)
    requires n in Names(exe)
    ensures BrokenFrom(begin, begin[App(Install, n, UpdateNew) := Dir(Spoilt(begin, n))], exe)
    ensures Spoilt(begin, n).Keys == Scratch(begin, n).Keys + PackageKeys(begin, n)
  {
    var broken := begin[App(Install, n, UpdateNew) := Dir(Spoilt(begin, n))];
    assert Spoilt(begin, n).Keys == Scratch(begin, n).Keys + PackageKeys(begin, n);
    forall m
      ensures Scratch(broken, m).Keys <= Bound(begin, m)
    {
      assert m != n ==> Scratch(broken, m) == Scratch(begin, m);
    }
  }

  /** A restore of a spoilt name is exact only if what spoils it is no foreign entry. */
  lemma SpoiltRestore(before: Files, begin: Files, n: string, exe: string)
    requires OpenedFrom(before, begin, exe) && n in Names(exe)
    ensures
      var broken := begin[App(Install, n, UpdateNew) := Dir(Spoilt(begin, n))];
      var worst := WorstRestore(broken, exe);
      RecoveryLeaves(before, worst, exe)
        && (OldProgram(before, worst, exe) ==> Contained(before, n, App(Install, n, Live)))
  {
    hide Within, RestoreLeaves, Bounded;
    var copy, live := App(Application, n, Live), App(Install, n, Live);
    var broken := begin[App(Install, n, UpdateNew) := Dir(Spoilt(begin, n))];
    var worst := WorstRestore(broken, exe);
    OpenedIsApart(before, begin, exe);
    SpoiltIsBroken(begin, n, exe);
    WorstIsRestore(broken, exe);
    assert RecoveredFrom(broken, worst, exe);
    assert RecoveryLeaves(before, worst, exe);
    assert Same(before, live, begin, copy);
    if OldProgram(before, worst, exe) && live in before && before[live].Dir? {
      assert Same(before, live, worst, live);
      assert broken[copy] == begin[copy] == before[live];
      MergeIsCopyIff(Spoilt(begin, n), before[live].entries);
    }
  }

  /** Every restore of an update or of a recovery after it that reports success brings the old program back, whatever
      fails, exactly when neither a stale scratch directory nor the package could put a foreign entry into one of its
      directories. */
  lemma RecoveryTrueIff(before: Files, exe: string)
    ensures (forall now | RecoveryLeaves(before, now, exe) :: OldProgram(before, now, exe)) <==> Calm(before, exe)
  {
    hide Within, RestoreLeaves, Bounded, OldProgram, Contained;
    forall now | RecoveryLeaves(before, now, exe) && Calm(before, exe)
      ensures OldProgram(before, now, exe)
    {
      var begin, broken :|
        OpenedFrom(before, begin, exe) && BrokenFrom(begin, broken, exe) && RecoveredFrom(broken, now, exe);
      CalmRecovery(before, begin, broken, now, exe);
    }
    var begin := WorstOpen(before, exe);
    WorstIsOpened(before, exe);
    forall n | n in Names(exe)
      ensures RecoveryLeaves(before, WorstRestore(begin[App(Install, n, UpdateNew) := Dir(Spoilt(begin, n))], exe), exe)
      ensures OldProgram(before, WorstRestore(begin[App(Install, n, UpdateNew) := Dir(Spoilt(begin, n))], exe), exe) ==>
              Contained(before, n, App(Install, n, Live))
    {
      SpoiltRestore(before, begin, n, exe);
    }
  }

  lemma CalmRecovery(before: Files, begin: Files, broken: Files, now: Files, exe: string)
    requires OpenedFrom(before, begin, exe) && BrokenFrom(begin, broken, exe) && RecoveredFrom(broken, now, exe)
    requires Calm(before, exe)
    ensures OldProgram(before, now, exe)
  {
    hide Within, RestoreLeaves, Bounded, Calm, Quiet;
    OpenedIsApart(before, begin, exe);
    SavedIsQuiet(before, begin, exe);
    QuietKept(begin, broken, exe);
    QuietIsTidy(broken, exe);
    SavesSurvive(before, begin, broken, exe);
    RestoredFromSaved(before, broken, now, exe);
  }

  /** Every such restore brings the old database back, whatever fails, exactly when no stale copy of one of its files
      stood there. */
  lemma RecoveredDatabaseIff(before: Files, exe: string)
    ensures (forall now | RecoveryLeaves(before, now, exe) :: SameDatabase(before, DATABASE, now, DATABASE, SUFFIXES))
            <==> Fresh(before)
  {
    hide Within, Bounded, OldProgram, Fresh, RestoredFrom;
    BackupFaithfulIff(before, DATABASE, COPY, SUFFIXES);
    forall now | RecoveryLeaves(before, now, exe) && Fresh(before)
      ensures SameDatabase(before, DATABASE, now, DATABASE, SUFFIXES)
    {
      var begin, broken :|
        OpenedFrom(before, begin, exe) && BrokenFrom(begin, broken, exe) && RecoveredFrom(broken, now, exe);
      FreshOpened(before, begin, exe);
      SavesSurvive(before, begin, broken, exe);
      RestoredFromSaved(before, broken, now, exe);
    }
    var begin := WorstOpen(before, exe);
    var worst := WorstRestore(begin, exe);
    WorstIsOpened(before, exe);
    WorstIsRestore(begin, exe);
    BrokenAtFirst(begin, exe);
    assert RecoveredFrom(begin, worst, exe);
    assert RecoveryLeaves(before, worst, exe);
    if SameDatabase(before, DATABASE, worst, DATABASE, SUFFIXES) {
      forall s | s in SUFFIXES
        ensures Same(before, DATABASE.At(s, Live), begin, COPY.At(s, Live))
      {
        assert Same(begin, COPY.At(s, Live), worst, DATABASE.At(s, Live));
      }
    }
  }

  lemma BrokenAtFirst(begin: Files, exe: string)
    ensures BrokenFrom(begin, begin, exe)
  {
    BoundedAtFirst(begin);
  }

  lemma FreshOpened(before: Files, begin: Files, exe: string)
    requires OpenedFrom(before, begin, exe) && Fresh(before)
    ensures DatabaseSaved(before, begin)
  {
    BackupFaithfulIff(before, DATABASE, COPY, SUFFIXES);
  }

  // ---- The durable states ----

  ghost function WithMarker(now: Files, exe: string, status: Status): Files {
    now[JOURNAL := Journal(exe, Some(status))]
  }

  /** The states that a power loss in the worst moments of an update may leave: the journal just opened, or just
      completed. */
  ghost predicate Critical(before: Files, now: Files, exe: string) {
    || OpenedFrom(before, now, exe)
    || (exists at :: InstallLeaves(before, at, exe) && now == WithMarker(at, exe, Success))
    || (exists at :: RecoveryLeaves(before, at, exe) && now == WithMarker(at, exe, RolledBack))
  }

  lemma MarkerIsApart(before: Files, at: Files, exe: string, status: Status)
    ensures OldProgram(before, WithMarker(at, exe, status), exe) <==> OldProgram(before, at, exe)
    ensures NewProgram(before, WithMarker(at, exe, status), exe) <==> NewProgram(before, at, exe)
  {
    var now := WithMarker(at, exe, status);
    forall n
      ensures Placed(before, at, n) <==> Placed(before, now, n)
      ensures Same(at, App(Install, n, Live), now, App(Install, n, Live))
    {
    }
  }

  lemma SoundWhenSteady(before: Files, now: Files, exe: string)
    requires App(Staging, exe, Live) in before && before[App(Staging, exe, Live)].File?
    requires App(Staging, "static", Live) in before && before[App(Staging, "static", Live)].Dir?
    requires Critical(before, now, exe) && Fresh(before) && Steady(before, exe)
    ensures Sound(before, now, exe)
  {
    hide InstallLeaves, RecoveryLeaves, OpenedFrom, Fresh, Calm, Replaceable, OldProgram, NewProgram;
    InstallTrueIff(before, exe);
    RecoveryTrueIff(before, exe);
    if OpenedFrom(before, now, exe) {
      FreshOpened(before, now, exe);
      BackingHolds(before, now);
      SoundOpened(before, now, exe);
    } else if at :| InstallLeaves(before, at, exe) && now == WithMarker(at, exe, Success) {
      MarkerIsApart(before, at, exe, Success);
    } else {
      var at :| RecoveryLeaves(before, at, exe) && now == WithMarker(at, exe, RolledBack);
      MarkerIsApart(before, at, exe, RolledBack);
    }
  }

  /** All states that a power loss in the worst moments may leave are sound, whatever fails before, exactly when the
      database has no stale copy, the package leaves nothing to chance and no scratch directory can spoil a restore. */
  lemma SoundIff(before: Files, exe: string)
    requires App(Staging, exe, Live) in before && before[App(Staging, exe, Live)].File?
    requires App(Staging, "static", Live) in before && before[App(Staging, "static", Live)].Dir?
    ensures (forall now | Critical(before, now, exe) :: Sound(before, now, exe)) <==>
      Fresh(before) && Steady(before, exe)
  {
    hide InstallLeaves, RecoveryLeaves, OpenedFrom, Fresh, Calm, Replaceable, OldProgram, NewProgram;
    forall now | Critical(before, now, exe) && Fresh(before) && Steady(before, exe)
      ensures Sound(before, now, exe)
    {
      SoundWhenSteady(before, now, exe);
    }
    if forall now | Critical(before, now, exe) :: Sound(before, now, exe) {
      WorstIsOpened(before, exe);
      OpenJournal(before, WorstOpen(before, exe), exe);
      assert Critical(before, WorstOpen(before, exe), exe);
      forall at | InstallLeaves(before, at, exe)
        ensures NewProgram(before, at, exe)
      {
        assert Critical(before, WithMarker(at, exe, Success), exe);
        MarkerIsApart(before, at, exe, Success);
      }
      forall at | RecoveryLeaves(before, at, exe)
        ensures OldProgram(before, at, exe)
      {
        assert Critical(before, WithMarker(at, exe, RolledBack), exe);
        MarkerIsApart(before, at, exe, RolledBack);
      }
      InstallTrueIff(before, exe);
      RecoveryTrueIff(before, exe);
    }
  }

  lemma OpenJournal(before: Files, now: Files, exe: string)
    requires OpenedFrom(before, now, exe)
    ensures Sound(before, now, exe) ==> DatabaseSaved(before, now)
  {
  }
}
