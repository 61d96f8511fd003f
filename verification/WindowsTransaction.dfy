/** The journal around the Windows executor: its completion marker, its finalization, the gate in front of a
    recovery, and what any sequence of power losses and restarts can leave. */
module WindowsTransaction {
  import opened Options
  import opened Disk
  import opened Database
  import opened WindowsUpdater

  const RESULT_TMP := Path(Updates, "result.json.tmp", "", Live)
  const PROGRESS := Path(Updates, "executor-progress.json", "", Live)
  const FAILURE := Path(Updates, "last-failure.json", "", Live)
  const LOCK := Path(Updates, "update.lock", "", Live)

  /** The journal and the files that report about an update. */
  ghost function Records(): iset<Path> {
    iset{JOURNAL, RESULT, RESULT_TMP, PROGRESS, FAILURE}
  }

  /** What changes once the program that is to stay runs: its database, the records and the lock. */
  ghost function Settling(): iset<Path> {
    Records() + iset{LOCK} + Paths(DATABASE, SUFFIXES, {Live})
  }

  /** The lock record carries the token of the transaction. */
  predicate Owned(files: Files) {
    LOCK in files && files[LOCK] == Node.Lock(true)
  }

  ghost predicate Uncompleted(now: Files, exe: string) {
    JOURNAL in now && now[JOURNAL] == Journal(exe, None)
  }

  ghost predicate Completed(now: Files) {
    JOURNAL in now && now[JOURNAL].Journal? && now[JOURNAL].completed.Some?
  }

  /** What holds of every durable state of an update that started from `before`: without a journal the program is
      entirely old or entirely new; with an uncompleted one both backups are in place, and no scratch directory can
      spoil a restore from them if none could before; a completion marker tells the truth. */
  ghost predicate Sound(before: Files, now: Files, exe: string) {
    if JOURNAL !in now then OldProgram(before, now, exe) || NewProgram(before, now, exe)
    else
      && now[JOURNAL].Journal? && now[JOURNAL].exe == exe
      && match now[JOURNAL].completed
         case None =>
           ProgramSaved(before, now, exe) && DatabaseSaved(before, now) && (Calm(before, exe) ==> Quiet(now, exe))
         case Some(Success) => NewProgram(before, now, exe)
         case Some(RolledBack) => OldProgram(before, now, exe)
         case Some(Failed) => false
  }

  ghost predicate AllSound(before: Files, trace: seq<Files>, mark: nat, exe: string) {
    mark <= |trace| && forall i | mark <= i < |trace| :: Sound(before, trace[i], exe)
  }

  /** Drops the progress file and keeps the last failure; failures are ignored. */
  method NoteOutcome(disk: Disk, status: Status)
    requires disk.Valid()
    modifies disk
    ensures disk.Valid() && old(disk.trace) <= disk.trace && disk.Counted(old(disk.faults), old(disk.slips))
    ensures disk.Since(|old(disk.trace)|, old(disk.files), iset{PROGRESS, FAILURE})
    ensures old(disk.faults) < disk.faults || PROGRESS !in disk.files
    ensures status == Failed ==>
      old(disk.faults) < disk.faults || (FAILURE in disk.files && disk.files[FAILURE] == Result(status))
    ensures status == Success ==> Same(old(disk.files), FAILURE, disk.files, FAILURE)
  {
    var _ := disk.Remove(PROGRESS);
    var mentioned: bool := *; // whether the message about a rollback speaks of a failure
    if status == Failed || (status == RolledBack && mentioned) {
      ghost var removed := disk.files;
      var _ := disk.Overwrite(FAILURE, Result(status));
      assert Same(removed, PROGRESS, disk.files, PROGRESS);
    }
  }

  /** Replaces the result file, drops the progress file and keeps the last failure; only the first of these decides
      about success. */
  method WriteInstallResult(disk: Disk, status: Status) returns (ok: bool)
    requires disk.Valid()
    modifies disk
    ensures disk.Valid() && old(disk.trace) <= disk.trace
    ensures disk.Since(|old(disk.trace)|, old(disk.files), Records() - iset{JOURNAL})
    ensures ok ==> RESULT in disk.files && disk.files[RESULT] == Result(status)
    ensures disk.Counted(old(disk.faults), old(disk.slips)) && (!ok ==> old(disk.faults) < disk.faults)
    ensures ok ==> old(disk.faults) < disk.faults || PROGRESS !in disk.files
    ensures ok && status == Failed ==>
      old(disk.faults) < disk.faults || (FAILURE in disk.files && disk.files[FAILURE] == Result(status))
    ensures status == Success ==> Same(old(disk.files), FAILURE, disk.files, FAILURE)
  {
    ghost var before, mark, all := disk.files, |disk.trace|, Records() - iset{JOURNAL};
    ok := ReplaceResult(disk, status);
    ghost var files, trace := disk.files, disk.trace;
    WithinTrans(before, before, files, iset{}, iset{RESULT, RESULT_TMP}, all);
    assert Same(before, FAILURE, files, FAILURE);
    if ok {
      NoteOutcome(disk, status);
      Chain(mark, before, trace, all, files, disk.trace, disk.files, iset{PROGRESS, FAILURE});
      assert Same(files, RESULT, disk.files, RESULT);
    }
  }

  method ReplaceResult(disk: Disk, status: Status) returns (ok: bool)
    requires disk.Valid()
    modifies disk
    ensures disk.Valid() && old(disk.trace) <= disk.trace
    ensures disk.Since(|old(disk.trace)|, old(disk.files), iset{RESULT, RESULT_TMP})
    ensures ok ==> RESULT in disk.files && disk.files[RESULT] == Result(status)
    ensures disk.Counted(old(disk.faults), old(disk.slips)) && (!ok ==> old(disk.faults) < disk.faults)
  {
    ok := disk.Overwrite(RESULT_TMP, Result(status));
    if ok {
      var _ := disk.Remove(RESULT);
      ok := disk.Rename(RESULT_TMP, RESULT);
    }
  }

  ghost predicate HasResult(now: Files, status: Status) {
    RESULT in now && now[RESULT] == Result(status)
  }

  /** How finalization may leave the journal: untouched, or gone once a completed one has its result. */
  ghost predicate FinalizedFrom(from: Files, now: Files) {
    && Within(from, now, Records())
    && (Same(from, JOURNAL, now, JOURNAL)
      || (Completed(from) && JOURNAL !in now && HasResult(now, from[JOURNAL].completed.value)))
  }

  method FinalizeCompletedWindowsTransaction(disk: Disk) returns (ok: bool)
    requires disk.Valid()
    modifies disk
    ensures disk.Valid() && old(disk.trace) <= disk.trace
    ensures forall i | |old(disk.trace)| <= i < |disk.trace| :: FinalizedFrom(old(disk.files), disk.trace[i])
    ensures FinalizedFrom(old(disk.files), disk.files)
    ensures JOURNAL in old(disk.files) && JOURNAL !in disk.files ==>
      Completed(old(disk.files)) && RESULT in disk.files
      && disk.files[RESULT] == Result(old(disk.files)[JOURNAL].completed.value)
    ensures ok && Completed(old(disk.files)) ==> JOURNAL !in disk.files
    ensures !Completed(old(disk.files)) ==> disk.files == old(disk.files) && disk.trace == old(disk.trace)
    ensures disk.Counted(old(disk.faults), old(disk.slips))
    ensures !ok ==> old(disk.faults) < disk.faults || (JOURNAL in old(disk.files) && !old(disk.files)[JOURNAL].Journal?)
  {
    var stat := disk.Stat(JOURNAL);
    if stat.Absent? {
      return true;
    }
    var read := disk.Read(JOURNAL);
    if read.None? || !read.value.Journal? {
      return false;
    }
    if read.value.completed.None? {
      return true;
    }
    ok := WriteInstallResult(disk, read.value.completed.value);
    if ok {
      ok := disk.Remove(JOURNAL);
    }
  }

  /** How committing `status` may leave the journal: untouched, marked, or finalized after that. */
  ghost predicate CommittedFrom(from: Files, now: Files, status: Status) {
    && Within(from, now, Records())
    && JOURNAL in from && from[JOURNAL].Journal?
    && (if JOURNAL in now then now[JOURNAL] == from[JOURNAL].(completed := Some(status)) else HasResult(now, status))
  }

  /** Writes the completion marker, then tries to finalize; only the marker decides about success. */
  method CommitResult(disk: Disk, status: Status) returns (ok: bool)
    requires disk.Valid()
    modifies disk
    ensures disk.Valid() && old(disk.trace) <= disk.trace
    ensures !ok ==> disk.files == old(disk.files) && disk.trace == old(disk.trace)
    ensures ok ==> CommittedFrom(old(disk.files), disk.files, status)
    ensures forall i | |old(disk.trace)| <= i < |disk.trace| :: CommittedFrom(old(disk.files), disk.trace[i], status)
    ensures disk.Counted(old(disk.faults), old(disk.slips))
    ensures !ok ==> old(disk.faults) < disk.faults || JOURNAL !in old(disk.files) || !old(disk.files)[JOURNAL].Journal?
    ensures ok ==> old(disk.faults) < disk.faults || (JOURNAL !in disk.files && HasResult(disk.files, status))
  {
    ghost var before := disk.files;
    var read := disk.Read(JOURNAL);
    if read.None? || !read.value.Journal? {
      return false;
    }
    ghost var start := disk.trace;
    ok := disk.Write(JOURNAL, read.value.(completed := Some(status)));
    if ok {
      ghost var marked, trace := disk.files, disk.trace;
      var _ := FinalizeCompletedWindowsTransaction(disk);
      forall now | FinalizedFrom(marked, now)
        ensures CommittedFrom(before, now, status)
      {
      }
    }
  }

  // ---- From facts about paths to soundness ----

  lemma SoundChain(before: Files, trace: seq<Files>, trace': seq<Files>, mark: nat, exe: string)
    requires AllSound(before, trace, mark, exe) && trace <= trace' && AllSound(before, trace', |trace|, exe)
    ensures AllSound(before, trace', mark, exe)
  {
    forall i | mark <= i < |trace'|
      ensures Sound(before, trace'[i], exe)
    {
      if i < |trace| {
        assert trace'[i] == trace[i];
      }
    }
  }

  /** Before the journal exists only backups and the database change. */
  lemma SoundUnopened(before: Files, now: Files, exe: string)
    requires JOURNAL !in before && Within(before, now, Saves() + Paths(DATABASE, SUFFIXES, {Live}))
    ensures Sound(before, now, exe) && JOURNAL !in now
  {
    forall n | n in Names(exe)
      ensures Same(before, App(Install, n, Live), now, App(Install, n, Live))
    {
    }
    assert Same(before, JOURNAL, now, JOURNAL);
  }

  /** While the journal is uncompleted the program files and the database may change freely. */
  lemma SoundOpen(before: Files, from: Files, now: Files, exe: string)
    requires Uncompleted(from, exe) && Sound(before, from, exe) && Within(from, now, Open(exe)) && Bounded(from, now)
    ensures Uncompleted(now, exe) && Sound(before, now, exe)
  {
    hide Quiet, Calm, Bounded, ProgramSaved, DatabaseSaved;
    assert Same(from, JOURNAL, now, JOURNAL);
    SavesSurvive(before, from, now, exe);
    if Quiet(from, exe) {
      QuietKept(from, now, exe);
    }
  }

  lemma AllSoundOpen(before: Files, from: Files, trace: seq<Files>, mark: nat, now: Files, exe: string)
    requires Uncompleted(from, exe) && Sound(before, from, exe)
    requires AllWithin(mark, from, trace, Open(exe)) && Within(from, now, Open(exe))
      && AllBounded(mark, from, trace, now)
    ensures AllSound(before, trace, mark, exe) && Uncompleted(now, exe) && Sound(before, now, exe)
    ensures forall i | mark <= i < |trace| :: Uncompleted(trace[i], exe)
  {
    hide Sound, Within, Bounded, Uncompleted;
    forall i | mark <= i < |trace|
      ensures Sound(before, trace[i], exe) && Uncompleted(trace[i], exe)
    {
      SoundOpen(before, from, trace[i], exe);
    }
    SoundOpen(before, from, now, exe);
  }

  lemma ProgramKept(before: Files, from: Files, now: Files, exe: string)
    requires Within(from, now, Records() + iset{LOCK} + Paths(DATABASE, SUFFIXES, RESTORE_ROLES))
    ensures OldProgram(before, from, exe) ==> OldProgram(before, now, exe)
    ensures NewProgram(before, from, exe) ==> NewProgram(before, now, exe)
  {
    forall n | n in Names(exe)
      ensures Same(from, App(Install, n, Live), now, App(Install, n, Live))
    {
    }
    assert NewProgram(before, from, exe) ==> forall n | n in Names(exe) :: Placed(before, from, n);
  }

  /** A marker that tells the truth when it is written does so for as long as it stands. */
  lemma SoundCommit(before: Files, from: Files, now: Files, exe: string, status: Status)
    requires Uncompleted(from, exe) && CommittedFrom(from, now, status)
    requires status == Success ==> NewProgram(before, from, exe)
    requires status == RolledBack ==> OldProgram(before, from, exe)
    requires status != Failed
    ensures Sound(before, now, exe)
  {
    ProgramKept(before, from, now, exe);
  }

  lemma AllSoundCommit(before: Files, from: Files, trace: seq<Files>, mark: nat, now: Files, exe: string,
                       status: Status)
    requires Uncompleted(from, exe) && mark <= |trace| && status != Failed
    requires forall i | mark <= i < |trace| :: CommittedFrom(from, trace[i], status)
    requires CommittedFrom(from, now, status)
    requires status == Success ==> NewProgram(before, from, exe)
    requires status == RolledBack ==> OldProgram(before, from, exe)
    ensures AllSound(before, trace, mark, exe) && Sound(before, now, exe)
  {
    forall i | mark <= i < |trace|
      ensures Sound(before, trace[i], exe)
    {
      SoundCommit(before, from, trace[i], exe, status);
    }
    SoundCommit(before, from, now, exe, status);
  }

  // ---- What a rolled-back marker rests on ----

  predicate RolledBackMarked(now: Files) {
    JOURNAL in now && now[JOURNAL].Journal? && now[JOURNAL].completed == Some(RolledBack)
  }

  /** The old program files and the old database are in place. */
  ghost predicate ResumedAt(before: Files, now: Files, exe: string) {
    OldProgram(before, now, exe) && SameDatabase(before, DATABASE, now, DATABASE, SUFFIXES)
  }

  /** Among the states from `mark` up to `end` is one with the old program and the old database, and from there to `now`
      only what a running program and its records may change has changed. */
  ghost predicate Based(before: Files, trace: seq<Files>, mark: nat, end: nat, now: Files, exe: string) {
    end <= |trace| && exists k ::
      mark <= k < end && ResumedAt(before, trace[k], exe) && Within(trace[k], now, Settling())
  }

  /** `now` goes on from a marker that stood in `from` already. */
  ghost predicate Follows(from: Files, now: Files) {
    RolledBackMarked(from) && Within(from, now, Settling())
  }

  /** Every rolled-back marker after `mark` has its own state with the old program and the old database before it, or
      stood there already. */
  ghost predicate Grounded(before: Files, trace: seq<Files>, mark: nat, exe: string) {
    && mark < |trace|
    && forall i | mark < i < |trace| && RolledBackMarked(trace[i]) ::
         Based(before, trace, mark, i + 1, trace[i], exe) || Follows(trace[mark], trace[i])
  }

  lemma BasedLater(before: Files, trace: seq<Files>, mark: nat, end: nat, from: Files, now: Files, exe: string,
                   trace': seq<Files>, mark': nat, end': nat)
    requires Based(before, trace, mark, end, from, exe) && Within(from, now, Settling())
    requires trace <= trace' && mark' <= mark && end <= end' <= |trace'|
    ensures Based(before, trace', mark', end', now, exe)
  {
    var k :| mark <= k < end && ResumedAt(before, trace[k], exe) && Within(trace[k], from, Settling());
    WithinTrans(trace[k], from, now, Settling(), Settling(), Settling());
    assert ResumedAt(before, trace'[k], exe);
  }

  /** Two stretches whose markers are grounded compose. */
  lemma GroundedChain(before: Files, trace: seq<Files>, trace': seq<Files>, mark: nat, exe: string)
    requires Grounded(before, trace, mark, exe) && trace <= trace' && Grounded(before, trace', |trace| - 1, exe)
    ensures Grounded(before, trace', mark, exe)
  {
    hide Settling, ResumedAt, RolledBackMarked;
    var last := |trace| - 1;
    forall i | mark < i < |trace'| && RolledBackMarked(trace'[i])
      ensures Based(before, trace', mark, i + 1, trace'[i], exe) || Follows(trace'[mark], trace'[i])
    {
      var now := trace'[i];
      WithinItself(now);
      if i <= last {
        assert trace'[i] == trace[i] && trace'[mark] == trace[mark];
        if Based(before, trace, mark, i + 1, now, exe) {
          BasedLater(before, trace, mark, i + 1, now, now, exe, trace', mark, i + 1);
        }
      } else if Based(before, trace', last, i + 1, now, exe) {
        BasedLater(before, trace', last, i + 1, now, now, exe, trace', mark, i + 1);
      } else if mark < last {
        assert trace'[last] == trace[last] && trace'[mark] == trace[mark];
        if Based(before, trace, mark, last + 1, trace[last], exe) {
          BasedLater(before, trace, mark, last + 1, trace[last], now, exe, trace', mark, i + 1);
        } else {
          WithinTrans(trace[mark], trace[last], now, Settling(), Settling(), Settling());
        }
      }
    }
  }

  lemma WithinItself(now: Files)
    ensures Within(now, now, Settling())
  {
  }

  lemma NoMarker(before: Files, trace: seq<Files>, mark: nat, exe: string)
    requires mark < |trace| && forall i | mark < i < |trace| :: RolledBackMarked(trace[i]) ==>
      Follows(trace[mark], trace[i])
    ensures Grounded(before, trace, mark, exe)
  {
  }

  /** After a power loss one of the states stands again. */
  lemma GroundedLoss(before: Files, trace: seq<Files>, mark: nat, i: nat, exe: string)
    requires Grounded(before, trace, mark, exe) && mark <= i < |trace|
    ensures Grounded(before, trace + [trace[i]], mark, exe)
  {
    hide Settling, ResumedAt, RolledBackMarked;
    var trace' := trace + [trace[i]];
    WithinItself(trace[i]);
    forall j | mark < j < |trace'| && RolledBackMarked(trace'[j])
      ensures Based(before, trace', mark, j + 1, trace'[j], exe) || Follows(trace'[mark], trace'[j])
    {
      var at := if j < |trace| then j else i;
      assert trace'[j] == trace[at];
      WithinItself(trace[at]);
      if at > mark && Based(before, trace, mark, at + 1, trace[at], exe) {
        BasedLater(before, trace, mark, at + 1, trace[at], trace[at], exe, trace', mark, j + 1);
      }
    }
  }

  // ---- The update lock of the transaction ----

  /** The executor takes the record over that carries its token; only the recorded process changes. */
  method TakeOverUpdateLock(disk: Disk) returns (ok: bool)
    requires disk.Valid()
    modifies disk
    ensures disk.Valid() && old(disk.trace) <= disk.trace && disk.Counted(old(disk.faults), old(disk.slips))
    ensures disk.Since(|old(disk.trace)|, old(disk.files), iset{LOCK})
    ensures ok ==> Owned(old(disk.files)) && disk.files == old(disk.files)
    ensures !Owned(old(disk.files)) ==> !ok && disk.files == old(disk.files) && disk.trace == old(disk.trace)
    ensures !ok ==> old(disk.faults) < disk.faults || !Owned(old(disk.files))
  {
    var read := disk.Read(LOCK);
    ok := read == Some(Node.Lock(true));
    if ok {
      ok := disk.Overwrite(LOCK, Node.Lock(true));
    }
  }

  /** Drops the record if it carries the token. */
  method ReleaseUpdateLock(disk: Disk)
    requires disk.Valid()
    modifies disk
    ensures disk.Valid() && old(disk.trace) <= disk.trace && disk.Counted(old(disk.faults), old(disk.slips))
    ensures disk.Since(|old(disk.trace)|, old(disk.files), iset{LOCK})
    ensures disk.files == old(disk.files) || (Owned(old(disk.files)) && disk.files == old(disk.files) - {LOCK})
    ensures old(disk.faults) < disk.faults || !Owned(disk.files)
  {
    var read := disk.Read(LOCK);
    if read == Some(Node.Lock(true)) {
      var _ := disk.Remove(LOCK);
    }
  }

  // ---- The executor ----

  /** Neither the journal nor a running program is in the way of a restore. */
  lemma JournalIsApart(from: Files, now: Files, exe: string)
    requires Within(from, now, Records() + Paths(DATABASE, SUFFIXES, {Live}) + Managed(exe))
    ensures Restorable(from, exe) ==> Restorable(now, exe)
  {
    hide CanCopy;
    forall n | n in Names(exe)
      ensures Same(from, App(Application, n, Live), now, App(Application, n, Live))
    {
    }
    CopiesApart(from, now, exe);
  }

  lemma CopiesApart(from: Files, now: Files, exe: string)
    requires Within(from, now, Records() + Paths(DATABASE, SUFFIXES, {Live}) + Managed(exe))
    ensures CanCopy(from, COPY, DATABASE, SUFFIXES, RestoreTmp) ==> CanCopy(now, COPY, DATABASE, SUFFIXES, RestoreTmp)
  {
    forall s
      ensures Same(from, COPY.At(s, Live), now, COPY.At(s, Live))
      ensures Same(from, DATABASE.At(s, RestoreTmp), now, DATABASE.At(s, RestoreTmp))
    {
    }
  }

  /** A backup leaves the package alone. */
  lemma CompleteStays(before: Files, now: Files, exe: string)
    requires Within(before, now, Saves() + Records())
    ensures Complete(before, exe) ==> Complete(now, exe)
  {
    forall n
      ensures Same(before, App(Staging, n, Live), now, App(Staging, n, Live))
    {
    }
  }

  /** The state before the update with the database that `now` holds as its backup. */
  ghost function Backing(before: Files, now: Files): Files {
    map p |
      p in before.Keys + (set s | s in SUFFIXES :: DATABASE.At(s, Live))
      && (if BacksUp(p) then COPY.At(p.suffix, Live) in now else p in before) ::
      if BacksUp(p) then now[COPY.At(p.suffix, Live)] else before[p]
  }

  predicate BacksUp(p: Path) {
    p.suffix in SUFFIXES && p == DATABASE.At(p.suffix, Live)
  }

  lemma BackingHolds(before: Files, now: Files)
    ensures Within(before, Backing(before, now), Paths(DATABASE, SUFFIXES, {Live}))
    ensures DatabaseSaved(Backing(before, now), now)
    ensures DatabaseSaved(before, now) ==> Backing(before, now) == before
  {
    var base := Backing(before, now);
    forall p | p !in Paths(DATABASE, SUFFIXES, {Live})
      ensures Same(before, p, base, p)
    {
      assert !BacksUp(p);
    }
    forall s | s in SUFFIXES
      ensures Same(base, DATABASE.At(s, Live), now, COPY.At(s, Live))
    {
      assert BacksUp(DATABASE.At(s, Live));
    }
    if DatabaseSaved(before, now) {
      forall p
        ensures Same(before, p, base, p)
      {
        if BacksUp(p) {
          assert Same(before, DATABASE.At(p.suffix, Live), now, COPY.At(p.suffix, Live));
        } else {
          assert p in before <==> p in base;
        }
      }
      assert forall p :: p in before <==> Same(before, p, base, p) && p in base;
    }
  }

  /** What depends on the installed program and the package only. */
  lemma SameProgram(before: Files, base: Files, exe: string)
    requires Within(before, base, Paths(DATABASE, SUFFIXES, {Live}))
    ensures forall now :: OldProgram(before, now, exe) <==> OldProgram(base, now, exe)
    ensures forall now :: NewProgram(before, now, exe) <==> NewProgram(base, now, exe)
    ensures forall now :: ProgramSaved(before, now, exe) <==> ProgramSaved(base, now, exe)
    ensures Calm(before, exe) <==> Calm(base, exe)
  {
    forall place, n, role | place == Install || place == Staging
      ensures Same(before, App(place, n, role), base, App(place, n, role))
    {
    }
    forall n
      ensures Contained(before, n, App(Install, n, Live)) <==> Contained(base, n, App(Install, n, Live))
    {
      assert Same(before, App(Install, n, Live), base, App(Install, n, Live));
      assert Same(before, App(Install, n, UpdateNew), base, App(Install, n, UpdateNew));
      assert Same(before, App(Staging, n, Live), base, App(Staging, n, Live));
    }
    forall now, n
      ensures Placed(before, now, n) <==> Placed(base, now, n)
      ensures Same(before, App(Install, n, Live), now, App(Install, n, Live)) <==>
              Same(base, App(Install, n, Live), now, App(Install, n, Live))
    {
      assert Same(before, App(Install, n, Live), base, App(Install, n, Live));
      assert Same(before, App(Staging, n, Live), base, App(Staging, n, Live));
    }
  }

  /** How the journal is opened: both backups are made, the one of the database up to stale copies, and nothing but the
      backups and the records has changed. */
  ghost predicate OpenedFrom(before: Files, now: Files, exe: string) {
    && Uncompleted(now, exe) && ProgramSaved(before, now, exe)
    && BackupLeaves(before, now, DATABASE, COPY, SUFFIXES)
    && Within(before, now, Saves() + Records())
  }

  lemma SoundOpened(before: Files, now: Files, exe: string)
    requires OpenedFrom(before, now, exe)
    ensures Sound(Backing(before, now), now, exe)
  {
    var base := Backing(before, now);
    BackingHolds(before, now);
    SameProgram(before, base, exe);
    ApartFromRecords(before, now);
    if Calm(before, exe) {
      SavedIsQuiet(before, now, exe);
    }
  }

  lemma ApartFromRecords(before: Files, now: Files)
    requires Within(before, now, Saves() + Records())
    ensures forall n :: Scratch(before, n) == Scratch(now, n) && PackageKeys(before, n) == PackageKeys(now, n)
  {
    forall n
      ensures Scratch(before, n) == Scratch(now, n) && PackageKeys(before, n) == PackageKeys(now, n)
    {
      assert Same(before, App(Install, n, UpdateNew), now, App(Install, n, UpdateNew));
      assert Same(before, App(Staging, n, Live), now, App(Staging, n, Live));
    }
  }

  lemma Opening(before: Files, files: Files, now: Files, exe: string)
    requires Within(before, files, Saves()) && now == files[JOURNAL := Journal(exe, None)]
    requires ProgramSaved(before, files, exe) && BackupLeaves(before, files, DATABASE, COPY, SUFFIXES)
    ensures OpenedFrom(before, now, exe) && (Restorable(files, exe) ==> Restorable(now, exe))
    ensures DatabaseSaved(before, files) ==> DatabaseSaved(before, now)
  {
    hide Restorable;
    assert Within(files, now, iset{JOURNAL});
    WithinTrans(before, files, now, Saves(), iset{JOURNAL}, Saves() + Records());
    WithinTrans(files, now, now, iset{JOURNAL}, iset{}, Records() + Paths(DATABASE, SUFFIXES, {Live}) + Managed(exe));
    WithinTrans(files, files, now, iset{}, iset{JOURNAL}, Settling());
    forall n
      ensures Same(files, App(Application, n, Live), now, App(Application, n, Live))
    {
    }
    forall s
      ensures Same(files, COPY.At(s, Live), now, COPY.At(s, Live))
    {
    }
    var kept: set<string> :| "" !in kept && AllCopiedOrKept(before, files, DATABASE, COPY, SUFFIXES, kept);
    forall s | s in SUFFIXES
      ensures CopiedOrKept(before, now, DATABASE, COPY, s, kept)
    {
      assert CopiedOrKept(before, files, DATABASE, COPY, s, kept);
    }
    assert AllCopiedOrKept(before, now, DATABASE, COPY, SUFFIXES, kept);
    JournalIsApart(files, now, exe);
  }

  /** Backs up and opens the journal; nothing of the program has changed when that fails. `base` is the state before the
      call, but with the database that is then backed up: the same unless a stale copy outlived its removal. */
  method OpenTransaction(disk: Disk, exe: string, valid: bool) returns (begun: bool, ghost base: Files)
    requires disk.Valid() && JOURNAL !in disk.files
    modifies disk
    ensures disk.Valid() && old(disk.trace) <= disk.trace
    ensures AllSound(base, disk.trace, |old(disk.trace)|, exe) && Sound(base, disk.files, exe)
    ensures Within(old(disk.files), base, Paths(DATABASE, SUFFIXES, {Live}))
    ensures Fresh(old(disk.files)) || disk.slips == old(disk.slips) ==> base == old(disk.files)
    ensures begun ==> OpenedFrom(old(disk.files), disk.files, exe)
    ensures disk.Counted(old(disk.faults), old(disk.slips))
    ensures !valid ==> !begun
    ensures !begun ==> old(disk.faults) < disk.faults || !valid || !Savable(old(disk.files), exe)
    ensures begun && disk.faults == old(disk.faults) && Savable(old(disk.files), exe) && NoScratch(old(disk.files)) ==>
      Restorable(disk.files, exe)
    ensures Complete(old(disk.files), exe) && begun ==> Complete(disk.files, exe)
    ensures forall i | |old(disk.trace)| <= i < |disk.trace| :: !RolledBackMarked(disk.trace[i])
    ensures Within(old(disk.files), disk.files, Reach(exe))
  {
    hide Restorable, Savable, NoScratch, Complete, BackupLeaves, ProgramSaved, DatabaseSaved, Fresh, Calm;
    ghost var before, mark := disk.files, |disk.trace|;
    var saved;
    ghost var exact;
    saved, exact := Save(disk, exe, valid);
    ghost var files, trace := disk.files, disk.trace;
    base := before;
    begun := false;
    if saved {
      begun := disk.Write(JOURNAL, Journal(exe, None));
    }
    if begun {
      ghost var now := disk.files;
      Opening(before, files, now, exe);
      CompleteStays(before, now, exe);
      base := Backing(before, now);
      BackingHolds(before, now);
      SoundOpened(before, now, exe);
      AllUnopened(before, base, trace, mark, files, exe);
      forall i | mark <= i < |disk.trace|
        ensures Sound(base, disk.trace[i], exe) && !RolledBackMarked(disk.trace[i])
      {
        assert i < |trace| ==> disk.trace[i] == trace[i];
      }
    } else {
      // The old program starts again.
      UseDatabase(disk, DATABASE, SUFFIXES);
      WithinTrans(before, files, files, Saves(), iset{}, Saves() + Paths(DATABASE, SUFFIXES, {Live}));
      Chain(mark, before, trace, Saves() + Paths(DATABASE, SUFFIXES, {Live}), files, disk.trace, disk.files,
        Paths(DATABASE, SUFFIXES, {Live}));
      AllUnopened(before, base, disk.trace, mark, disk.files, exe);
    }
  }

  lemma AllUnopened(before: Files, base: Files, trace: seq<Files>, mark: nat, now: Files, exe: string)
    requires JOURNAL !in before && Within(before, base, Paths(DATABASE, SUFFIXES, {Live}))
    requires AllWithin(mark, before, trace, Saves() + Paths(DATABASE, SUFFIXES, {Live}))
    requires Within(before, now, Saves() + Paths(DATABASE, SUFFIXES, {Live}))
    ensures AllSound(base, trace, mark, exe) && Sound(base, now, exe)
    ensures forall i | mark <= i < |trace| :: !RolledBackMarked(trace[i])
  {
    hide Within, OldProgram, NewProgram;
    SameProgram(before, base, exe);
    forall i | mark <= i < |trace|
      ensures Sound(base, trace[i], exe) && !RolledBackMarked(trace[i])
    {
      SoundUnopened(before, trace[i], exe);
    }
    SoundUnopened(before, now, exe);
  }

  /** The paths that an executor may touch beside the lock. */
  ghost function Reach(exe: string): iset<Path> {
    Open(exe) + Records() + Saves()
  }

  /** Neither the present state nor, for a sound one, the state before the update lets a scratch directory spoil a
      restore. */
  ghost predicate Unspoiled(before: Files, files: Files, exe: string) {
    || (forall n | n in Names(exe) :: TidyName(files, n))
    || (Uncompleted(files, exe) && Sound(before, files, exe) && Calm(before, exe))
  }

  lemma UnspoiledIsTidy(before: Files, files: Files, exe: string)
    requires Unspoiled(before, files, exe)
    ensures forall n | n in Names(exe) :: TidyName(files, n)
  {
    if Quiet(files, exe) {
      QuietIsTidy(files, exe);
    }
  }

  /** `clean` is false when a restore that reports success is not exact, which takes a stale scratch directory that
      could not be removed and has an entry that the backup lacks. */
  method RestoreSoundly(disk: Disk, exe: string, ghost before: Files) returns (ok: bool, ghost clean: bool)
    requires disk.Valid()
    modifies disk
    ensures disk.Valid() && old(disk.trace) <= disk.trace
    ensures Uncompleted(old(disk.files), exe) && Sound(before, old(disk.files), exe) ==>
      && AllSound(before, disk.trace, |old(disk.trace)|, exe) && Uncompleted(disk.files, exe)
      && Sound(before, disk.files, exe)
      && forall i | |old(disk.trace)| <= i < |disk.trace| :: Uncompleted(disk.trace[i], exe)
    ensures Uncompleted(old(disk.files), exe) && Sound(before, old(disk.files), exe) && ok && clean ==>
      ResumedAt(before, disk.files, exe)
    ensures ok ==> RestoreLeaves(old(disk.files), disk.files, exe)
    ensures Within(old(disk.files), disk.files, Open(exe)) && Bounded(old(disk.files), disk.files)
    ensures disk.Counted(old(disk.faults), old(disk.slips)) && (!clean ==> old(disk.slips) < disk.slips)
    ensures Unspoiled(before, old(disk.files), exe) ==> clean
    ensures !ok ==> old(disk.faults) < disk.faults || !Restorable(old(disk.files), exe)
  {
    hide RestoreLeaves, Restorable, Bounded, Unspoiled;
    ghost var from, mark := disk.files, |disk.trace|;
    ok := Restore(disk, exe);
    clean := ok ==> forall n | n in Names(exe) :: Exact(from, disk.files, n);
    if Unspoiled(before, from, exe) {
      UnspoiledIsTidy(before, from, exe);
    }
    if ok {
      RestoreExactIff(from, exe);
    }
    if Uncompleted(from, exe) && Sound(before, from, exe) {
      AllSoundOpen(before, from, disk.trace, mark, disk.files, exe);
      if ok {
        RestoredFromSaved(before, from, disk.files, exe);
      }
    }
  }

  /** Runs the started program and, once it is healthy, commits `status`. */
  method RunAndCommit(disk: Disk, exe: string, status: Status, healthy: bool, ghost before: Files) returns (ok: bool)
    requires disk.Valid() && status != Failed
    modifies disk
    ensures disk.Valid() && old(disk.trace) <= disk.trace
    ensures MayCommit(before, old(disk.files), exe, status) ==>
      AllSound(before, disk.trace, |old(disk.trace)|, exe) && Sound(before, disk.files, exe)
        && (!ok ==> Uncompleted(disk.files, exe))
    ensures Uncompleted(old(disk.files), exe) && Sound(before, old(disk.files), exe) && !ok ==>
      && AllSound(before, disk.trace, |old(disk.trace)|, exe) && Sound(before, disk.files, exe)
      && Uncompleted(disk.files, exe)
    ensures Uncompleted(old(disk.files), exe) && Sound(before, old(disk.files), exe) ==>
      forall i | |old(disk.trace)| <= i < |disk.trace| && RolledBackMarked(disk.trace[i]) ::
        status == RolledBack && Within(old(disk.files), disk.trace[i], Settling())
    ensures ok ==> healthy
    ensures disk.Counted(old(disk.faults), old(disk.slips))
    ensures healthy && !ok && Uncompleted(old(disk.files), exe) ==> old(disk.faults) < disk.faults
    ensures ok ==> old(disk.faults) < disk.faults || (JOURNAL !in disk.files && HasResult(disk.files, status))
    ensures !healthy ==> !ok
    ensures !ok ==> Within(old(disk.files), disk.files, Paths(DATABASE, SUFFIXES, {Live}))
    ensures Within(old(disk.files), disk.files, Paths(DATABASE, SUFFIXES, {Live}) + Records())
    ensures ok && MayCommit(before, old(disk.files), exe, status) && status == Success ==>
      NewProgram(before, disk.files, exe)
    ensures ok && MayCommit(before, old(disk.files), exe, status) && status == RolledBack ==>
      OldProgram(before, disk.files, exe)
  {
    hide Database.Paths, Sound, NewProgram, OldProgram;
    ghost var from, mark := disk.files, |disk.trace|;
    UseDatabase(disk, DATABASE, SUFFIXES);
    ghost var running, trace := disk.files, disk.trace;
    ghost var use := Paths(DATABASE, SUFFIXES, {Live});
    WithinTrans(from, from, running, iset{}, use, use + Records());
    JournalStays(from, running);
    if Uncompleted(from, exe) && Sound(before, from, exe) {
      RunningIsOpen(before, from, trace, mark, running, exe);
    }
    ok := false;
    if healthy {
      ok := CommitResult(disk, status);
      if ok {
        WithinTrans(from, running, disk.files, use, Records(), use + Records());
        if Uncompleted(from, exe) && Sound(before, from, exe) {
          Marking(from, running, trace, disk.trace, mark, status, exe);
        }
      }
      if ok && MayCommit(before, from, exe, status) {
        AllSoundCommit(before, running, disk.trace, |trace|, disk.files, exe, status);
        SoundChain(before, trace, disk.trace, mark, exe);
        WithinTrans(running, disk.files, disk.files, Records(), iset{},
          Records() + iset{LOCK} + Paths(DATABASE, SUFFIXES, RESTORE_ROLES));
        ProgramKept(before, running, disk.files, exe);
      }
    }
  }

  /** A commit marks nothing but its own status, and changes records only. */
  lemma Marking(from: Files, running: Files, trace: seq<Files>, trace': seq<Files>, mark: nat, status: Status,
                exe: string)
    requires mark <= |trace| && trace <= trace' && Within(from, running, Paths(DATABASE, SUFFIXES, {Live}))
    requires forall i | |trace| <= i < |trace'| :: CommittedFrom(running, trace'[i], status)
    requires forall i | mark <= i < |trace| :: !RolledBackMarked(trace[i])
    ensures forall i | mark <= i < |trace'| && RolledBackMarked(trace'[i]) ::
      status == RolledBack && Within(from, trace'[i], Settling())
  {
    forall i | mark <= i < |trace|
      ensures !RolledBackMarked(trace'[i])
    {
      assert trace'[i] == trace[i];
    }
    forall i | |trace| <= i < |trace'|
      ensures RolledBackMarked(trace'[i]) ==> status == RolledBack && Within(from, trace'[i], Settling())
    {
      WithinTrans(from, running, trace'[i], Paths(DATABASE, SUFFIXES, {Live}), Records(), Settling());
    }
  }

  lemma JournalStays(from: Files, now: Files)
    requires Within(from, now, Paths(DATABASE, SUFFIXES, {Live}))
    ensures Same(from, JOURNAL, now, JOURNAL)
  {
  }

  /** The journal is uncompleted and the program is the one that a marker of `status` stands for. */
  ghost predicate MayCommit(before: Files, now: Files, exe: string, status: Status) {
    && Uncompleted(now, exe) && Sound(before, now, exe)
    && (status == Success ==> NewProgram(before, now, exe))
    && (status == RolledBack ==> OldProgram(before, now, exe))
  }

  /** What a start of the program comes to. */
  datatype Attempt = Attempt(starts: bool, healthy: bool)

  /** The common end of both recoveries: restore, start the old program, check its health, commit the rollback.
      `resumed` is the state in which the old program was started. */
  method RestoreAndCommit(disk: Disk, exe: string, attempt: Attempt, ghost before: Files)
    returns (ok: bool, ghost clean: bool, ghost resumed: Option<Files>)
    requires disk.Valid()
    modifies disk
    ensures disk.Valid() && old(disk.trace) <= disk.trace
    ensures Uncompleted(old(disk.files), exe) && Sound(before, old(disk.files), exe) && clean ==>
      && AllSound(before, disk.trace, |old(disk.trace)|, exe) && Sound(before, disk.files, exe)
      && Grounded(before, disk.trace, |old(disk.trace)| - 1, exe)
      && (resumed.Some? ==> ResumedAt(before, resumed.value, exe))
      && (if ok then OldProgram(before, disk.files, exe) else Uncompleted(disk.files, exe))
    ensures disk.Counted(old(disk.faults), old(disk.slips)) && (!clean ==> old(disk.slips) < disk.slips)
    ensures Unspoiled(before, old(disk.files), exe) ==> clean
    ensures resumed.Some? ==> RecoveredFrom(old(disk.files), resumed.value, exe)
    ensures ok ==> resumed.Some? && Within(resumed.value, disk.files, Settling())
    ensures resumed.None? ==> old(disk.faults) < disk.faults || !Restorable(old(disk.files), exe)
    ensures ok ==> resumed.Some? && attempt == Attempt(true, true)
    ensures ok ==> old(disk.faults) < disk.faults || (JOURNAL !in disk.files && HasResult(disk.files, RolledBack))
    ensures (!ok && attempt == Attempt(true, true) && Uncompleted(old(disk.files), exe)
      && Sound(before, old(disk.files), exe)) ==>
      old(disk.faults) < disk.faults || !Restorable(old(disk.files), exe)
    ensures Within(old(disk.files), disk.files, Open(exe) + Records())
  {
    hide Sound, Restorable, OldProgram, TidyName, Open, SameDatabase, Settling, RestoreLeaves, Bounded, Unspoiled;
    ghost var from, mark := disk.files, |disk.trace|;
    resumed := None;
    ok, clean := RestoreSoundly(disk, exe, before);
    ghost var restored, trace := disk.files, disk.trace;
    WithinTrans(from, restored, restored, Open(exe), iset{}, Open(exe) + Records());
    if ok {
      resumed := Some(restored);
      ok := attempt.starts;
      if ok {
        ok := RunAndCommit(disk, exe, RolledBack, attempt.healthy, before);
        DatabaseIsOpen(exe);
        RunningSettles(restored, disk.files);
        WithinTrans(from, restored, disk.files, Open(exe), Paths(DATABASE, SUFFIXES, {Live}) + Records(),
          Open(exe) + Records());
        if Uncompleted(from, exe) && Sound(before, from, exe) && clean {
          SoundChain(before, trace, disk.trace, mark, exe);
        }
      }
    }
    if Uncompleted(from, exe) && Sound(before, from, exe) && clean {
      Resuming(before, trace, disk.trace, mark - 1, exe, resumed.Some?);
    }
  }

  /** A restore that reports success leads from the one state to the other. */
  ghost predicate RecoveredFrom(from: Files, now: Files, exe: string) {
    Within(from, now, Open(exe)) && RestoreLeaves(from, now, exe)
  }

  lemma RunningSettles(from: Files, now: Files)
    requires Within(from, now, Paths(DATABASE, SUFFIXES, {Live}) + Records())
    ensures Within(from, now, Settling())
  {
    WithinTrans(from, now, now, Paths(DATABASE, SUFFIXES, {Live}) + Records(), iset{}, Settling());
  }

  lemma DatabaseIsOpen(exe: string)
    ensures Paths(DATABASE, SUFFIXES, {Live}) <= Open(exe)
  {
  }

  /** Markers that go back to the state in which the old program was started are grounded in it. */
  lemma Resuming(before: Files, trace: seq<Files>, trace': seq<Files>, mark: nat, exe: string, resumed: bool)
    requires mark < |trace| && trace <= trace'
    requires forall i | mark < i < |trace| :: Uncompleted(trace[i], exe)
    requires if resumed then ResumedAt(before, trace[|trace| - 1], exe) else trace' == trace
    requires forall i | |trace| <= i < |trace'| && RolledBackMarked(trace'[i]) ::
      Within(trace[|trace| - 1], trace'[i], Settling())
    ensures Grounded(before, trace', mark, exe)
  {
    forall i | mark < i < |trace|
      ensures !RolledBackMarked(trace'[i])
    {
      assert trace'[i] == trace[i] && Uncompleted(trace[i], exe);
    }
    forall i | |trace| <= i < |trace'| && RolledBackMarked(trace'[i])
      ensures Based(before, trace', mark, i + 1, trace'[i], exe)
    {
      assert ResumedAt(before, trace'[|trace| - 1], exe) && Within(trace'[|trace| - 1], trace'[i], Settling());
    }
  }

  lemma AllWithinMore(mark: nat, from: Files, trace: seq<Files>, now: Files, some: iset<Path>, more: iset<Path>)
    requires AllWithin(mark, from, trace, some) && Within(from, now, some) && some <= more
    ensures AllWithin(mark, from, trace, more) && Within(from, now, more)
  {
    forall i | mark <= i < |trace|
      ensures Within(from, trace[i], more)
    {
      WithinTrans(from, trace[i], trace[i], some, iset{}, more);
    }
    WithinTrans(from, now, now, some, iset{}, more);
  }

  lemma RunningIsBounded(from: Files, trace: seq<Files>, mark: nat, now: Files)
    requires AllWithin(mark, from, trace, Paths(DATABASE, SUFFIXES, {Live}))
    requires Within(from, now, Paths(DATABASE, SUFFIXES, {Live}))
    ensures AllBounded(mark, from, trace, now)
  {
    var all := Paths(DATABASE, SUFFIXES, RESTORE_ROLES);
    AllWithinMore(mark, from, trace, now, Paths(DATABASE, SUFFIXES, {Live}), all);
    DatabaseBounded(mark, from, trace, now);
  }

  lemma RunningIsOpen(before: Files, from: Files, trace: seq<Files>, mark: nat, now: Files, exe: string)
    requires Uncompleted(from, exe) && Sound(before, from, exe)
    requires AllWithin(mark, from, trace, Paths(DATABASE, SUFFIXES, {Live}))
      && Within(from, now, Paths(DATABASE, SUFFIXES, {Live}))
    ensures AllSound(before, trace, mark, exe) && Uncompleted(now, exe) && Sound(before, now, exe)
    ensures forall i | mark <= i < |trace| :: Uncompleted(trace[i], exe)
    ensures OldProgram(before, from, exe) ==> OldProgram(before, now, exe)
    ensures NewProgram(before, from, exe) ==> NewProgram(before, now, exe)
  {
    hide Within, Sound, Bounded, Settling, Records;
    DatabaseIsOpen(exe);
    RunningIsBounded(from, trace, mark, now);
    AllWithinMore(mark, from, trace, now, Paths(DATABASE, SUFFIXES, {Live}), Open(exe));
    AllSoundOpen(before, from, trace, mark, now, exe);
    WithinMore(from, now, Paths(DATABASE, SUFFIXES, {Live}),
               Records() + iset{LOCK} + Paths(DATABASE, SUFFIXES, RESTORE_ROLES));
    ProgramKept(before, from, now, exe);
  }

  /** What may differ from the state before the update when the journal is open. */
  ghost function Backups(): iset<Path> {
    Saves() + Records() + Paths(DATABASE, SUFFIXES, {Live})
  }

  lemma ReplacedIsNew(before: Files, from: Files, now: Files, exe: string)
    requires Within(before, from, Backups())
    ensures NewProgram(from, now, exe) <==> NewProgram(before, now, exe)
  {
    hide Within;
    forall n
      ensures Placed(from, now, n) <==> Placed(before, now, n)
    {
      PackageStays(before, from, n);
    }
  }

  lemma PackageStays(before: Files, from: Files, n: string)
    requires Within(before, from, Backups())
    ensures Same(before, App(Staging, n, Live), from, App(Staging, n, Live))
    ensures Same(before, App(Install, n, Live), from, App(Install, n, Live))
  {
  }

  /** `clean` is false when a replacement that reports success is not the new program, which takes a stale scratch
      directory that could not be removed or a file of the package that could not be looked at. */
  method ReplaceSoundly(disk: Disk, exe: string, ghost before: Files) returns (ok: bool, ghost clean: bool)
    requires disk.Valid() && Within(before, disk.files, Backups()) && Uncompleted(disk.files, exe)
    modifies disk
    ensures disk.Valid() && old(disk.trace) <= disk.trace
    ensures Sound(before, old(disk.files), exe) ==>
      && AllSound(before, disk.trace, |old(disk.trace)|, exe) && Sound(before, disk.files, exe)
      && forall i | |old(disk.trace)| <= i < |disk.trace| :: Uncompleted(disk.trace[i], exe)
    ensures Uncompleted(disk.files, exe)
    ensures ok ==> ReplaceLeaves(old(disk.files), disk.files, exe)
    ensures Bounded(old(disk.files), disk.files)
    ensures ok && clean ==> NewProgram(before, disk.files, exe)
    ensures disk.Counted(old(disk.faults), old(disk.slips)) && (!clean ==> old(disk.slips) < disk.slips)
    ensures Replaceable(old(disk.files), exe) ==> clean
    ensures !ok ==> old(disk.faults) < disk.faults || !Complete(old(disk.files), exe)
    ensures Within(old(disk.files), disk.files, Managed(exe))
  {
    hide Complete, Replaceable, NewProgram, ReplaceLeaves, Sound, Bounded;
    ghost var from, mark := disk.files, |disk.trace|;
    ok := Replace(disk, exe);
    ManagedIsOpen(exe);
    AllWithinMore(mark, from, disk.trace, disk.files, Managed(exe), Open(exe));
    ManagedLeavesJournal(from, disk.files, exe);
    clean := ok ==> NewProgram(from, disk.files, exe);
    if ok {
      ReplacedIff(from, disk.files, exe);
    }
    if Sound(before, from, exe) {
      AllSoundOpen(before, from, disk.trace, mark, disk.files, exe);
    }
    if ok && clean {
      ReplacedIsNew(before, from, disk.files, exe);
    }
  }

  lemma ManagedIsOpen(exe: string)
    ensures Managed(exe) <= Open(exe)
  {
  }

  lemma ManagedLeavesJournal(from: Files, now: Files, exe: string)
    requires Within(from, now, Managed(exe))
    ensures Same(from, JOURNAL, now, JOURNAL)
  {
  }

  lemma ReplacedIff(from: Files, now: Files, exe: string)
    requires ReplaceLeaves(from, now, exe)
    ensures Replaceable(from, exe) ==> NewProgram(from, now, exe)
  {
    ReplaceExactIff(from, exe);
  }

  /** A replacement that reports success leads from the one state to the other. */
  ghost predicate InstalledFrom(from: Files, now: Files, exe: string) {
    Within(from, now, Managed(exe)) && ReplaceLeaves(from, now, exe)
  }

  lemma RunningBound(from: Files, mid: Files, now: Files, exe: string)
    requires Within(from, mid, Managed(exe)) && Bounded(from, mid)
    requires Within(mid, now, Paths(DATABASE, SUFFIXES, {Live}))
    ensures Bounded(from, now)
  {
    hide Within;
    ManagedIsOpen(exe);
    AllWithinMore(0, from, [], mid, Managed(exe), Open(exe));
    BoundStays(from, mid, exe);
    RunningIsBounded(mid, [], 0, now);
    BoundedOver(from, mid, now);
  }

  /** Replaces the program, starts the new one and commits it once it is healthy. `stopped` is false when a new program
      that must go cannot be stopped, `clean` when a program is committed that is not the new one. `installed` is the
      state in which the new program was started. */
  method InstallAndCommit(disk: Disk, exe: string, attempt: Attempt, stops: bool, ghost before: Files)
    returns (ok: bool, stopped: bool, ghost clean: bool, ghost installed: Files)
    requires disk.Valid() && Within(before, disk.files, Backups()) && Uncompleted(disk.files, exe)
    modifies disk
    ensures disk.Valid() && old(disk.trace) <= disk.trace
    ensures disk.Counted(old(disk.faults), old(disk.slips)) && (!clean ==> old(disk.slips) < disk.slips)
    ensures !ok || Replaceable(old(disk.files), exe) ==> clean
    ensures Sound(before, old(disk.files), exe) && clean ==>
      && AllSound(before, disk.trace, |old(disk.trace)|, exe) && Sound(before, disk.files, exe)
      && (if ok then NewProgram(before, disk.files, exe) else Uncompleted(disk.files, exe))
      && forall i | |old(disk.trace)| <= i < |disk.trace| :: !RolledBackMarked(disk.trace[i])
    ensures ok ==> attempt == Attempt(true, true)
    ensures ok ==> old(disk.faults) < disk.faults || (JOURNAL !in disk.files && HasResult(disk.files, Success))
    ensures ok ==> InstalledFrom(old(disk.files), installed, exe) && Within(installed, disk.files, Settling())
    ensures !ok ==>
      Within(old(disk.files), disk.files, Paths(DATABASE, SUFFIXES, {Live}) + Managed(exe))
        && Bounded(old(disk.files), disk.files)
    ensures Within(old(disk.files), disk.files, Reach(exe))
    ensures !ok && attempt == Attempt(true, true) ==> old(disk.faults) < disk.faults || !Complete(old(disk.files), exe)
    ensures !stopped ==> !ok && !stops && attempt.starts
    ensures !ok && attempt.starts && !stops ==>
      !stopped || old(disk.faults) < disk.faults || !Complete(old(disk.files), exe)
  {
    hide Sound, Complete, Replaceable, NewProgram, Database.Paths, Managed, ReplaceLeaves, Bounded, Settling, Reach;
    ghost var from, mark, all := disk.files, |disk.trace|, Paths(DATABASE, SUFFIXES, {Live}) + Managed(exe);
    ok, clean := ReplaceSoundly(disk, exe, before);
    stopped, installed := true, disk.files;
    ghost var trace := disk.trace;
    InReach(exe);
    WithinTrans(from, installed, installed, Managed(exe), iset{}, all);
    WithinTrans(from, installed, installed, Managed(exe), iset{}, Reach(exe));
    if ok && attempt.starts {
      ok := RunAndCommit(disk, exe, Success, attempt.healthy, before);
      WithinTrans(from, installed, disk.files, Managed(exe), Paths(DATABASE, SUFFIXES, {Live}) + Records(), Reach(exe));
      RunningSettles(installed, disk.files);
      clean := ok ==> clean;
      if Sound(before, from, exe) && clean {
        SoundChain(before, trace, disk.trace, mark, exe);
        StillUnmarked(trace, disk.trace, mark, exe);
      }
      if !ok {
        stopped := stops;
        WithinTrans(from, installed, disk.files, Managed(exe), Paths(DATABASE, SUFFIXES, {Live}), all);
        RunningBound(from, installed, disk.files, exe);
      }
    } else {
      ok, clean := false, true;
      if Sound(before, from, exe) {
        StillUnmarked(trace, trace, mark, exe);
      }
    }
  }

  lemma InReach(exe: string)
    ensures Managed(exe) <= Reach(exe) && Paths(DATABASE, SUFFIXES, {Live}) + Records() <= Reach(exe)
  {
  }

  lemma StillUnmarked(trace: seq<Files>, trace': seq<Files>, mark: nat, exe: string)
    requires mark <= |trace| && trace <= trace'
    requires forall i | mark <= i < |trace| :: Uncompleted(trace[i], exe)
    requires forall i | |trace| <= i < |trace'| :: !RolledBackMarked(trace'[i])
    ensures forall i | mark <= i < |trace'| :: !RolledBackMarked(trace'[i])
  {
    forall i | mark <= i < |trace|
      ensures !RolledBackMarked(trace'[i])
    {
      assert trace'[i] == trace[i] && Uncompleted(trace[i], exe);
    }
  }

  /** What a commit of the outcome, or a failed end, relies on: the package leaves nothing to chance, or no scratch
      directory can spoil a restore. */
  ghost predicate Safe(before: Files, exe: string, outcome: Option<Status>) {
    if outcome == Some(Success) then Replaceable(before, exe) else Calm(before, exe)
  }

  /** A journaled update from the replacement on, to a commit or as far as it gets. `started` is the state in which the
      program was started that the outcome stands for, `broken` the one before the restore, if there was one. */
  method Proceed(disk: Disk, exe: string, attempt: Attempt, stops: bool, second: Attempt, ghost before: Files)
    returns (outcome: Option<Status>, ghost clean: bool, ghost resumed: Option<Files>, ghost started: Files,
      ghost broken: Files)
    requires disk.Valid() && Within(before, disk.files, Backups()) && Uncompleted(disk.files, exe)
    modifies disk
    ensures disk.Valid() && old(disk.trace) <= disk.trace
    ensures Sound(before, old(disk.files), exe) && clean ==>
      && AllSound(before, disk.trace, |old(disk.trace)|, exe) && Sound(before, disk.files, exe)
      && Grounded(before, disk.trace, |old(disk.trace)| - 1, exe)
      && (resumed.Some? ==> ResumedAt(before, resumed.value, exe))
      && (outcome == Some(Success) ==> NewProgram(before, disk.files, exe))
      && (outcome == Some(RolledBack) ==> OldProgram(before, disk.files, exe))
      && (outcome.None? ==> Uncompleted(disk.files, exe))
    ensures disk.Counted(old(disk.faults), old(disk.slips)) && (!clean ==> old(disk.slips) < disk.slips)
    ensures outcome == Some(Success) && Replaceable(old(disk.files), exe) ==> clean
    ensures outcome != Some(Success) && Sound(before, old(disk.files), exe) && Calm(before, exe) ==> clean
    ensures outcome == Some(RolledBack) ==> resumed == Some(started)
    ensures outcome == Some(Success) ==> InstalledFrom(old(disk.files), started, exe)
    ensures resumed.Some? ==>
      && Within(old(disk.files), broken, Open(exe)) && Bounded(old(disk.files), broken)
      && RecoveredFrom(broken, resumed.value, exe)
    ensures outcome.Some? ==> Within(started, disk.files, Settling())
    ensures outcome.Some? ==>
      && outcome.value != Failed
      && (old(disk.faults) < disk.faults || (JOURNAL !in disk.files && HasResult(disk.files, outcome.value)))
    ensures Complete(old(disk.files), exe) && attempt == Attempt(true, true) ==>
      old(disk.faults) < disk.faults || outcome == Some(Success)
    ensures (Sound(before, old(disk.files), exe) && Restorable(old(disk.files), exe)
      && RollsBack(attempt, stops, second)) ==>
      old(disk.faults) < disk.faults || outcome == Some(RolledBack)
    ensures Complete(old(disk.files), exe) && attempt != Attempt(true, true) && !RollsBack(attempt, stops, second) ==>
      old(disk.faults) < disk.faults || outcome.None?
    ensures Within(old(disk.files), disk.files, Reach(exe))
  {
    hide Sound, Complete, NewProgram, OldProgram, Restorable, Savable, Grounded, Replaceable, Within, RolledBackMarked,
         TidyName, SameDatabase, AllSound, ResumedAt, HasResult, Reach, Open, Managed, Saves, Records, Uncompleted,
         Calm, Bounded, Settling, RestoreLeaves, ReplaceLeaves;
    ghost var begin, mark := disk.files, |disk.trace|;
    outcome, resumed := None, None;
    var ok, stopped;
    ok, stopped, clean, started := InstallAndCommit(disk, exe, attempt, stops, before);
    ghost var trace := disk.trace;
    broken := disk.files;
    if Sound(before, begin, exe) && clean {
      Unmarked(before, trace, mark, exe);
    }
    if ok {
      outcome := Some(Success);
    } else if stopped {
      StillRestorable(begin, broken, exe);
      DatabaseAndProgramOpen(exe);
      WithinMore(begin, broken, Paths(DATABASE, SUFFIXES, {Live}) + Managed(exe), Open(exe));
      ok, clean, resumed := RestoreAndCommit(disk, exe, second, before);
      OpenIsReach(exe);
      WithinTrans(begin, broken, disk.files, Reach(exe), Open(exe) + Records(), Reach(exe));
      if ok {
        outcome, started := Some(RolledBack), resumed.value;
      }
      if Sound(before, begin, exe) && clean {
        SoundChain(before, trace, disk.trace, mark, exe);
        GroundedChain(before, trace, disk.trace, mark - 1, exe);
      }
    }
  }

  lemma DatabaseAndProgramOpen(exe: string)
    ensures Paths(DATABASE, SUFFIXES, {Live}) + Managed(exe) <= Open(exe)
  {
  }

  /** The new program is not healthy, can be stopped if it was started, and the old one is healthy after it. */
  predicate RollsBack(attempt: Attempt, stops: bool, second: Attempt) {
    attempt != Attempt(true, true) && (attempt.starts ==> stops) && second == Attempt(true, true)
  }

  // ---- What an update may leave ----

  /** Where an update may start the new program. */
  ghost predicate InstallLeaves(before: Files, now: Files, exe: string) {
    exists begin :: OpenedFrom(before, begin, exe) && InstalledFrom(begin, now, exe)
  }

  /** Where an update, or a recovery after it, may start the old program again. */
  ghost predicate RecoveryLeaves(before: Files, now: Files, exe: string) {
    exists begin, broken ::
      OpenedFrom(before, begin, exe) && BrokenFrom(begin, broken, exe) && RecoveredFrom(broken, now, exe)
  }

  /** An open update has changed no more than it may. */
  ghost predicate BrokenFrom(begin: Files, now: Files, exe: string) {
    Within(begin, now, Open(exe)) && Bounded(begin, now)
  }

  /** The program is the one that the outcome stands for; the database is the one from before when the old program was
      started again. */
  ghost predicate Leaves(before: Files, started: Files, exe: string, outcome: Option<Status>) {
    match outcome
    case Some(Success) => InstallLeaves(before, started, exe)
    case Some(RolledBack) => RecoveryLeaves(before, started, exe)
    case _ => true
  }

  /** One update: `valid` tells whether the package is accepted, `attempt` and `stops` what becomes of the new program,
      `second` of the old one after a restore. A new program that cannot be stopped is left alone with the journal
      uncompleted. Undisturbed, a healthy new program is installed and reported, and an unhealthy one makes way for the
      old program and the old database, or the journal stays open. Whatever fails, all states are sound and all markers
      true, of the old program with the database that was backed up (`base`), unless a slip spoils what is committed,
      which it cannot when the update was `Safe`. */
  method Apply(disk: Disk, exe: string, valid: bool, attempt: Attempt, stops: bool, second: Attempt)
    returns (outcome: Option<Status>, ghost clean: bool, ghost resumed: Option<Files>, ghost started: Files,
      ghost base: Files)
    requires disk.Valid() && JOURNAL !in disk.files
    modifies disk
    ensures disk.Valid() && old(disk.trace) <= disk.trace
    ensures clean ==> AllSound(base, disk.trace, |old(disk.trace)|, exe) && Sound(base, disk.files, exe)
    ensures clean ==> Grounded(base, disk.trace, |old(disk.trace)| - 1, exe)
    ensures clean && resumed.Some? ==> ResumedAt(base, resumed.value, exe)
    ensures clean && outcome == Some(Success) ==> NewProgram(old(disk.files), disk.files, exe)
    ensures clean && outcome == Some(RolledBack) ==> OldProgram(old(disk.files), disk.files, exe)
    ensures Safe(old(disk.files), exe, outcome) || disk.slips == old(disk.slips) ==> clean
    ensures Fresh(old(disk.files)) || disk.slips == old(disk.slips) ==> base == old(disk.files)
    ensures Within(old(disk.files), base, Paths(DATABASE, SUFFIXES, {Live}))
    ensures Leaves(old(disk.files), started, exe, outcome)
      && (outcome.Some? ==> Within(started, disk.files, Settling()))
    ensures outcome == Some(RolledBack) ==> resumed == Some(started)
    ensures resumed.Some? ==> RecoveryLeaves(old(disk.files), resumed.value, exe)
    ensures outcome != Some(Failed)
    ensures disk.faults == old(disk.faults) && outcome.Some? ==>
      JOURNAL !in disk.files && HasResult(disk.files, outcome.value)
    ensures disk.Counted(old(disk.faults), old(disk.slips))
    ensures disk.faults == old(disk.faults) && valid && Savable(old(disk.files), exe) ==>
      EndsWell(old(disk.files), disk.files, exe, outcome, attempt, stops, second)
    ensures Within(old(disk.files), disk.files, Reach(exe))
  {
    hide Sound, Complete, NewProgram, OldProgram, Restorable, Savable, Grounded, Replaceable, Within, RolledBackMarked,
         TidyName, SameDatabase, AllSound, ResumedAt, HasResult, Reach, Open, Managed, Saves, Records, Calm, Fresh,
         Bounded, Settling, OpenedFrom, InstalledFrom, RecoveredFrom;
    ghost var before, mark := disk.files, |disk.trace|;
    outcome, resumed, clean, started := None, None, true, before;
    var begun;
    begun, base := OpenTransaction(disk, exe, valid);
    ghost var begin, trace := disk.files, disk.trace;
    Unmarked(base, trace, mark, exe);
    if begun {
      OpenedBase(before, base, begin, exe);
      ghost var broken;
      outcome, clean, resumed, started, broken := Proceed(disk, exe, attempt, stops, second, base);
      WithinTrans(before, begin, disk.files, Reach(exe), Reach(exe), Reach(exe));
      if resumed.Some? {
        assert BrokenFrom(begin, broken, exe);
        assert RecoveryLeaves(before, resumed.value, exe);
      }
      if outcome == Some(Success) {
        assert InstallLeaves(before, started, exe);
      }
      if clean {
        SoundChain(base, trace, disk.trace, mark, exe);
        GroundedChain(base, trace, disk.trace, mark - 1, exe);
      }
    }
  }

  lemma OpenedBase(before: Files, base: Files, begin: Files, exe: string)
    requires OpenedFrom(before, begin, exe) && Within(before, base, Paths(DATABASE, SUFFIXES, {Live}))
    ensures Uncompleted(begin, exe) && Within(base, begin, Backups())
    ensures Replaceable(before, exe) ==> Replaceable(begin, exe)
    ensures Calm(before, exe) <==> Calm(base, exe)
    ensures forall now :: OldProgram(before, now, exe) <==> OldProgram(base, now, exe)
    ensures forall now :: NewProgram(before, now, exe) <==> NewProgram(base, now, exe)
  {
    SameProgram(before, base, exe);
    ReplaceableStays(before, begin, exe);
    Symmetric(before, base, Paths(DATABASE, SUFFIXES, {Live}));
    WithinTrans(base, before, begin, Paths(DATABASE, SUFFIXES, {Live}), Saves() + Records(), Backups());
  }

  lemma Symmetric(a: Files, b: Files, touched: iset<Path>)
    requires Within(a, b, touched)
    ensures Within(b, a, touched)
  {
    forall p | p !in touched
      ensures Same(b, p, a, p)
    {
      assert Same(a, p, b, p);
    }
  }

  lemma ReplaceableStays(before: Files, now: Files, exe: string)
    requires Within(before, now, Saves() + Records())
    ensures Replaceable(before, exe) <==> Replaceable(now, exe)
  {
    forall place, n, role | place == Install || place == Staging
      ensures Same(before, App(place, n, role), now, App(place, n, role))
    {
    }
    forall n
      ensures Dispensable(before, n) <==> Dispensable(now, n)
    {
      assert Same(before, App(Staging, n, Live), now, App(Staging, n, Live));
      assert Same(before, App(Install, n, Live), now, App(Install, n, Live));
    }
    assert Same(before, App(Staging, "static", Live), now, App(Staging, "static", Live));
    assert Same(before, App(Install, "static", UpdateNew), now, App(Install, "static", UpdateNew));
  }

  /** The outcome that an update has when no call fails and the package is accepted. */
  ghost predicate EndsWell(before: Files, now: Files, exe: string, outcome: Option<Status>, attempt: Attempt,
                           stops: bool, second: Attempt)
  {
    var healthy, back := Attempt(true, true), RollsBack(attempt, stops, second);
    && (Complete(before, exe) && attempt == healthy ==> outcome == Some(Success))
    && (NoScratch(before) && back ==> outcome == Some(RolledBack))
    && (Complete(before, exe) && attempt != healthy && !back ==> outcome.None? && Uncompleted(now, exe))
  }

  lemma OpenIsReach(exe: string)
    ensures Open(exe) + Records() <= Reach(exe)
  {
  }

  lemma StillRestorable(begin: Files, now: Files, exe: string)
    requires Within(begin, now, Paths(DATABASE, SUFFIXES, {Live}) + Managed(exe))
    ensures Restorable(begin, exe) ==> Restorable(now, exe)
  {
    WithinTrans(begin, now, now, Paths(DATABASE, SUFFIXES, {Live}) + Managed(exe), iset{},
      Records() + Paths(DATABASE, SUFFIXES, {Live}) + Managed(exe));
    JournalIsApart(begin, now, exe);
  }

  lemma Unmarked(before: Files, trace: seq<Files>, mark: nat, exe: string)
    requires 0 < mark <= |trace| && forall i | mark <= i < |trace| :: !RolledBackMarked(trace[i])
    ensures Grounded(before, trace, mark - 1, exe)
  {
  }

  // ---- What changes beside the program ----

  /** The reports, the lock and the live database. */
  ghost function Aside(): iset<Path> {
    Settling() - iset{JOURNAL}
  }

  lemma ProgramApart(from: Files, now: Files, n: string)
    requires Within(from, now, Settling())
    ensures Same(from, App(Application, n, Live), now, App(Application, n, Live))
    ensures Same(from, App(Install, n, UpdateNew), now, App(Install, n, UpdateNew))
    ensures Same(from, App(Staging, n, Live), now, App(Staging, n, Live))
  {
  }

  lemma CopyApart(from: Files, now: Files, s: string)
    requires Within(from, now, Settling())
    ensures Same(from, COPY.At(s, Live), now, COPY.At(s, Live))
  {
  }

  lemma BackupsKept(before: Files, from: Files, now: Files, exe: string)
    requires Within(from, now, Settling())
    ensures ProgramSaved(before, from, exe) ==> ProgramSaved(before, now, exe)
    ensures DatabaseSaved(before, from) ==> DatabaseSaved(before, now)
    ensures Quiet(from, exe) ==> Quiet(now, exe)
  {
    hide Within, Settling;
    forall n
      ensures Same(from, App(Application, n, Live), now, App(Application, n, Live))
      ensures Contained(from, n, App(Application, n, Live)) <==> Contained(now, n, App(Application, n, Live))
    {
      ProgramApart(from, now, n);
    }
    forall s | s in SUFFIXES
      ensures Same(from, COPY.At(s, Live), now, COPY.At(s, Live))
    {
      CopyApart(from, now, s);
    }
  }

  lemma SoundFinalize(before: Files, from: Files, now: Files, exe: string)
    requires Sound(before, from, exe) && FinalizedFrom(from, now)
    ensures Sound(before, now, exe)
    ensures RolledBackMarked(now) ==> Follows(from, now)
  {
    hide OldProgram, NewProgram, ProgramSaved, DatabaseSaved, Calm, Quiet;
    WithinTrans(from, now, now, Records(), iset{}, Records() + iset{LOCK} + Paths(DATABASE, SUFFIXES, RESTORE_ROLES));
    ProgramKept(before, from, now, exe);
    WithinTrans(from, now, now, Records(), iset{}, Settling());
    BackupsKept(before, from, now, exe);
  }

  lemma SoundAside(before: Files, from: Files, now: Files, exe: string)
    requires Sound(before, from, exe) && Within(from, now, Aside())
    ensures Sound(before, now, exe) && Same(from, JOURNAL, now, JOURNAL)
    ensures RolledBackMarked(now) ==> Follows(from, now)
  {
    hide OldProgram, NewProgram, ProgramSaved, DatabaseSaved, Calm, Quiet;
    WithinTrans(from, now, now, Aside(), iset{}, Records() + iset{LOCK} + Paths(DATABASE, SUFFIXES, RESTORE_ROLES));
    ProgramKept(before, from, now, exe);
    WithinTrans(from, now, now, Aside(), iset{}, Settling());
    BackupsKept(before, from, now, exe);
    assert Same(from, JOURNAL, now, JOURNAL);
  }

  lemma AllSoundAside(before: Files, from: Files, trace: seq<Files>, mark: nat, now: Files, exe: string)
    requires 0 < mark <= |trace| && trace[mark - 1] == from
    requires Sound(before, from, exe) && AllWithin(mark, from, trace, Aside()) && Within(from, now, Aside())
    ensures AllSound(before, trace, mark, exe) && Sound(before, now, exe) && Same(from, JOURNAL, now, JOURNAL)
    ensures Grounded(before, trace, mark - 1, exe)
  {
    hide Sound, Aside, Follows, RolledBackMarked;
    forall i | mark <= i < |trace|
      ensures Sound(before, trace[i], exe) && (RolledBackMarked(trace[i]) ==> Follows(from, trace[i]))
    {
      SoundAside(before, from, trace[i], exe);
    }
    SoundAside(before, from, now, exe);
    NoMarker(before, trace, mark - 1, exe);
  }

  lemma OwnerStays(from: Files, now: Files, exe: string)
    requires Within(from, now, Reach(exe))
    ensures Same(from, LOCK, now, LOCK)
  {
  }

  // ---- The executor's process ----

  /** The journal is open and nobody's lock carries the token any more. */
  ghost predicate Abandoned(now: Files, exe: string) {
    Uncompleted(now, exe) && LOCK !in now
  }

  /** The executor ends: it reports a failure and releases the lock it holds. */
  method Leave(disk: Disk, failed: bool, held: bool)
    requires disk.Valid()
    modifies disk
    ensures disk.Valid() && old(disk.trace) <= disk.trace && disk.Counted(old(disk.faults), old(disk.slips))
    ensures disk.Since(|old(disk.trace)|, old(disk.files), Aside())
    ensures held ==> old(disk.faults) < disk.faults || !Owned(disk.files)
    ensures held && Owned(old(disk.files)) ==> old(disk.faults) < disk.faults || LOCK !in disk.files
    ensures !held ==> Same(old(disk.files), LOCK, disk.files, LOCK)
    ensures !failed && HasResult(old(disk.files), Success) ==> HasResult(disk.files, Success)
    ensures !failed && HasResult(old(disk.files), RolledBack) ==> HasResult(disk.files, RolledBack)
    ensures failed ==> old(disk.faults) < disk.faults || HasResult(disk.files, Failed)
  {
    hide Database.Paths;
    ghost var before, mark, all := disk.files, |disk.trace|, Aside();
    WithinTrans(before, before, before, iset{}, iset{}, all);
    if failed {
      var _ := WriteInstallResult(disk, Failed);
      WithinTrans(before, before, disk.files, iset{}, Records() - iset{JOURNAL}, all);
      assert Same(before, LOCK, disk.files, LOCK);
    }
    ghost var files, trace := disk.files, disk.trace;
    if held {
      ReleaseUpdateLock(disk);
    }
    WithinTrans(files, files, disk.files, iset{}, iset{LOCK}, iset{LOCK});
    Chain(mark, before, trace, all, files, disk.trace, disk.files, iset{LOCK});
    assert Same(files, RESULT, disk.files, RESULT);
  }

  /** The executor: takes the lock over, waits for the old program to end (`ready`), updates, reports and releases the
      lock, whether the journal is still open or not. */
  method Execute(disk: Disk, exe: string, ready: bool, valid: bool, attempt: Attempt, stops: bool, second: Attempt)
    returns (outcome: Option<Status>, ghost clean: bool, ghost resumed: Option<Files>, ghost base: Files)
    requires disk.Valid() && JOURNAL !in disk.files
    modifies disk
    ensures disk.Valid() && old(disk.trace) <= disk.trace
    ensures clean ==> AllSound(base, disk.trace, |old(disk.trace)|, exe) && Sound(base, disk.files, exe)
    ensures clean ==> Grounded(base, disk.trace, |old(disk.trace)| - 1, exe)
    ensures clean && resumed.Some? ==> ResumedAt(base, resumed.value, exe)
    ensures clean && outcome == Some(Success) ==> NewProgram(old(disk.files), disk.files, exe)
    ensures clean && outcome == Some(RolledBack) ==> OldProgram(old(disk.files), disk.files, exe)
    ensures Safe(old(disk.files), exe, outcome) || disk.slips == old(disk.slips) ==> clean
    ensures Fresh(old(disk.files)) || disk.slips == old(disk.slips) ==> base == old(disk.files)
    ensures Within(old(disk.files), base, Paths(DATABASE, SUFFIXES, {Live}))
    ensures outcome == Some(RolledBack) ==> resumed.Some?
    ensures disk.Counted(old(disk.faults), old(disk.slips))
    ensures outcome.Some? ==> Owned(old(disk.files)) && ready
    ensures disk.faults == old(disk.faults) ==>
      !Owned(disk.files) && HasResult(disk.files, if outcome.Some? then outcome.value else Failed)
    ensures (disk.faults == old(disk.faults) && Owned(old(disk.files)) && ready && valid
      && Savable(old(disk.files), exe)) ==>
      && (Complete(old(disk.files), exe) && attempt == Attempt(true, true) ==> outcome == Some(Success))
      && (attempt != Attempt(true, true) ==>
        && (NoScratch(old(disk.files)) && (!attempt.starts || stops) && second == Attempt(true, true) ==>
          outcome == Some(RolledBack))
        && (Complete(old(disk.files), exe) && ((attempt.starts && !stops) || second != Attempt(true, true)) ==>
          outcome.None? && Uncompleted(disk.files, exe)))
      && (Uncompleted(disk.files, exe) ==> Abandoned(disk.files, exe))
  {
    hide Sound, AllSound, Complete, Savable, Grounded, Within, AllWithin, RolledBackMarked, SameDatabase, ResumedAt,
         HasResult, Reach, Aside, NoScratch, OldProgram, NewProgram, Safe, Fresh, Leaves, RecoveryLeaves, Settling;
    ghost var before, mark := disk.files, |disk.trace|;
    outcome, clean, resumed, base := None, true, None, before;
    SoundAtFirst(before, exe);
    var taken := TakeOverUpdateLock(disk);
    LockIsAside(disk.trace, mark, before, disk.files);
    if taken && ready {
      ghost var trace := disk.trace;
      ghost var started;
      outcome, clean, resumed, started, base := Apply(disk, exe, valid, attempt, stops, second);
      OwnerStays(before, disk.files, exe);
      if clean {
        BaseAtFirst(before, base, trace, mark, exe);
        SoundChain(base, trace, disk.trace, mark, exe);
        GroundedChain(base, trace, disk.trace, mark - 1, exe);
      }
    } else {
      BaseOfNothing(before);
      BaseAtFirst(before, base, disk.trace, mark, exe);
      AllSoundAside(before, before, disk.trace, mark, disk.files, exe);
    }
    ghost var applied, trace' := disk.files, disk.trace;
    assert outcome.Some? ==> outcome.value == Success || outcome.value == RolledBack;
    Leave(disk, outcome.None?, taken);
    AsideKeepsJournal(applied, disk.files);
    AsideKeepsProgram(before, applied, disk.files, exe);
    if clean {
      AllSoundAside(base, applied, disk.trace, |trace'|, disk.files, exe);
      SoundChain(base, trace', disk.trace, mark, exe);
      GroundedChain(base, trace', disk.trace, mark - 1, exe);
    }
  }

  /** Taking the lock over changes nothing that an update is judged by, whichever database it backs up. */
  lemma BaseAtFirst(before: Files, base: Files, trace: seq<Files>, mark: nat, exe: string)
    requires 0 < mark <= |trace| && trace[mark - 1] == before && JOURNAL !in before
    requires AllWithin(mark, before, trace, Aside()) && Within(before, base, Paths(DATABASE, SUFFIXES, {Live}))
    ensures AllSound(base, trace, mark, exe) && Grounded(base, trace, mark - 1, exe)
  {
    hide Within, OldProgram, NewProgram;
    SameProgram(before, base, exe);
    SoundAtFirst(before, exe);
    BaseOfNothing(before);
    AllSoundAside(before, before, trace, mark, before, exe);
    forall i | mark <= i < |trace|
      ensures Sound(base, trace[i], exe) && !RolledBackMarked(trace[i])
    {
      AsideKeepsJournal(before, trace[i]);
      assert Sound(before, trace[i], exe);
    }
  }

  lemma BaseOfNothing(before: Files)
    ensures Within(before, before, Paths(DATABASE, SUFFIXES, {Live})) && Within(before, before, Aside())
  {
  }

  lemma SoundAtFirst(before: Files, exe: string)
    requires JOURNAL !in before
    ensures Sound(before, before, exe)
  {
  }

  lemma AsideKeepsJournal(from: Files, now: Files)
    requires Within(from, now, Aside())
    ensures Same(from, JOURNAL, now, JOURNAL)
  {
  }

  lemma LockIsAside(trace: seq<Files>, mark: nat, from: Files, now: Files)
    requires AllWithin(mark, from, trace, iset{LOCK}) && Within(from, now, iset{LOCK})
    ensures AllWithin(mark, from, trace, Aside()) && Within(from, now, Aside())
  {
    assert LOCK in Aside();
  }

  // ---- Restarts ----

  const UPDATER := App(Install, "ctyun-keeper-updater.exe", Live)

  /** How the gate ends: the program may run, a recovery has been started, or an error has been reported. */
  datatype Gate = Passed | HandedOver | Refused

  predicate LockActive(files: Files, alive: bool) {
    alive && LOCK in files && files[LOCK].Lock?
  }

  /** The gate at every start of the program: finalizes a completed journal, hands an uncompleted one to a recovery
      unless an executor still holds the update lock. `alive` tells whether the recorded process lives, `launches`
      whether a recovery whose program is there can be started. */
  method StartPendingWindowsRecovery(disk: Disk, alive: bool, launches: bool) returns (gate: Gate)
    requires disk.Valid()
    modifies disk
    ensures disk.Valid() && old(disk.trace) <= disk.trace
    ensures forall i | |old(disk.trace)| <= i < |disk.trace| :: FinalizedFrom(old(disk.files), disk.trace[i])
    ensures FinalizedFrom(old(disk.files), disk.files)
    ensures !Completed(old(disk.files)) ==> disk.files == old(disk.files) && disk.trace == old(disk.trace)
    ensures gate.HandedOver? ==> launches && UPDATER in disk.files && !Completed(disk.files)
    ensures gate.HandedOver? ==> old(disk.faults) < disk.faults || !LockActive(old(disk.files), alive)
    ensures JOURNAL in old(disk.files) && !Completed(old(disk.files)) && !LockActive(old(disk.files), alive) ==>
      !gate.Passed?
    ensures Completed(old(disk.files)) && JOURNAL in disk.files ==> !gate.HandedOver?
    ensures JOURNAL !in old(disk.files) ==> old(disk.faults) < disk.faults || gate.Passed?
    ensures disk.Counted(old(disk.faults), old(disk.slips))
    ensures JOURNAL in old(disk.files) && old(disk.files)[JOURNAL].Journal? && !LockActive(old(disk.files), alive) ==>
      || old(disk.faults) < disk.faults
      || (if Completed(old(disk.files)) then JOURNAL !in disk.files && gate.Passed?
        else gate.HandedOver? == (launches && UPDATER in old(disk.files)))
  {
    hide Database.Paths;
    gate := Passed;
    var stat := disk.Stat(JOURNAL);
    if stat.Absent? {
      return;
    }
    var lock := disk.Read(LOCK);
    if alive && lock.Some? && lock.value.Lock? {
      return;
    }
    var finalized := FinalizeCompletedWindowsTransaction(disk);
    if !finalized {
      gate := Refused;
      return;
    }
    stat := disk.Stat(JOURNAL);
    if stat.Absent? {
      return;
    }
    gate := if launches && UPDATER in disk.files then HandedOver else Refused;
  }

  /** A recovery with the lock: restores, starts and commits if the program stops (`ready`), and drops the lock record
      in every case. */
  method RecoverLocked(disk: Disk, exe: string, ready: bool, attempt: Attempt, ghost before: Files)
    returns (committed: bool, ghost clean: bool, ghost resumed: Option<Files>)
    requires disk.Valid() && Owned(disk.files)
    modifies disk
    ensures disk.Valid() && old(disk.trace) <= disk.trace
    ensures Uncompleted(old(disk.files), exe) && Sound(before, old(disk.files), exe) && clean ==>
      && AllSound(before, disk.trace, |old(disk.trace)|, exe) && Sound(before, disk.files, exe)
      && Grounded(before, disk.trace, |old(disk.trace)| - 1, exe)
      && (resumed.Some? ==> ResumedAt(before, resumed.value, exe))
      && (committed ==> OldProgram(before, disk.files, exe))
      && (!committed ==> Uncompleted(disk.files, exe))
    ensures committed ==> resumed.Some?
    ensures disk.Counted(old(disk.faults), old(disk.slips)) && (!clean ==> old(disk.slips) < disk.slips)
    ensures Unspoiled(before, old(disk.files), exe) ==> clean
    ensures resumed.Some? ==> RecoveredFrom(old(disk.files), resumed.value, exe)
    ensures (ready && attempt == Attempt(true, true) && Uncompleted(old(disk.files), exe)
      && Sound(before, old(disk.files), exe) && Restorable(old(disk.files), exe)) ==>
      old(disk.faults) < disk.faults || committed
    ensures committed ==>
      old(disk.faults) < disk.faults || (JOURNAL !in disk.files && HasResult(disk.files, RolledBack))
    ensures old(disk.faults) < disk.faults || LOCK !in disk.files
  {
    hide Sound, AllSound, Grounded, Within, AllWithin, RolledBackMarked, SameDatabase, ResumedAt, HasResult, Reach,
         Aside, OldProgram, NewProgram, Restorable, TidyName, Open, Records, Unspoiled, RecoveredFrom;
    ghost var from, mark := disk.files, |disk.trace|;
    committed, clean, resumed := false, true, None;
    if ready {
      committed, clean, resumed := RestoreAndCommit(disk, exe, attempt, before);
      ReachedByRestore(from, disk.files, exe);
    } else if Sound(before, from, exe) {
      Untouched(before, disk.trace, mark, exe);
    }
    ghost var done, trace := disk.files, disk.trace;
    Leave(disk, false, true);
    AsideKeepsJournal(done, disk.files);
    if Uncompleted(from, exe) && Sound(before, from, exe) && clean {
      AllSoundAside(before, done, disk.trace, |trace|, disk.files, exe);
      SoundChain(before, trace, disk.trace, mark, exe);
      GroundedChain(before, trace, disk.trace, mark - 1, exe);
      if committed {
        AsideKeepsProgram(before, done, disk.files, exe);
      }
    }
  }

  lemma ReachedByRestore(from: Files, now: Files, exe: string)
    requires Within(from, now, Open(exe) + Records())
    ensures Same(from, LOCK, now, LOCK)
  {
  }

  lemma AsideKeepsProgram(before: Files, from: Files, now: Files, exe: string)
    requires Within(from, now, Aside())
    ensures OldProgram(before, from, exe) ==> OldProgram(before, now, exe)
    ensures NewProgram(before, from, exe) ==> NewProgram(before, now, exe)
  {
    WithinTrans(from, now, now, Aside(), iset{}, Records() + iset{LOCK} + Paths(DATABASE, SUFFIXES, RESTORE_ROLES));
    ProgramKept(before, from, now, exe);
  }

  lemma Untouched(before: Files, trace: seq<Files>, mark: nat, exe: string)
    requires 0 < mark == |trace|
    ensures AllSound(before, trace, mark, exe) && Grounded(before, trace, mark - 1, exe)
  {
  }

  /** The journal, if there is one, is about this program. */
  predicate JournalOf(files: Files, exe: string) {
    JOURNAL in files && files[JOURNAL].Journal? ==> files[JOURNAL].exe == exe
  }

  /** A recovery does not look at the completion marker: it relies on the gate for that. `valid` is false when the
      request is refused, `ready` when the program does not stop. It takes exactly the journals whose lock record
      carries the token, and drops that record when it ends, committed or not. */
  method RecoverPending(disk: Disk, valid: bool, ready: bool, attempt: Attempt, ghost before: Files, ghost exe: string)
    returns (committed: bool, ghost clean: bool, ghost resumed: Option<Files>)
    requires disk.Valid()
    modifies disk
    ensures disk.Valid() && old(disk.trace) <= disk.trace
    ensures JOURNAL !in old(disk.files) || !Owned(old(disk.files)) ==>
      !committed && disk.files == old(disk.files) && disk.trace == old(disk.trace)
    ensures Uncompleted(old(disk.files), exe) && Sound(before, old(disk.files), exe) && clean ==>
      && AllSound(before, disk.trace, |old(disk.trace)|, exe) && Sound(before, disk.files, exe)
      && Grounded(before, disk.trace, |old(disk.trace)| - 1, exe)
      && (resumed.Some? ==> ResumedAt(before, resumed.value, exe))
      && (committed ==> OldProgram(before, disk.files, exe))
    ensures committed ==> resumed.Some?
    ensures disk.Counted(old(disk.faults), old(disk.slips)) && (!clean ==> old(disk.slips) < disk.slips)
    ensures (JOURNAL !in old(disk.files)
      || (Unspoiled(before, old(disk.files), exe) && JournalOf(old(disk.files), exe))) ==>
      clean
    ensures resumed.Some? && JournalOf(old(disk.files), exe) ==> RecoveredFrom(old(disk.files), resumed.value, exe)
    ensures (valid && ready && attempt == Attempt(true, true) && Uncompleted(old(disk.files), exe)
      && Sound(before, old(disk.files), exe) && Restorable(old(disk.files), exe)) ==>
      old(disk.faults) < disk.faults || (committed <==> Owned(old(disk.files)))
    ensures Uncompleted(old(disk.files), exe) && committed ==>
      old(disk.faults) < disk.faults || (JOURNAL !in disk.files && HasResult(disk.files, RolledBack))
    ensures (valid && Owned(old(disk.files)) && Uncompleted(old(disk.files), exe)
      && Sound(before, old(disk.files), exe)) ==>
      old(disk.faults) < disk.faults || committed || Abandoned(disk.files, exe)
  {
    hide Sound, AllSound, Grounded, Within, AllWithin, RolledBackMarked, SameDatabase, ResumedAt, HasResult, Reach,
         Aside, OldProgram, Restorable, TidyName, Open, Records, Owned, Unspoiled, RecoveredFrom;
    ghost var from, mark := disk.files, |disk.trace|;
    committed, clean, resumed := false, true, None;
    var read := disk.Read(JOURNAL);
    Untouched(before, disk.trace, mark, exe);
    if read.Some? && read.value.Journal? && valid {
      var taken := TakeOverUpdateLock(disk);
      ghost var trace := disk.trace;
      LockIsAside(trace, mark, from, disk.files);
      if Sound(before, from, exe) {
        AllSoundAside(before, from, trace, mark, disk.files, exe);
      }
      if taken {
        committed, clean, resumed := RecoverLocked(disk, read.value.exe, ready, attempt, before);
        if Uncompleted(from, exe) && Sound(before, from, exe) && clean {
          SoundChain(before, trace, disk.trace, mark, exe);
          GroundedChain(before, trace, disk.trace, mark - 1, exe);
        }
      }
    }
  }

  /** No recovery can start from here: there is no journal, or a completed one. */
  ghost predicate Settled(now: Files) {
    JOURNAL !in now || Completed(now)
  }

  lemma SettledFinalize(from: Files, now: Files)
    requires Settled(from) && FinalizedFrom(from, now)
    ensures Settled(now) && Within(from, now, Settling())
  {
    WithinTrans(from, now, now, Records(), iset{}, Settling());
  }

  lemma SettledRun(from: Files, gated: Files, now: Files)
    requires Settled(from) && FinalizedFrom(from, gated) && Within(gated, now, Paths(DATABASE, SUFFIXES, {Live}))
    ensures Settled(now) && Within(from, now, Settling())
  {
    SettledFinalize(from, gated);
    assert Same(gated, JOURNAL, now, JOURNAL);
    WithinTrans(from, gated, now, Settling(), Paths(DATABASE, SUFFIXES, {Live}), Settling());
  }

  /** What a start may leave from a state `from`: sound if that was sound, and settled with the program untouched if
      that was settled. */
  ghost predicate BootedFrom(before: Files, from: Files, now: Files, exe: string, clean: bool) {
    && (Sound(before, from, exe) && clean ==> Sound(before, now, exe))
    && (Settled(from) ==> Settled(now) && Within(from, now, Settling()))
  }

  /** The same, and no new rolled-back marker. */
  ghost predicate RunsOn(before: Files, from: Files, now: Files, exe: string) {
    BootedFrom(before, from, now, exe, true)
      && (Sound(before, from, exe) && RolledBackMarked(now) ==> Follows(from, now))
  }

  lemma GatedRunsOn(before: Files, from: Files, now: Files, exe: string)
    requires FinalizedFrom(from, now)
    ensures RunsOn(before, from, now, exe)
  {
    if Sound(before, from, exe) {
      SoundFinalize(before, from, now, exe);
    }
    if Settled(from) {
      SettledFinalize(from, now);
    }
  }

  lemma RunRunsOn(before: Files, from: Files, gated: Files, now: Files, exe: string)
    requires FinalizedFrom(from, gated) && Within(gated, now, Paths(DATABASE, SUFFIXES, {Live}))
    ensures RunsOn(before, from, now, exe)
  {
    hide Sound;
    if Sound(before, from, exe) {
      SoundFinalize(before, from, gated, exe);
      WithinTrans(gated, now, now, Paths(DATABASE, SUFFIXES, {Live}), iset{}, Aside());
      SoundAside(before, gated, now, exe);
      if RolledBackMarked(now) {
        WithinTrans(from, gated, now, Settling(), Settling(), Settling());
      }
    }
    if Settled(from) {
      SettledRun(from, gated, now);
    }
  }

  method RunProgram(disk: Disk, ghost before: Files, ghost from: Files, ghost exe: string)
    requires disk.Valid() && FinalizedFrom(from, disk.files)
    modifies disk
    ensures disk.Valid() && old(disk.trace) <= disk.trace
    ensures forall i | |old(disk.trace)| <= i < |disk.trace| :: RunsOn(before, from, disk.trace[i], exe)
    ensures disk.Counted(old(disk.faults), old(disk.slips))
  {
    ghost var gated := disk.files;
    UseDatabase(disk, DATABASE, SUFFIXES);
    forall now | Within(gated, now, Paths(DATABASE, SUFFIXES, {Live}))
      ensures RunsOn(before, from, now, exe)
    {
      RunRunsOn(before, from, gated, now, exe);
    }
  }

  /** What a start of the machine meets: whether the program runs already and looks at the journal again, whether the
      process in the lock record lives, whether the recovery can be launched, its request is accepted and the program
      stops for it, and what becomes of the restored program. */
  datatype Boot = Boot(running: bool, alive: bool, launches: bool, valid: bool, ready: bool, attempt: Attempt)

  /** There is a program to start. */
  predicate Startable(files: Files, exe: string) {
    App(Install, exe, Live) in files
  }

  /** One start of the machine: the gate, then the recovery it starts or the program itself; `ran` tells whether the
      program came to do its work. Nothing at all happens without a program file, nor with an abandoned journal. */
  method Start(disk: Disk, exe: string, boot: Boot, ghost before: Files) returns (ran: bool, ghost clean: bool)
    requires disk.Valid()
    modifies disk
    ensures disk.Valid() && old(disk.trace) <= disk.trace
    ensures forall i | |old(disk.trace)| <= i < |disk.trace| ::
      BootedFrom(before, old(disk.files), disk.trace[i], exe, clean)
    ensures Sound(before, old(disk.files), exe) && clean ==> Grounded(before, disk.trace, |old(disk.trace)| - 1, exe)
    ensures !boot.running && (!Startable(old(disk.files), exe) || Abandoned(old(disk.files), exe)) ==>
      !ran && disk.files == old(disk.files) && disk.trace == old(disk.trace)
    ensures JOURNAL !in old(disk.files) && (boot.running || Startable(old(disk.files), exe)) ==>
      old(disk.faults) < disk.faults || ran
    ensures Unspoiled(before, old(disk.files), exe) && JournalOf(old(disk.files), exe) ==> clean
    ensures Sound(before, old(disk.files), exe) && Calm(before, exe) ==> clean
    ensures ran && !boot.running && Uncompleted(old(disk.files), exe) ==> LockActive(old(disk.files), boot.alive)
    ensures disk.Counted(old(disk.faults), old(disk.slips)) && (!clean ==> old(disk.slips) < disk.slips)
  {
    hide Sound, AllSound, BootedFrom, Grounded, FinalizedFrom, Follows, RolledBackMarked, Settled, Unspoiled,
         RecoveredFrom;
    ran, clean := false, true;
    ghost var from, mark := disk.files, |disk.trace|;
    Untouched(before, disk.trace, mark, exe);
    if !boot.running && !Startable(disk.files, exe) {
      return;
    }
    var gate := StartPendingWindowsRecovery(disk, boot.alive, boot.launches);
    ghost var gated, trace := disk.files, disk.trace;
    forall now | FinalizedFrom(from, now)
      ensures RunsOn(before, from, now, exe)
    {
      GatedRunsOn(before, from, now, exe);
    }
    if gate.HandedOver? {
      ghost var resumed;
      var committed;
      GateKeepsUnspoiled(before, from, gated, exe);
      committed, clean, resumed := RecoverPending(disk, boot.valid, boot.ready, boot.attempt, before, exe);
      RecoveryBooted(before, from, gated, trace, disk.trace, mark, exe, clean);
    } else {
      ran := gate.Passed? || boot.running;
      if ran {
        RunProgram(disk, before, from, exe);
      }
      AllRunOn(before, trace, disk.trace, mark, from, exe);
    }
  }

  lemma GateKeepsUnspoiled(before: Files, from: Files, gated: Files, exe: string)
    requires FinalizedFrom(from, gated) && !Completed(gated) && (!Completed(from) ==> gated == from)
    ensures Unspoiled(before, from, exe) && JournalOf(from, exe) ==>
      Unspoiled(before, gated, exe) && JournalOf(gated, exe)
    ensures Sound(before, from, exe) && Calm(before, exe) ==>
      JOURNAL !in gated || (Unspoiled(before, gated, exe) && JournalOf(gated, exe))
  {
    hide Calm, OldProgram, NewProgram, ProgramSaved, DatabaseSaved, Quiet;
    forall n
      ensures TidyName(from, n) <==> TidyName(gated, n)
    {
      assert Same(from, App(Application, n, Live), gated, App(Application, n, Live));
      assert Same(from, App(Install, n, UpdateNew), gated, App(Install, n, UpdateNew));
    }
  }

  lemma AllRunOn(before: Files, trace: seq<Files>, trace': seq<Files>, mark: nat, from: Files, exe: string)
    requires 0 < mark <= |trace| && trace <= trace' && trace[mark - 1] == from
    requires forall i | mark <= i < |trace| :: RunsOn(before, from, trace[i], exe)
    requires forall i | |trace| <= i < |trace'| :: RunsOn(before, from, trace'[i], exe)
    ensures forall i | mark <= i < |trace'| :: BootedFrom(before, from, trace'[i], exe, true)
    ensures Sound(before, from, exe) ==> Grounded(before, trace', mark - 1, exe)
  {
    hide BootedFrom, Sound, Follows, RolledBackMarked;
    forall i | mark <= i < |trace'|
      ensures RunsOn(before, from, trace'[i], exe)
    {
      if i < |trace| {
        assert trace'[i] == trace[i];
      }
    }
    if Sound(before, from, exe) {
      NoMarker(before, trace', mark - 1, exe);
    }
  }

  lemma Weaken(before: Files, from: Files, now: Files, exe: string, clean: bool)
    requires BootedFrom(before, from, now, exe, true)
    ensures BootedFrom(before, from, now, exe, clean)
  {
  }

  /** A recovery after the gate: it starts from an open journal or does nothing. */
  lemma RecoveryBooted(before: Files, from: Files, gated: Files, trace: seq<Files>, trace': seq<Files>, mark: nat,
                       exe: string, clean: bool)
    requires 0 < mark <= |trace| && trace <= trace' && trace[mark - 1] == from && trace[|trace| - 1] == gated
    requires forall i | mark <= i < |trace| :: RunsOn(before, from, trace[i], exe)
    requires FinalizedFrom(from, gated) && !Completed(gated) && (JOURNAL !in gated ==> trace' == trace)
    requires Uncompleted(gated, exe) && Sound(before, gated, exe) && clean ==>
      AllSound(before, trace', |trace|, exe) && Grounded(before, trace', |trace| - 1, exe)
    ensures forall i | mark <= i < |trace'| :: BootedFrom(before, from, trace'[i], exe, clean)
    ensures Sound(before, from, exe) && clean ==> Grounded(before, trace', mark - 1, exe)
  {
    AllRunOn(before, trace, trace, mark, from, exe);
    GatedRunsOn(before, from, gated, exe);
    assert Sound(before, from, exe) && JOURNAL in gated ==> Uncompleted(gated, exe);
    if Sound(before, from, exe) && clean && JOURNAL in gated {
      GroundedChain(before, trace, trace', mark - 1, exe);
    }
    forall i | mark <= i < |trace'|
      ensures BootedFrom(before, from, trace'[i], exe, clean)
    {
      if i < |trace| {
        assert trace'[i] == trace[i];
        Weaken(before, from, trace[i], exe, clean);
      }
    }
  }

  lemma BootedNowhere(before: Files, from: Files, exe: string, clean: bool)
    ensures BootedFrom(before, from, from, exe, clean)
  {
  }

  /** One start, cut short at any moment. */
  method InterruptedStart(disk: Disk, exe: string, boot: Boot, ghost before: Files)
    returns (ran: bool, ghost clean: bool)
    requires disk.Valid()
    modifies disk
    ensures disk.Valid() && old(disk.trace) <= disk.trace && BootedFrom(before, old(disk.files), disk.files, exe, clean)
    ensures Sound(before, old(disk.files), exe) && clean ==> Grounded(before, disk.trace, |old(disk.trace)| - 1, exe)
    ensures !boot.running && (!Startable(old(disk.files), exe) || Abandoned(old(disk.files), exe)) ==>
      !ran && disk.files == old(disk.files)
    ensures Unspoiled(before, old(disk.files), exe) && JournalOf(old(disk.files), exe) ==> clean
    ensures Sound(before, old(disk.files), exe) && Calm(before, exe) ==> clean
    ensures disk.Counted(old(disk.faults), old(disk.slips)) && (!clean ==> old(disk.slips) < disk.slips)
  {
    hide Sound, BootedFrom, Grounded, Unspoiled;
    ghost var from := disk.files;
    var mark := |disk.trace|;
    ran, clean := Start(disk, exe, boot, before);
    BootedNowhere(before, from, exe, clean);
    ghost var trace := disk.trace;
    disk.PowerLoss(mark);
    ghost var i :| mark - 1 <= i < |trace| && disk.files == trace[i];
    if Sound(before, from, exe) && clean {
      GroundedLoss(before, trace, mark - 1, i, exe);
    }
  }

  /** A replacement of the program file, cut short at any moment: nothing is left to start exactly when that was between
      its two renames, with the old file under its `.update-old` name. A replacement that nothing disturbs passes
      through such a moment (`passes`). */
  method InterruptedReplacement(disk: Disk, exe: string) returns (ok: bool, ghost passes: bool)
    requires disk.Valid() && Startable(disk.files, exe)
    modifies disk
    ensures disk.Valid() && (!Startable(disk.files, exe) <==> SetAside(old(disk.files), disk.files, exe))
    ensures ok && disk.faults == old(disk.faults) ==> passes
    ensures passes ==> exists i :: |old(disk.trace)| <= i < |disk.trace| && !Startable(disk.trace[i], exe)
  {
    ghost var before := disk.files;
    var mark := |disk.trace|;
    ok := AtomicReplaceFile(disk, App(Staging, exe, Live), exe);
    ghost var trace := disk.trace;
    passes := PassesAside(mark, before, trace, exe);
    disk.PowerLoss(mark);
    if passes {
      ghost var i :| mark <= i < |trace| && SetAside(before, trace[i], exe);
      assert disk.trace[i] == trace[i] && !Startable(disk.trace[i], exe);
    }
  }

  /** From a journal that was abandoned, or without a program file, no number of starts gets anywhere: the program never
      runs and nothing changes. */
  method Stranded(disk: Disk, exe: string, boots: seq<Boot>) returns (ran: bool)
    requires disk.Valid() && (Abandoned(disk.files, exe) || !Startable(disk.files, exe))
    requires forall b | b in boots :: !b.running
    modifies disk
    ensures !ran && disk.files == old(disk.files)
  {
    hide Abandoned, Startable, BootedFrom, Grounded, Sound;
    ran := false;
    for k := 0 to |boots|
      invariant disk.Valid() && !ran && disk.files == old(disk.files)
    {
      var now, _ := InterruptedStart(disk, exe, boots[k], disk.files);
      ran := ran || now;
    }
  }

  /** From every settled state on the program files never change again. */
  ghost predicate FinalOnceSettled(survived: seq<Files>) {
    forall i, j | 0 <= i <= j < |survived| && Settled(survived[i]) ::
      Settled(survived[j]) && Within(survived[i], survived[j], Settling())
  }

  lemma FinalStep(before: Files, survived: seq<Files>, now: Files, exe: string, clean: bool)
    requires |survived| > 0 && FinalOnceSettled(survived)
      && BootedFrom(before, survived[|survived| - 1], now, exe, clean)
    ensures FinalOnceSettled(survived + [now])
  {
    var from := survived[|survived| - 1];
    forall i | 0 <= i < |survived| && Settled(survived[i])
      ensures Settled(now) && Within(survived[i], now, Settling())
    {
      WithinTrans(survived[i], from, now, Settling(), Settling(), Settling());
    }
    if Settled(now) {
      WithinTrans(now, now, now, iset{}, iset{}, Settling());
    }
  }

  /** An update, cut short at any moment. */
  method InterruptedExecute(disk: Disk, exe: string, ready: bool, valid: bool, attempt: Attempt, stops: bool,
                            second: Attempt)
    returns (ghost clean: bool, ghost base: Files)
    requires disk.Valid() && JOURNAL !in disk.files
    modifies disk
    ensures disk.Valid() && old(disk.trace) <= disk.trace && (clean ==> Sound(base, disk.files, exe))
    ensures clean ==> Grounded(base, disk.trace, |old(disk.trace)| - 1, exe)
    ensures Steady(old(disk.files), exe) ==> clean
    ensures Fresh(old(disk.files)) || disk.slips == old(disk.slips) ==> base == old(disk.files)
    ensures Within(old(disk.files), base, Paths(DATABASE, SUFFIXES, {Live}))
    ensures disk.Counted(old(disk.faults), old(disk.slips)) && (!clean ==> old(disk.slips) < disk.slips)
  {
    hide Sound, Grounded, Savable, EndsWell, Abandoned, Owned, HasResult, ResumedAt, Fresh, Replaceable, Calm,
         OldProgram, NewProgram, Within;
    ghost var before := disk.files;
    var mark := |disk.trace|;
    var outcome;
    ghost var resumed;
    outcome, clean, resumed, base := Execute(disk, exe, ready, valid, attempt, stops, second);
    SoundOfBase(before, base, exe);
    ghost var trace := disk.trace;
    disk.PowerLoss(mark);
    ghost var i :| mark - 1 <= i < |trace| && disk.files == trace[i];
    if clean {
      GroundedLoss(base, trace, mark - 1, i, exe);
    }
  }

  lemma SoundOfBase(before: Files, base: Files, exe: string)
    requires JOURNAL !in before && Within(before, base, Paths(DATABASE, SUFFIXES, {Live}))
    ensures Sound(base, before, exe)
  {
    SameProgram(before, base, exe);
    SoundAtFirst(before, exe);
  }

  /** Neither a replacement nor a restore can be spoiled, now or in any recovery. */
  ghost predicate Steady(before: Files, exe: string) {
    Replaceable(before, exe) && Calm(before, exe)
  }

  /** The marker, if there is one, rests on a state with the old program and the old database. */
  ghost predicate Justified(before: Files, trace: seq<Files>, mark: nat, now: Files, exe: string) {
    RolledBackMarked(now) ==> Based(before, trace, mark, |trace|, now, exe)
  }

  lemma GroundedEnd(before: Files, trace: seq<Files>, mark: nat, exe: string)
    requires Grounded(before, trace, mark, exe) && !RolledBackMarked(trace[mark])
    ensures Justified(before, trace, mark, trace[|trace| - 1], exe)
  {
    hide Based;
  }

  lemma JustifiedLater(before: Files, trace: seq<Files>, trace': seq<Files>, mark: nat, now: Files, exe: string)
    requires Justified(before, trace, mark, now, exe) && trace <= trace'
    ensures Justified(before, trace', mark, now, exe)
  {
    if RolledBackMarked(now) {
      WithinItself(now);
      BasedLater(before, trace, mark, |trace|, now, now, exe, trace', mark, |trace'|);
    }
  }

  /** An update and any number of starts after it, each cut short at any moment: every state that survives a power loss
      is sound, every rolled-back marker in one rests on an earlier moment with the old program and the old database,
      and from the first settled one on the program files never change again. The first two hold whatever fails when the
      update was `Steady`, and in any case without a slip; the old database is that from before when there was no stale
      copy, and in any case without a slip. */
  method Lifetime(disk: Disk, exe: string, ready: bool, valid: bool, attempt: Attempt, stops: bool, second: Attempt,
                  boots: seq<Boot>)
    returns (ghost clean: bool, ghost base: Files, ghost survived: seq<Files>)
    requires disk.Valid() && JOURNAL !in disk.files
    modifies disk
    ensures |survived| == |boots| + 1
    ensures clean ==> forall i | 0 <= i < |survived| ::
      Sound(base, survived[i], exe) && Justified(base, disk.trace, |old(disk.trace)| - 1, survived[i], exe)
    ensures clean ==> forall i | 0 <= i < |survived| ::
      var now := survived[i];
      && (JOURNAL !in now ==> OldProgram(base, now, exe) || NewProgram(base, now, exe))
      && (JOURNAL in now ==>
        && now[JOURNAL].Journal? && now[JOURNAL].exe == exe && now[JOURNAL].completed != Some(Failed)
        && (now[JOURNAL].completed.None? ==>
          ProgramSaved(base, now, exe) && SameDatabase(base, DATABASE, now, COPY, SUFFIXES))
        && (now[JOURNAL].completed == Some(Success) ==> NewProgram(base, now, exe))
        && (now[JOURNAL].completed == Some(RolledBack) ==>
          && OldProgram(base, now, exe)
          && exists k | |old(disk.trace)| - 1 <= k < |disk.trace| ::
            && OldProgram(base, disk.trace[k], exe) && SameDatabase(base, DATABASE, disk.trace[k], DATABASE, SUFFIXES)
            && Within(disk.trace[k], now, Settling())))
    ensures Steady(old(disk.files), exe) || disk.slips == old(disk.slips) ==> clean
    ensures Fresh(old(disk.files)) || disk.slips == old(disk.slips) ==> base == old(disk.files)
    ensures Within(old(disk.files), base, Paths(DATABASE, SUFFIXES, {Live}))
    ensures FinalOnceSettled(survived)
  {
    hide Sound, Settled, BootedFrom, Grounded, Justified, RolledBackMarked, Fresh, Calm, Replaceable, Unspoiled, Within,
         OldProgram, NewProgram, ProgramSaved, SameDatabase, Settling;
    ghost var before, mark := disk.files, |disk.trace| - 1;
    NoMarkerYet(before);
    clean, base := InterruptedExecute(disk, exe, ready, valid, attempt, stops, second);
    survived := [disk.files];
    WithinItself(disk.files);
    ghost var calm := Calm(base, exe);
    SameProgram(before, base, exe);
    if clean {
      GroundedEnd(base, disk.trace, mark, exe);
    }
    for k := 0 to |boots|
      invariant disk.Valid() && old(disk.trace) <= disk.trace && |survived| == k + 1 && survived[k] == disk.files
      invariant disk.Counted(old(disk.faults), old(disk.slips)) && (!clean ==> old(disk.slips) < disk.slips)
      invariant Steady(before, exe) ==> clean
      invariant Fresh(before) || disk.slips == old(disk.slips) ==> base == before
      invariant clean ==> Grounded(base, disk.trace, mark, exe)
      invariant clean ==> forall i | 0 <= i <= k ::
        Sound(base, survived[i], exe) && Justified(base, disk.trace, mark, survived[i], exe)
      invariant FinalOnceSettled(survived)
    {
      ghost var from, trace := disk.files, disk.trace;
      ghost var c;
      var ran;
      ran, c := InterruptedStart(disk, exe, boots[k], base);
      FinalStep(base, survived, disk.files, exe, c);
      clean := clean && c;
      if clean {
        BootedSound(base, from, disk.files, exe, c);
        GroundedChain(base, trace, disk.trace, mark, exe);
        GroundedEnd(base, disk.trace, mark, exe);
        forall i | 0 <= i <= k
          ensures Justified(base, disk.trace, mark, survived[i], exe)
        {
          JustifiedLater(base, trace, disk.trace, mark, survived[i], exe);
        }
      }
      survived := survived + [disk.files];
    }
    if clean {
      Survivors(base, disk.trace, mark, survived, exe);
    }
  }

  /** What soundness and justification say about the states that survive. */
  lemma Survivors(before: Files, trace: seq<Files>, mark: nat, survived: seq<Files>, exe: string)
    requires forall i | 0 <= i < |survived| ::
      Sound(before, survived[i], exe) && Justified(before, trace, mark, survived[i], exe)
    ensures forall i | 0 <= i < |survived| ::
      var now := survived[i];
      && (JOURNAL !in now ==> OldProgram(before, now, exe) || NewProgram(before, now, exe))
      && (JOURNAL in now ==>
        && now[JOURNAL].Journal? && now[JOURNAL].exe == exe && now[JOURNAL].completed != Some(Failed)
        && (now[JOURNAL].completed.None? ==>
          ProgramSaved(before, now, exe) && SameDatabase(before, DATABASE, now, COPY, SUFFIXES))
        && (now[JOURNAL].completed == Some(Success) ==> NewProgram(before, now, exe))
        && (now[JOURNAL].completed == Some(RolledBack) ==>
          && OldProgram(before, now, exe)
          && exists k | mark <= k < |trace| ::
            && OldProgram(before, trace[k], exe) && SameDatabase(before, DATABASE, trace[k], DATABASE, SUFFIXES)
            && Within(trace[k], now, Settling())))
  {
    hide OldProgram, NewProgram, ProgramSaved, SameDatabase, Within, Settling, Calm, Quiet;
  }

  lemma NoMarkerYet(before: Files)
    requires JOURNAL !in before
    ensures !RolledBackMarked(before)
  {
  }

  lemma BootedSound(before: Files, from: Files, now: Files, exe: string, clean: bool)
    requires BootedFrom(before, from, now, exe, clean) && Sound(before, from, exe) && clean
    ensures Sound(before, now, exe)
  {
  }
}
