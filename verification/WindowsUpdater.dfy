/** The Windows update executor: backs the program files up, opens a journal, replaces the files, checks the new
    program, and commits or restores; after a power loss the gate hands an open journal to a recovery. */
module WindowsUpdater {
  import opened Options
  import opened Disk
  import opened Database

  const DATABASE := Base(Data, "ctyun-keeper.db")
  const COPY := Base(DatabaseCopy, "ctyun-keeper.db")
  const JOURNAL := Path(Updates, "windows-transaction.json", "", Live)
  const RESULT := Path(Updates, "result.json", "", Live)

  function App(place: Place, name: string, role: Role): Path {
    Path(place, name, "", role)
  }

  /** The names the executor manages, in the order of backup and restore. */
  function Names(exe: string): seq<string> {
    [exe, "ctyun-keeper-updater.exe", "static", "README.txt", "config.env.example"]
  }

  ghost function Slot(name: string): iset<Path> {
    iset{App(Install, name, Live), App(Install, name, UpdateNew), App(Install, name, UpdateOld)}
  }

  ghost function Managed(exe: string): iset<Path> {
    iset p: Path | p.place == Install && p.name in Names(exe) && p.suffix == ""
      && p.role in {Live, UpdateNew, UpdateOld}
  }

  /** The managed names and the database hold what they held in `before`. */
  ghost predicate OldProgram(before: Files, now: Files, exe: string) {
    forall n | n in Names(exe) :: Same(before, App(Install, n, Live), now, App(Install, n, Live))
  }

  /** Every managed name of the package is installed; the others are as before. */
  ghost predicate NewProgram(before: Files, now: Files, exe: string) {
    forall n | n in Names(exe) :: Placed(before, now, n)
  }

  ghost predicate ProgramSaved(before: Files, now: Files, exe: string) {
    forall n | n in Names(exe) :: Same(before, App(Install, n, Live), now, App(Application, n, Live))
  }

  /** Whether the path is free or holds what a copy accepts. */
  predicate Plain(files: Files, p: Path) {
    p in files ==> files[p].File? || files[p].Dir?
  }

  method BackupName(disk: Disk, name: string) returns (ok: bool)
    requires disk.Valid()
    requires App(Application, name, Live) in disk.files ==>
      Same(disk.files, App(Install, name, Live), disk.files, App(Application, name, Live))
    modifies disk
    ensures disk.Valid() && old(disk.trace) <= disk.trace
    ensures disk.Since(|old(disk.trace)|, old(disk.files), iset{App(Application, name, Live)})
    ensures ok ==> Same(old(disk.files), App(Install, name, Live), disk.files, App(Application, name, Live))
    ensures disk.Counted(old(disk.faults), old(disk.slips))
    ensures !ok ==> old(disk.faults) < disk.faults || !Plain(old(disk.files), App(Install, name, Live))
  {
    var src, dst := App(Install, name, Live), App(Application, name, Live);
    var stat := disk.Stat(src);
    ok := !stat.Unreadable?;
    if stat.Present? {
      if stat.isDir {
        ok := disk.CopyDir(src, dst);
        assert dst in old(disk.files) ==> Entries(old(disk.files), dst) == old(disk.files)[src].entries;
      } else {
        ok := disk.CopyFile(src, dst);
      }
    }
  }

  method Backup(disk: Disk, exe: string) returns (ok: bool)
    requires disk.Valid()
    modifies disk
    ensures disk.Valid() && old(disk.trace) <= disk.trace
    ensures disk.Since(|old(disk.trace)|, old(disk.files), Everything(Application))
    ensures ok ==> ProgramSaved(old(disk.files), disk.files, exe)
    ensures disk.Counted(old(disk.faults), old(disk.slips))
    ensures !ok ==>
      old(disk.faults) < disk.faults || exists n :: n in Names(exe) && !Plain(old(disk.files), App(Install, n, Live))
  {
    hide Within;
    ghost var mark, before, all := |disk.trace|, disk.files, Everything(Application);
    ok := disk.RemovePlace(Application);
    if !ok {
      return;
    }
    var names := Names(exe);
    for i := 0 to |names|
      invariant disk.Valid() && old(disk.trace) <= disk.trace && disk.Counted(old(disk.faults), old(disk.slips))
      invariant disk.Since(mark, before, all)
      invariant forall n | n in names[..i] :: Same(before, App(Install, n, Live), disk.files, App(Application, n, Live))
      invariant forall n | n !in names[..i] :: App(Application, n, Live) !in disk.files
    {
      var name := names[i];
      ghost var files, trace := disk.files, disk.trace;
      InstalledStays(before, files, name);
      ok := BackupName(disk, name);
      Chain(mark, before, trace, all, files, disk.trace, disk.files, iset{App(Application, name, Live)});
      if !ok {
        return;
      }
      OtherCopiesStay(files, disk.files, name);
      assert names[..i + 1] == names[..i] + [name];
    }
    assert names[..|names|] == names;
  }

  lemma InstalledStays(before: Files, files: Files, name: string)
    requires Within(before, files, Everything(Application))
    ensures Same(before, App(Install, name, Live), files, App(Install, name, Live))
  {
  }

  lemma OtherCopiesStay(files: Files, now: Files, name: string)
    requires Within(files, now, iset{App(Application, name, Live)})
    ensures forall n | n != name :: Same(files, App(Application, n, Live), now, App(Application, n, Live))
  {
    forall n | n != name
      ensures Same(files, App(Application, n, Live), now, App(Application, n, Live))
    {
    }
  }

  /** The entries of the directory in which a new tree is prepared for the name. */
  function Scratch(files: Files, name: string): map<string, string> {
    Entries(files, App(Install, name, UpdateNew))
  }

  ghost predicate ScratchFrom(from: Files, now: Files, name: string, extra: set<string>) {
    Scratch(now, name).Keys <= Scratch(from, name).Keys + extra
  }

  ghost predicate AllScratchFrom(mark: nat, from: Files, trace: seq<Files>, name: string, extra: set<string>) {
    mark <= |trace| && forall i | mark <= i < |trace| :: ScratchFrom(from, trace[i], name, extra)
  }

  lemma ScratchChain(mark: nat, from: Files, trace: seq<Files>, mid: Files, trace': seq<Files>, name: string,
                     extra: set<string>, extra': set<string>)
    requires AllScratchFrom(mark, from, trace, name, extra) && ScratchFrom(from, mid, name, extra)
    requires trace <= trace' && AllScratchFrom(|trace|, mid, trace', name, extra')
    ensures AllScratchFrom(mark, from, trace', name, extra + extra')
  {
    forall i | mark <= i < |trace'|
      ensures ScratchFrom(from, trace'[i], name, extra + extra')
    {
      if i < |trace| {
        assert trace'[i] == trace[i];
      }
    }
  }

  /** An entry that is being replaced stands in its place or, unchanged, under its `.update-old` name. */
  ghost predicate Standing(from: Files, now: Files, name: string) {
    var live := App(Install, name, Live);
    live in from ==> live in now || Same(from, live, now, App(Install, name, UpdateOld))
  }

  /** The entry is gone from its place and stands, unchanged, under its `.update-old` name. */
  ghost predicate SetAside(from: Files, now: Files, name: string) {
    App(Install, name, Live) !in now && Same(from, App(Install, name, Live), now, App(Install, name, UpdateOld))
  }

  ghost predicate PassesAside(mark: nat, from: Files, trace: seq<Files>, name: string) {
    exists i :: mark <= i < |trace| && SetAside(from, trace[i], name)
  }

  lemma PassesLater(mark: nat, from: Files, mid: Files, trace: seq<Files>, mark': nat, name: string)
    requires PassesAside(mark', mid, trace, name) && mark <= mark'
    requires Same(from, App(Install, name, Live), mid, App(Install, name, Live))
    ensures PassesAside(mark, from, trace, name)
  {
    var i :| mark' <= i < |trace| && SetAside(mid, trace[i], name);
    assert SetAside(from, trace[i], name);
  }

  /** The common end of both replacements: sets the old entry aside, moves the new one in, drops the old one. */
  method MoveIn(disk: Disk, name: string) returns (ok: bool)
    requires disk.Valid()
    modifies disk
    ensures disk.Valid() && old(disk.trace) <= disk.trace
    ensures disk.Since(|old(disk.trace)|, old(disk.files), Slot(name))
    ensures forall i | |old(disk.trace)| <= i < |disk.trace| :: Standing(old(disk.files), disk.trace[i], name)
    ensures AllScratchFrom(|old(disk.trace)|, old(disk.files), disk.trace, name, {})
    ensures ok ==>
      App(Install, name, UpdateNew) in old(disk.files)
        && Same(old(disk.files), App(Install, name, UpdateNew), disk.files, App(Install, name, Live))
    ensures ok ==> App(Install, name, UpdateNew) !in disk.files
    ensures disk.Counted(old(disk.faults), old(disk.slips))
    ensures ok && disk.faults == old(disk.faults) && App(Install, name, Live) in old(disk.files) ==>
      PassesAside(|old(disk.trace)|, old(disk.files), disk.trace, name)
    ensures !ok ==> old(disk.faults) < disk.faults || App(Install, name, UpdateNew) !in old(disk.files)
  {
    var dst, tmp, aside := App(Install, name, Live), App(Install, name, UpdateNew), App(Install, name, UpdateOld);
    var stat := disk.Stat(dst);
    if stat.Present? {
      ok := disk.Rename(dst, aside);
      if !ok {
        return;
      }
    }
    ghost var renamed, at := disk.files, |disk.trace| - 1;
    ok := Settle(disk, name);
    if stat.Present? {
      assert disk.trace[at] == renamed && SetAside(old(disk.files), renamed, name);
    }
  }

  /** The new entry takes the place of the old one, or that comes back. */
  method Settle(disk: Disk, name: string) returns (ok: bool)
    requires disk.Valid()
    modifies disk
    ensures disk.Valid() && old(disk.trace) <= disk.trace && disk.Counted(old(disk.faults), old(disk.slips))
    ensures disk.Since(|old(disk.trace)|, old(disk.files), Slot(name))
    ensures forall i | |old(disk.trace)| <= i < |disk.trace| ::
      App(Install, name, Live) in disk.trace[i] || disk.trace[i] == old(disk.files)
    ensures AllScratchFrom(|old(disk.trace)|, old(disk.files), disk.trace, name, {})
    ensures ok ==>
      App(Install, name, UpdateNew) in old(disk.files)
        && Same(old(disk.files), App(Install, name, UpdateNew), disk.files, App(Install, name, Live))
    ensures ok ==> App(Install, name, UpdateNew) !in disk.files
    ensures !ok ==> old(disk.faults) < disk.faults || App(Install, name, UpdateNew) !in old(disk.files)
  {
    var dst, tmp, aside := App(Install, name, Live), App(Install, name, UpdateNew), App(Install, name, UpdateOld);
    ok := disk.Rename(tmp, dst);
    if !ok {
      var _ := disk.Rename(aside, dst);
      return;
    }
    ghost var files := disk.files;
    var _ := disk.RemoveAll(aside);
    forall i | |old(disk.trace)| <= i < |disk.trace|
      ensures dst in disk.trace[i] || disk.trace[i] == old(disk.files)
      ensures ScratchFrom(old(disk.files), disk.trace[i], name, {})
    {
      assert Same(files, dst, disk.trace[i], dst) && Same(files, tmp, disk.trace[i], tmp);
    }
    assert Same(files, dst, disk.files, dst) && Same(files, tmp, disk.files, tmp);
  }

  /** Drops what an interrupted replacement left; failures are ignored. */
  method DropScratch(disk: Disk, name: string)
    requires disk.Valid()
    modifies disk
    ensures disk.Valid() && old(disk.trace) <= disk.trace
    ensures disk.Since(|old(disk.trace)|, old(disk.files),
      iset{App(Install, name, UpdateNew), App(Install, name, UpdateOld)})
    ensures App(Install, name, UpdateNew) in disk.files ==>
      old(disk.slips) < disk.slips && App(Install, name, UpdateNew) in old(disk.files)
      && PartOfNode(disk.files[App(Install, name, UpdateNew)], old(disk.files)[App(Install, name, UpdateNew)])
    ensures AllScratchFrom(|old(disk.trace)|, old(disk.files), disk.trace, name, {})
    ensures disk.Counted(old(disk.faults), old(disk.slips))
  {
    ghost var before, mark := disk.files, |disk.trace|;
    ghost var scratch := iset{App(Install, name, UpdateNew), App(Install, name, UpdateOld)};
    var dropped := disk.RemoveAll(App(Install, name, UpdateNew));
    if !dropped {
      disk.Slip();
    }
    ghost var files, trace := disk.files, disk.trace;
    var _ := disk.RemoveAll(App(Install, name, UpdateOld));
    forall i | mark <= i < |disk.trace|
      ensures ScratchFrom(before, disk.trace[i], name, {})
    {
      if i < |trace| {
        assert disk.trace[i] == trace[i];
      } else {
        assert Same(files, App(Install, name, UpdateNew), disk.trace[i], App(Install, name, UpdateNew));
      }
    }
    Chain(mark, before, trace, scratch, files, disk.trace, disk.files, iset{App(Install, name, UpdateOld)});
    assert Same(files, App(Install, name, UpdateNew), disk.files, App(Install, name, UpdateNew));
  }

  method AtomicReplaceFile(disk: Disk, src: Path, name: string) returns (ok: bool)
    requires disk.Valid() && src.place != Install
    modifies disk
    ensures disk.Valid() && old(disk.trace) <= disk.trace
    ensures disk.Since(|old(disk.trace)|, old(disk.files), Slot(name))
    ensures forall i | |old(disk.trace)| <= i < |disk.trace| :: Standing(old(disk.files), disk.trace[i], name)
    ensures AllScratchFrom(|old(disk.trace)|, old(disk.files), disk.trace, name, {})
    ensures ok ==>
      src in old(disk.files) && old(disk.files)[src].File?
        && Same(old(disk.files), src, disk.files, App(Install, name, Live))
    ensures ok ==> App(Install, name, UpdateNew) !in disk.files
    ensures disk.Counted(old(disk.faults), old(disk.slips))
    ensures ok && disk.faults == old(disk.faults) && App(Install, name, Live) in old(disk.files) ==>
      PassesAside(|old(disk.trace)|, old(disk.files), disk.trace, name)
    ensures !ok ==> old(disk.faults) < disk.faults || src !in old(disk.files) || !old(disk.files)[src].File?
  {
    ghost var before, mark := disk.files, |disk.trace|;
    DropScratch(disk, name);
    ghost var dropped, trace := disk.files, disk.trace;
    ok := disk.CopyFile(src, App(Install, name, UpdateNew));
    Chain(mark, before, trace, Slot(name), dropped, disk.trace, disk.files, iset{App(Install, name, UpdateNew)});
    ghost var files, trace' := disk.files, disk.trace;
    StandingWithin(before, trace', mark, files, name);
    ScratchChain(mark, before, trace, dropped, trace', name, {}, {});
    if ok {
      ok := MoveIn(disk, name);
      Chain(mark, before, trace', Slot(name), files, disk.trace, disk.files, Slot(name));
      StandingChain(before, files, trace', disk.trace, mark, name);
      if ok && disk.faults == old(disk.faults) && App(Install, name, Live) in before {
        PassesLater(mark, before, files, disk.trace, |trace'|, name);
      }
      ScratchChain(mark, before, trace', files, disk.trace, name, {}, {});
    }
  }

  /** A name whose scratch paths alone have changed stands in its place. */
  lemma StandingWithin(before: Files, trace: seq<Files>, mark: nat, now: Files, name: string)
    requires AllWithin(mark, before, trace, Slot(name)) && Within(before, now, Slot(name))
    requires Same(before, App(Install, name, Live), now, App(Install, name, Live))
    requires forall i | mark <= i < |trace| ::
      Same(before, App(Install, name, Live), trace[i], App(Install, name, Live))
    ensures forall i | mark <= i < |trace| :: Standing(before, trace[i], name)
  {
  }

  lemma StandingChain(before: Files, files: Files, trace: seq<Files>, trace': seq<Files>, mark: nat, name: string)
    requires trace <= trace' && mark <= |trace|
      && Same(before, App(Install, name, Live), files, App(Install, name, Live))
    requires forall i | mark <= i < |trace| :: Standing(before, trace[i], name)
    requires forall i | |trace| <= i < |trace'| :: Standing(files, trace'[i], name)
    ensures forall i | mark <= i < |trace'| :: Standing(before, trace'[i], name)
  {
    forall i | mark <= i < |trace'|
      ensures Standing(before, trace'[i], name)
    {
      if i < |trace| {
        assert trace'[i] == trace[i];
      }
    }
  }

  /** The name holds the tree at `src` laid over `left`, a part of what stood in the name's scratch directory. */
  ghost predicate ReplacedOver(before: Files, now: Files, src: Path, name: string, left: map<string, string>) {
    && src in before && before[src].Dir?
    && PartOfTree(left, Entries(before, App(Install, name, UpdateNew)))
    && App(Install, name, Live) in now && now[App(Install, name, Live)] == Dir(Merged(left, before[src].entries))
  }

  /** How a replacement of a directory that reports success may leave the name. */
  ghost predicate ReplacedDir(before: Files, now: Files, src: Path, name: string) {
    exists left :: ReplacedOver(before, now, src, name, left)
  }

  /** The scratch directory of the name has no entry that the tree at `src` lacks. */
  predicate Tidy(files: Files, src: Path, name: string) {
    Entries(files, App(Install, name, UpdateNew)).Keys <= Entries(files, src).Keys
  }

  /** Every replacement of a directory that reports success is exact, whatever fails on the way, exactly when no
      scratch directory with entries of its own stood there before the call. */
  lemma DirExactIff(before: Files, src: Path, name: string)
    requires src in before && before[src].Dir?
    ensures (forall now | ReplacedDir(before, now, src, name) :: Same(before, src, now, App(Install, name, Live))) <==>
      Tidy(before, src, name)
  {
    var scratch, live := Entries(before, App(Install, name, UpdateNew)), App(Install, name, Live);
    forall now | ReplacedDir(before, now, src, name) && Tidy(before, src, name)
      ensures Same(before, src, now, live)
    {
      var left :| ReplacedOver(before, now, src, name, left);
      MergeIsCopyIff(left, before[src].entries);
    }
    var worst := before[live := Dir(Merged(scratch, before[src].entries))];
    assert ReplacedOver(before, worst, src, name, scratch);
    assert ReplacedDir(before, worst, src, name);
    MergeIsCopyIff(scratch, before[src].entries);
  }

  /** The removal of a stale scratch directory is not checked, and the new tree is copied over what is left of it. */
  method AtomicReplaceDir(disk: Disk, src: Path, name: string) returns (ok: bool)
    requires disk.Valid() && src.place != Install
    modifies disk
    ensures disk.Valid() && old(disk.trace) <= disk.trace
    ensures disk.Since(|old(disk.trace)|, old(disk.files), Slot(name))
    ensures forall i | |old(disk.trace)| <= i < |disk.trace| :: Standing(old(disk.files), disk.trace[i], name)
    ensures AllScratchFrom(|old(disk.trace)|, old(disk.files), disk.trace, name, Entries(old(disk.files), src).Keys)
    ensures ok ==> ReplacedDir(old(disk.files), disk.files, src, name)
    ensures ok && disk.slips == old(disk.slips) ==> Same(old(disk.files), src, disk.files, App(Install, name, Live))
    ensures ok ==> App(Install, name, UpdateNew) !in disk.files
    ensures disk.Counted(old(disk.faults), old(disk.slips))
    ensures !ok ==> old(disk.faults) < disk.faults || src !in old(disk.files) || !old(disk.files)[src].Dir?
  {
    hide Standing;
    ghost var before, mark := disk.files, |disk.trace|;
    var tmp := App(Install, name, UpdateNew);
    var stat := disk.Stat(src);
    if !stat.Present? || !stat.isDir {
      return false;
    }
    DropScratch(disk, name);
    ghost var dropped, trace := disk.files, disk.trace;
    assert Same(before, src, dropped, src);
    ghost var left := Entries(dropped, tmp);
    ok := disk.CopyDir(src, tmp);
    Chain(mark, before, trace, Slot(name), dropped, disk.trace, disk.files, iset{tmp});
    ghost var files, trace' := disk.files, disk.trace;
    StandingWithin(before, trace', mark, files, name);
    ghost var extra := Entries(before, src).Keys;
    ScratchChain(mark, before, trace, dropped, trace', name, {}, extra);
    if ok {
      ok := MoveIn(disk, name);
      Chain(mark, before, trace', Slot(name), files, disk.trace, disk.files, Slot(name));
      StandingChain(before, files, trace', disk.trace, mark, name);
      ScratchChain(mark, before, trace', files, disk.trace, name, extra, {});
      if ok {
        assert ReplacedOver(before, disk.files, src, name, left);
        MergeIsCopyIff(left, before[src].entries);
      }
    }
  }

  /** The entries that the scratch directory of a name may come to hold before an update is over: what stands there,
      what the backup holds and, for `static`, what the package holds. */
  ghost function Bound(files: Files, name: string): set<string> {
    Scratch(files, name).Keys + Entries(files, App(Application, name, Live)).Keys + PackageKeys(files, name)
  }

  function PackageKeys(files: Files, name: string): set<string> {
    if name == "static" then Entries(files, App(Staging, name, Live)).Keys else {}
  }

  ghost predicate Bounded(from: Files, now: Files) {
    forall n :: Scratch(now, n).Keys <= Bound(from, n)
  }

  ghost predicate AllBounded(mark: nat, from: Files, trace: seq<Files>, now: Files) {
    mark <= |trace| && Bounded(from, now) && forall i | mark <= i < |trace| :: Bounded(from, trace[i])
  }

  /** One replacement keeps the bound, whatever tree it takes that the bound knows. */
  lemma OneBounded(mark: nat, from: Files, trace: seq<Files>, now: Files, name: string, extra: set<string>)
    requires 0 < mark <= |trace| && trace[mark - 1] == from && trace[|trace| - 1] == now
    requires AllWithin(mark, from, trace, Slot(name)) && AllScratchFrom(mark, from, trace, name, extra)
    requires extra <= Entries(from, App(Application, name, Live)).Keys + PackageKeys(from, name)
    ensures AllBounded(mark, from, trace, now)
  {
    hide Within;
    forall i | mark <= i < |trace|
      ensures Bounded(from, trace[i])
    {
      OthersScratch(from, trace[i], name);
    }
    assert mark < |trace| ==> now == trace[|trace| - 1];
    assert Bounded(from, from);
  }

  lemma OthersScratch(from: Files, now: Files, name: string)
    requires Within(from, now, Slot(name))
    ensures forall n | n != name :: Scratch(from, n) == Scratch(now, n)
  {
    forall n | n != name
      ensures Scratch(from, n) == Scratch(now, n)
    {
      assert Same(from, App(Install, n, UpdateNew), now, App(Install, n, UpdateNew));
    }
  }

  /** While neither the backup nor the package changes the bounds of consecutive stretches compose. */
  lemma BoundedChain(mark: nat, from: Files, trace: seq<Files>, mid: Files, trace': seq<Files>, now: Files, exe: string)
    requires Within(from, mid, Open(exe)) && AllBounded(mark, from, trace, mid)
    requires trace <= trace' && AllBounded(|trace|, mid, trace', now)
    ensures AllBounded(mark, from, trace', now)
  {
    BoundStays(from, mid, exe);
    forall i | mark <= i < |trace'|
      ensures Bounded(from, trace'[i])
    {
      if i < |trace| {
        assert trace'[i] == trace[i];
      } else {
        BoundedOver(from, mid, trace'[i]);
      }
    }
    BoundedOver(from, mid, now);
  }

  lemma BoundStays(from: Files, mid: Files, exe: string)
    requires Within(from, mid, Open(exe)) && Bounded(from, mid)
    ensures forall n :: Bound(mid, n) <= Bound(from, n)
  {
    forall n
      ensures Bound(mid, n) <= Bound(from, n)
    {
      assert Scratch(mid, n).Keys <= Bound(from, n);
      assert Same(from, App(Application, n, Live), mid, App(Application, n, Live));
      assert Same(from, App(Staging, n, Live), mid, App(Staging, n, Live));
    }
  }

  lemma BoundedAtFirst(files: Files)
    ensures Bounded(files, files)
  {
  }

  lemma DatabaseBounded(mark: nat, from: Files, trace: seq<Files>, now: Files)
    requires AllWithin(mark, from, trace, Paths(DATABASE, SUFFIXES, RESTORE_ROLES))
    requires Within(from, now, Paths(DATABASE, SUFFIXES, RESTORE_ROLES))
    ensures AllBounded(mark, from, trace, now)
  {
    hide Within;
    forall i | mark <= i < |trace|
      ensures Bounded(from, trace[i])
    {
      ScratchApart(from, trace[i]);
    }
    ScratchApart(from, now);
  }

  lemma ScratchApart(from: Files, now: Files)
    requires Within(from, now, Paths(DATABASE, SUFFIXES, RESTORE_ROLES))
    ensures forall n :: Scratch(from, n) == Scratch(now, n)
  {
    forall n
      ensures Scratch(from, n) == Scratch(now, n)
    {
      assert Same(from, App(Install, n, UpdateNew), now, App(Install, n, UpdateNew));
    }
  }

  lemma BoundedOver(from: Files, mid: Files, now: Files)
    requires Bounded(mid, now) && forall n :: Bound(mid, n) <= Bound(from, n)
    ensures Bounded(from, now)
  {
    forall n
      ensures Scratch(now, n).Keys <= Bound(from, n)
    {
      assert Scratch(now, n).Keys <= Bound(mid, n);
    }
  }

  // ---- Replacing the program with the package ----

  /** The package has the program and its directory, and files where they are optional. */
  ghost predicate Complete(files: Files, exe: string) {
    && App(Staging, exe, Live) in files && files[App(Staging, exe, Live)].File?
    && App(Staging, "static", Live) in files && files[App(Staging, "static", Live)].Dir?
    && forall n | n in Names(exe) && n != "static" && App(Staging, n, Live) in files ::
      files[App(Staging, n, Live)].File?
  }

  /** A name of the package is installed, any other name is as before. */
  ghost predicate Placed(before: Files, now: Files, n: string) {
    if App(Staging, n, Live) in before
    then Same(before, App(Staging, n, Live), now, App(Install, n, Live))
    else Same(before, App(Install, n, Live), now, App(Install, n, Live))
  }

  /** How the replacement of an optional file that reports success may leave the name: a failed look at the package
      passes for the file's absence. */
  ghost predicate PlacedOrSkipped(before: Files, now: Files, n: string) {
    Placed(before, now, n) || Same(before, App(Install, n, Live), now, App(Install, n, Live))
  }

  /** Skipping the file would make no difference. */
  ghost predicate Dispensable(before: Files, n: string) {
    App(Staging, n, Live) in before ==> Same(before, App(Staging, n, Live), before, App(Install, n, Live))
  }

  /** Every replacement of an optional file that reports success has installed it, whatever fails, exactly when it is
      installed already or the package lacks it. */
  lemma OptionalExactIff(before: Files, n: string)
    ensures (forall now | PlacedOrSkipped(before, now, n) :: Placed(before, now, n)) <==> Dispensable(before, n)
  {
    assert PlacedOrSkipped(before, before, n);
  }

  /** How a replacement that reports success may leave the program. */
  ghost predicate ReplaceLeaves(before: Files, now: Files, exe: string) {
    && App(Staging, exe, Live) in before && before[App(Staging, exe, Live)].File? && Placed(before, now, exe)
    && ReplacedDir(before, now, App(Staging, "static", Live), "static")
    && forall n | n in Names(exe) && n != exe && n != "static" :: PlacedOrSkipped(before, now, n)
  }

  /** Neither a stale scratch directory nor an overlooked file can spoil a replacement. */
  ghost predicate Replaceable(before: Files, exe: string) {
    && Tidy(before, App(Staging, "static", Live), "static")
    && forall n | n in Names(exe) && n != exe && n != "static" :: Dispensable(before, n)
  }

  /** The replacement in which no stale scratch directory can be removed and no optional file can be looked at. */
  ghost function WorstReplace(before: Files, exe: string): Files
    requires App(Staging, exe, Live) in before
    requires App(Staging, "static", Live) in before && before[App(Staging, "static", Live)].Dir?
  {
    var tree := Merged(Scratch(before, "static"), before[App(Staging, "static", Live)].entries);
    before[App(Install, exe, Live) := before[App(Staging, exe, Live)]][App(Install, "static", Live) := Dir(tree)]
  }

  lemma WorstIsReplace(before: Files, exe: string)
    requires App(Staging, exe, Live) in before && before[App(Staging, exe, Live)].File?
    requires App(Staging, "static", Live) in before && before[App(Staging, "static", Live)].Dir?
    ensures ReplaceLeaves(before, WorstReplace(before, exe), exe)
    ensures Within(before, WorstReplace(before, exe), Managed(exe))
    ensures NewProgram(before, WorstReplace(before, exe), exe) ==> Replaceable(before, exe)
  {
    var package, worst := App(Staging, "static", Live), WorstReplace(before, exe);
    var scratch := Scratch(before, "static");
    assert ReplacedOver(before, worst, package, "static", scratch);
    MergeIsCopyIff(scratch, before[package].entries);
    if NewProgram(before, worst, exe) {
      assert Placed(before, worst, "static");
      forall n | n in Names(exe) && n != exe && n != "static"
        ensures Dispensable(before, n)
      {
        assert Placed(before, worst, n);
      }
    }
  }

  /** Every replacement that reports success is the new program, whatever fails on the way, exactly when no stale
      scratch directory with entries of its own stands there and every optional file of the package is installed
      already. */
  lemma ReplaceExactIff(before: Files, exe: string)
    requires App(Staging, exe, Live) in before && before[App(Staging, exe, Live)].File?
    requires App(Staging, "static", Live) in before && before[App(Staging, "static", Live)].Dir?
    ensures (forall now | ReplaceLeaves(before, now, exe) :: NewProgram(before, now, exe)) <==> Replaceable(before, exe)
  {
    DirExactIff(before, App(Staging, "static", Live), "static");
    forall now | ReplaceLeaves(before, now, exe) && Replaceable(before, exe)
      ensures NewProgram(before, now, exe)
    {
      forall n | n in Names(exe)
        ensures Placed(before, now, n)
      {
      }
    }
    WorstIsReplace(before, exe);
  }

  /** Installs a file of the package if the package has it. */
  method ReplaceOptional(disk: Disk, name: string) returns (ok: bool)
    requires disk.Valid()
    modifies disk
    ensures disk.Valid() && old(disk.trace) <= disk.trace
    ensures disk.Since(|old(disk.trace)|, old(disk.files), Slot(name))
    ensures AllBounded(|old(disk.trace)|, old(disk.files), disk.trace, disk.files)
    ensures ok ==> PlacedOrSkipped(old(disk.files), disk.files, name)
    ensures ok && disk.slips == old(disk.slips) ==> Placed(old(disk.files), disk.files, name)
    ensures App(Staging, name, Live) !in old(disk.files) ==> disk.files == old(disk.files)
    ensures disk.Counted(old(disk.faults), old(disk.slips))
    ensures !ok ==>
      old(disk.faults) < disk.faults
        || (App(Staging, name, Live) in old(disk.files) && !old(disk.files)[App(Staging, name, Live)].File?)
  {
    ghost var mark, before := |disk.trace|, disk.files;
    ok := true;
    var stat := disk.Stat(App(Staging, name, Live));
    if stat.Unreadable? {
      disk.Slip();
    } else if stat.Present? {
      ok := AtomicReplaceFile(disk, App(Staging, name, Live), name);
    }
    OneBounded(mark, before, disk.trace, disk.files, name, {});
  }

  lemma OthersStay(files: Files, now: Files, name: string)
    requires Within(files, now, Slot(name))
    ensures forall n | n != name :: Same(files, App(Install, n, Live), now, App(Install, n, Live))
  {
    forall n | n != name
      ensures Same(files, App(Install, n, Live), now, App(Install, n, Live))
    {
    }
  }

  lemma PlacedStays(before: Files, files: Files, now: Files, n: string)
    requires Same(files, App(Install, n, Live), now, App(Install, n, Live))
    ensures Placed(before, files, n) ==> Placed(before, now, n)
    ensures PlacedOrSkipped(before, files, n) ==> PlacedOrSkipped(before, now, n)
  {
  }

  lemma DirStays(before: Files, files: Files, now: Files, src: Path, name: string)
    requires ReplacedDir(before, files, src, name)
      && Same(files, App(Install, name, Live), now, App(Install, name, Live))
    ensures ReplacedDir(before, now, src, name)
  {
    var left :| ReplacedOver(before, files, src, name, left);
    assert ReplacedOver(before, now, src, name, left);
  }

  lemma OptionalKeeps(before: Files, files: Files, now: Files, exe: string, name: string)
    requires Within(files, now, Slot(name)) && name in Names(exe) && name != "static"
    requires Same(before, App(Staging, name, Live), files, App(Staging, name, Live))
    requires ReplaceLeaves(before, files, exe) && PlacedOrSkipped(files, now, name)
    ensures ReplaceLeaves(before, now, exe)
    ensures Placed(files, now, name) ==> Placed(before, now, name)
    ensures forall n | n != name && Placed(before, files, n) :: Placed(before, now, n)
  {
    hide Within, ReplacedDir;
    OthersStay(files, now, name);
    DirStays(before, files, now, App(Staging, "static", Live), "static");
    forall n | n != name
      ensures Placed(before, files, n) ==> Placed(before, now, n)
      ensures PlacedOrSkipped(before, files, n) ==> PlacedOrSkipped(before, now, n)
    {
      PlacedStays(before, files, now, n);
    }
  }

  /** One more optional name. */
  method ReplaceNext(disk: Disk, ghost before: Files, exe: string, name: string) returns (ok: bool)
    requires disk.Valid() && name in Names(exe) && name != "static"
    requires Within(before, disk.files, Managed(exe)) && ReplaceLeaves(before, disk.files, exe)
    modifies disk
    ensures disk.Valid() && old(disk.trace) <= disk.trace && disk.Counted(old(disk.faults), old(disk.slips))
    ensures disk.Since(|old(disk.trace)|, old(disk.files), Slot(name))
    ensures AllBounded(|old(disk.trace)|, old(disk.files), disk.trace, disk.files)
    ensures ok ==> ReplaceLeaves(before, disk.files, exe)
    ensures ok && disk.slips == old(disk.slips) ==> Placed(before, disk.files, name)
    ensures ok ==> forall n | n != name && Placed(before, old(disk.files), n) :: Placed(before, disk.files, n)
    ensures !ok ==> old(disk.faults) < disk.faults || !Complete(before, exe)
  {
    hide ReplaceLeaves, Placed, PlacedOrSkipped;
    ghost var files := disk.files;
    assert Same(before, App(Staging, name, Live), files, App(Staging, name, Live));
    ok := ReplaceOptional(disk, name);
    if ok {
      OptionalKeeps(before, files, disk.files, exe, name);
    }
  }

  /** One optional name after another. */
  method ReplaceOptionals(disk: Disk, ghost before: Files, exe: string) returns (ok: bool)
    requires disk.Valid() && Within(before, disk.files, Managed(exe)) && ReplaceLeaves(before, disk.files, exe)
    modifies disk
    ensures disk.Valid() && old(disk.trace) <= disk.trace && disk.Counted(old(disk.faults), old(disk.slips))
    ensures disk.Since(|old(disk.trace)|, old(disk.files), Managed(exe))
    ensures AllBounded(|old(disk.trace)|, old(disk.files), disk.trace, disk.files)
    ensures ok ==> ReplaceLeaves(before, disk.files, exe)
    ensures ok && disk.slips == old(disk.slips) && NewBase(before, old(disk.files), exe) ==>
      NewProgram(before, disk.files, exe)
    ensures !ok ==> old(disk.faults) < disk.faults || !Complete(before, exe)
  {
    hide ReplaceLeaves, Placed, Complete, Bounded;
    BoundedAtFirst(disk.files);
    ghost var mark, from, all := |disk.trace|, disk.files, Managed(exe);
    ghost var done := {exe, "static"};
    WithinTrans(from, from, from, iset{}, iset{}, all);
    ok := true;
    var names := ["ctyun-keeper-updater.exe", "README.txt", "config.env.example"];
    for i := 0 to |names|
      invariant disk.Valid() && old(disk.trace) <= disk.trace && disk.Counted(old(disk.faults), old(disk.slips))
      invariant disk.Since(mark, from, all) && Within(before, disk.files, all)
      invariant ReplaceLeaves(before, disk.files, exe)
      invariant AllBounded(mark, from, disk.trace, disk.files)
      invariant disk.slips == old(disk.slips) && NewBase(before, from, exe) ==>
        forall n | n in done :: Placed(before, disk.files, n)
      invariant done == {exe, "static"} + (set n | n in names[..i])
    {
      var name := names[i];
      ghost var files, trace := disk.files, disk.trace;
      ok := ReplaceNext(disk, before, exe, name);
      Chain(mark, from, trace, all, files, disk.trace, disk.files, Slot(name));
      BoundedChain(mark, from, trace, files, disk.trace, disk.files, exe);
      WithinTrans(before, files, disk.files, all, Slot(name), all);
      if !ok {
        return;
      }
      done := done + {name};
      assert names[..i + 1] == names[..i] + [name];
    }
    assert names[..|names|] == names;
    assert names[0] in names && names[1] in names && names[2] in names;
  }

  /** The program and its directory are the package's. */
  ghost predicate NewBase(before: Files, now: Files, exe: string) {
    Placed(before, now, exe) && Placed(before, now, "static")
  }

  method ReplaceStatic(disk: Disk) returns (ok: bool)
    requires disk.Valid()
    modifies disk
    ensures disk.Valid() && old(disk.trace) <= disk.trace
    ensures disk.Since(|old(disk.trace)|, old(disk.files), Slot("static"))
    ensures AllBounded(|old(disk.trace)|, old(disk.files), disk.trace, disk.files)
    ensures ok ==> ReplacedDir(old(disk.files), disk.files, App(Staging, "static", Live), "static")
    ensures ok && disk.slips == old(disk.slips) ==> Placed(old(disk.files), disk.files, "static")
    ensures disk.Counted(old(disk.faults), old(disk.slips))
    ensures !ok ==>
      old(disk.faults) < disk.faults || App(Staging, "static", Live) !in old(disk.files)
        || !old(disk.files)[App(Staging, "static", Live)].Dir?
  {
    ghost var mark, before := |disk.trace|, disk.files;
    ok := AtomicReplaceDir(disk, App(Staging, "static", Live), "static");
    OneBounded(mark, before, disk.trace, disk.files, "static", Entries(before, App(Staging, "static", Live)).Keys);
  }

  lemma BasePlaced(before: Files, files: Files, now: Files, exe: string)
    requires App(Staging, exe, Live) in before && before[App(Staging, exe, Live)].File? && Placed(before, files, exe)
    requires Within(before, files, Slot(exe)) && Within(files, now, Slot("static"))
    requires ReplacedDir(files, now, App(Staging, "static", Live), "static")
    ensures ReplaceLeaves(before, now, exe)
    ensures Placed(files, now, "static") ==> NewBase(before, now, exe)
  {
    var package := App(Staging, "static", Live);
    assert Same(before, package, files, package);
    assert exe != "static";
    assert Same(before, App(Install, "static", UpdateNew), files, App(Install, "static", UpdateNew));
    var left :| ReplacedOver(files, now, package, "static", left);
    assert ReplacedOver(before, now, package, "static", left);
    forall n | n != exe && n != "static"
      ensures Same(before, App(Install, n, Live), now, App(Install, n, Live))
    {
      assert Same(before, App(Install, n, Live), files, App(Install, n, Live));
      assert Same(files, App(Install, n, Live), now, App(Install, n, Live));
    }
    assert Same(files, App(Install, exe, Live), now, App(Install, exe, Live));
  }

  method ReplaceExecutable(disk: Disk, exe: string) returns (ok: bool)
    requires disk.Valid()
    modifies disk
    ensures disk.Valid() && old(disk.trace) <= disk.trace && disk.Counted(old(disk.faults), old(disk.slips))
    ensures disk.Since(|old(disk.trace)|, old(disk.files), Slot(exe))
    ensures AllBounded(|old(disk.trace)|, old(disk.files), disk.trace, disk.files)
    ensures ok ==>
      App(Staging, exe, Live) in old(disk.files) && old(disk.files)[App(Staging, exe, Live)].File?
        && Placed(old(disk.files), disk.files, exe)
    ensures !ok ==> old(disk.faults) < disk.faults || !Complete(old(disk.files), exe)
  {
    ghost var mark, before := |disk.trace|, disk.files;
    ok := AtomicReplaceFile(disk, App(Staging, exe, Live), exe);
    OneBounded(mark, before, disk.trace, disk.files, exe, {});
  }

  lemma StaticStays(before: Files, files: Files, exe: string)
    requires Within(before, files, Slot(exe))
    ensures Same(before, App(Staging, "static", Live), files, App(Staging, "static", Live))
    ensures Complete(before, exe) ==> App(Staging, "static", Live) in files && files[App(Staging, "static", Live)].Dir?
  {
  }

  method ReplaceProgram(disk: Disk, exe: string) returns (ok: bool)
    requires disk.Valid()
    modifies disk
    ensures disk.Valid() && old(disk.trace) <= disk.trace
    ensures disk.Since(|old(disk.trace)|, old(disk.files), Managed(exe))
    ensures AllBounded(|old(disk.trace)|, old(disk.files), disk.trace, disk.files)
    ensures ok ==> ReplaceLeaves(old(disk.files), disk.files, exe)
    ensures ok && disk.slips == old(disk.slips) ==> NewBase(old(disk.files), disk.files, exe)
    ensures disk.Counted(old(disk.faults), old(disk.slips))
    ensures !ok ==> old(disk.faults) < disk.faults || !Complete(old(disk.files), exe)
  {
    hide ReplaceLeaves, ReplacedDir, Placed, NewBase, Complete, Bounded;
    ghost var mark, before := |disk.trace|, disk.files;
    ok := ReplaceExecutable(disk, exe);
    ghost var files, trace := disk.files, disk.trace;
    WithinTrans(before, before, files, iset{}, Slot(exe), Managed(exe));
    if ok {
      StaticStays(before, files, exe);
      ok := ReplaceStatic(disk);
      Chain(mark, before, trace, Managed(exe), files, disk.trace, disk.files, Slot("static"));
      BoundedChain(mark, before, trace, files, disk.trace, disk.files, exe);
      if ok {
        BasePlaced(before, files, disk.files, exe);
      }
    }
  }

  method Replace(disk: Disk, exe: string) returns (ok: bool)
    requires disk.Valid()
    modifies disk
    ensures disk.Valid() && old(disk.trace) <= disk.trace
    ensures disk.Since(|old(disk.trace)|, old(disk.files), Managed(exe))
    ensures AllBounded(|old(disk.trace)|, old(disk.files), disk.trace, disk.files)
    ensures ok ==> ReplaceLeaves(old(disk.files), disk.files, exe)
    ensures ok && disk.slips == old(disk.slips) ==> NewProgram(old(disk.files), disk.files, exe)
    ensures disk.Counted(old(disk.faults), old(disk.slips))
    ensures !ok ==> old(disk.faults) < disk.faults || !Complete(old(disk.files), exe)
  {
    hide ReplaceLeaves, Bounded;
    ghost var mark, before, all := |disk.trace|, disk.files, Managed(exe);
    ok := ReplaceProgram(disk, exe);
    if ok {
      ghost var files, trace := disk.files, disk.trace;
      ok := ReplaceOptionals(disk, before, exe);
      Chain(mark, before, trace, all, files, disk.trace, disk.files, all);
      BoundedChain(mark, before, trace, files, disk.trace, disk.files, exe);
    }
  }

  // ---- Restoring the program and the database ----

  /** How a restore of a name that reports success may leave it. */
  ghost predicate RestoredFrom(saved: Files, now: Files, n: string) {
    var copy := App(Application, n, Live);
    if copy in saved && saved[copy].Dir? then ReplacedDir(saved, now, copy, n)
      else Same(saved, copy, now, App(Install, n, Live))
  }

  /** The name holds exactly what its backup holds. */
  ghost predicate Exact(saved: Files, now: Files, n: string) {
    Same(saved, App(Application, n, Live), now, App(Install, n, Live))
  }

  /** No stale scratch directory can spoil the restore of the name. */
  predicate TidyName(files: Files, n: string) {
    var copy := App(Application, n, Live);
    copy in files && files[copy].Dir? ==> Tidy(files, copy, n)
  }

  method RestoreName(disk: Disk, name: string) returns (ok: bool)
    requires disk.Valid()
    modifies disk
    ensures disk.Valid() && old(disk.trace) <= disk.trace
    ensures disk.Since(|old(disk.trace)|, old(disk.files), Slot(name))
    ensures AllBounded(|old(disk.trace)|, old(disk.files), disk.trace, disk.files)
    ensures ok ==> RestoredFrom(old(disk.files), disk.files, name)
    ensures ok && disk.slips == old(disk.slips) ==> Exact(old(disk.files), disk.files, name)
    ensures ok ==> PartOfTree(Scratch(disk.files, name), Scratch(old(disk.files), name))
    ensures disk.Counted(old(disk.faults), old(disk.slips))
    ensures !ok ==> old(disk.faults) < disk.faults || !Plain(old(disk.files), App(Application, name, Live))
  {
    ghost var before, mark := disk.files, |disk.trace|;
    var src := App(Application, name, Live);
    var stat := disk.Stat(src);
    if stat.Absent? {
      ok := disk.RemoveAll(App(Install, name, Live));
      forall i | mark <= i < |disk.trace|
        ensures ScratchFrom(before, disk.trace[i], name, {})
      {
        assert Same(before, App(Install, name, UpdateNew), disk.trace[i], App(Install, name, UpdateNew));
      }
      assert Same(before, App(Install, name, UpdateNew), disk.files, App(Install, name, UpdateNew));
    } else if stat.Unreadable? {
      ok := false;
    } else if stat.isDir {
      ok := AtomicReplaceDir(disk, src, name);
    } else {
      ok := AtomicReplaceFile(disk, src, name);
    }
    OneBounded(mark, before, disk.trace, disk.files, name, Entries(before, src).Keys);
  }

  lemma RestoredSince(before: Files, files: Files, now: Files, exe: string, name: string)
    requires Within(before, files, Managed(exe)) && PartOfTree(Scratch(files, name), Scratch(before, name))
    requires RestoredFrom(files, now, name)
    ensures RestoredFrom(before, now, name) && (Exact(files, now, name) <==> Exact(before, now, name))
  {
    var copy := App(Application, name, Live);
    assert Same(before, copy, files, copy);
    if copy in files && files[copy].Dir? {
      var left :| ReplacedOver(files, now, copy, name, left);
      assert ReplacedOver(before, now, copy, name, left);
    }
  }

  lemma RestoredStays(before: Files, files: Files, now: Files, n: string)
    requires Same(files, App(Install, n, Live), now, App(Install, n, Live)) && RestoredFrom(before, files, n)
    ensures RestoredFrom(before, now, n) && (Exact(before, files, n) ==> Exact(before, now, n))
  {
    var copy := App(Application, n, Live);
    if copy in before && before[copy].Dir? {
      var left :| ReplacedOver(before, files, copy, n, left);
      assert ReplacedOver(before, now, copy, n, left);
    }
  }

  method RestoreProgram(disk: Disk, exe: string) returns (ok: bool)
    requires disk.Valid()
    modifies disk
    ensures disk.Valid() && old(disk.trace) <= disk.trace
    ensures disk.Since(|old(disk.trace)|, old(disk.files), Managed(exe))
    ensures AllBounded(|old(disk.trace)|, old(disk.files), disk.trace, disk.files)
    ensures ok ==> forall n | n in Names(exe) :: RestoredFrom(old(disk.files), disk.files, n)
    ensures ok && disk.slips == old(disk.slips) ==> forall n | n in Names(exe) :: Exact(old(disk.files), disk.files, n)
    ensures disk.Counted(old(disk.faults), old(disk.slips))
    ensures !ok ==>
      old(disk.faults) < disk.faults || exists n ::
        n in Names(exe) && !Plain(old(disk.files), App(Application, n, Live))
  {
    hide RestoredFrom, PartOfTree, Bounded;
    BoundedAtFirst(disk.files);
    ghost var mark, before, all := |disk.trace|, disk.files, Managed(exe);
    ok := true;
    var names := Names(exe);
    forall n
      ensures PartOfTree(Scratch(before, n), Scratch(before, n))
    {
      PartOfItself(Scratch(before, n));
    }
    for i := 0 to |names|
      invariant disk.Valid() && old(disk.trace) <= disk.trace && disk.Counted(old(disk.faults), old(disk.slips))
      invariant disk.Since(mark, before, all)
      invariant AllBounded(mark, before, disk.trace, disk.files)
      invariant forall n | n in names[..i] :: RestoredFrom(before, disk.files, n)
      invariant disk.slips == old(disk.slips) ==> forall n | n in names[..i] :: Exact(before, disk.files, n)
      invariant forall n :: PartOfTree(Scratch(disk.files, n), Scratch(before, n))
    {
      var name := names[i];
      ghost var files, trace, faults := disk.files, disk.trace, disk.faults;
      assert Same(before, App(Application, name, Live), files, App(Application, name, Live));
      ok := RestoreName(disk, name);
      Chain(mark, before, trace, all, files, disk.trace, disk.files, Slot(name));
      BoundedChain(mark, before, trace, files, disk.trace, disk.files, exe);
      if !ok {
        return;
      }
      RestoredSince(before, files, disk.files, exe, name);
      PartOfPart(Scratch(disk.files, name), Scratch(files, name), Scratch(before, name));
      forall n | n != name
        ensures Same(files, App(Install, n, Live), disk.files, App(Install, n, Live))
        ensures Scratch(files, n) == Scratch(disk.files, n)
        ensures n in names[..i] ==>
          RestoredFrom(before, disk.files, n) && (Exact(before, files, n) ==> Exact(before, disk.files, n))
      {
        assert Same(files, App(Install, n, Live), disk.files, App(Install, n, Live));
        assert Same(files, App(Install, n, UpdateNew), disk.files, App(Install, n, UpdateNew));
        if n in names[..i] {
          RestoredStays(before, files, disk.files, n);
        }
      }
      assert names[..i + 1] == names[..i] + [name];
    }
    assert names[..|names|] == names;
  }

  lemma PartOfItself(a: map<string, string>)
    ensures PartOfTree(a, a)
  {
  }

  lemma PartOfPart(a: map<string, string>, b: map<string, string>, c: map<string, string>)
    requires PartOfTree(a, b) && PartOfTree(b, c)
    ensures PartOfTree(a, c)
  {
  }

  /** Nothing but a failing call can keep the backups from being restored. */
  ghost predicate Restorable(files: Files, exe: string) {
    && (forall n | n in Names(exe) :: Plain(files, App(Application, n, Live)))
    && CanCopy(files, COPY, DATABASE, SUFFIXES, RestoreTmp)
  }

  /** The paths that a replacement, a restore or a running program may touch. */
  ghost function Open(exe: string): iset<Path> {
    Managed(exe) + Paths(DATABASE, SUFFIXES, RESTORE_ROLES)
  }

  lemma RestorableKept(before: Files, files: Files, exe: string)
    requires Within(before, files, Managed(exe))
    ensures CanCopy(before, COPY, DATABASE, SUFFIXES, RestoreTmp) ==>
      CanCopy(files, COPY, DATABASE, SUFFIXES, RestoreTmp)
    ensures SameDatabase(before, COPY, files, COPY, SUFFIXES)
  {
    forall s | s in SUFFIXES
      ensures Same(before, COPY.At(s, Live), files, COPY.At(s, Live))
      ensures Same(before, DATABASE.At(s, RestoreTmp), files, DATABASE.At(s, RestoreTmp))
    {
    }
  }

  /** How a restore that reports success may leave the program and the database. */
  ghost predicate RestoreLeaves(before: Files, now: Files, exe: string) {
    && (forall n | n in Names(exe) :: RestoredFrom(before, now, n))
    && SameDatabase(before, COPY, now, DATABASE, SUFFIXES)
  }

  /** Every restore that reports success is exact, whatever fails on the way, exactly when no stale scratch directory
      has an entry that the backup of its name lacks. */
  lemma RestoreExactIff(before: Files, exe: string)
    ensures (forall now | RestoreLeaves(before, now, exe) :: forall n | n in Names(exe) :: Exact(before, now, n))
      <==> forall n | n in Names(exe) :: TidyName(before, n)
  {
    forall now, n | RestoreLeaves(before, now, exe) && n in Names(exe) && TidyName(before, n)
      ensures Exact(before, now, n)
    {
      assert RestoredFrom(before, now, n);
      var copy := App(Application, n, Live);
      if copy in before && before[copy].Dir? {
        DirExactIff(before, copy, n);
      }
    }
    var worst := WorstRestore(before, exe);
    WorstIsRestore(before, exe);
    forall n | n in Names(exe) && Exact(before, worst, n)
      ensures TidyName(before, n)
    {
      var copy := App(Application, n, Live);
      if copy in before && before[copy].Dir? {
        MergeIsCopyIff(Scratch(before, n), before[copy].entries);
      }
    }
  }

  /** Where a restore takes the content of a path from. */
  ghost function Origin(p: Path, exe: string): Path {
    if p.place == Install && p.name in Names(exe) && p == App(Install, p.name, Live) then App(Application, p.name, Live)
    else if p.suffix in SUFFIXES && p == DATABASE.At(p.suffix, Live) then COPY.At(p.suffix, Live)
    else p
  }

  /** The restore in which no stale scratch directory can be removed. */
  ghost function WorstRestore(before: Files, exe: string): Files {
    map p |
      p in before.Keys + (set n | n in Names(exe) :: App(Install, n, Live))
        + (set s | s in SUFFIXES :: DATABASE.At(s, Live))
      && Origin(p, exe) in before ::
      var node := before[Origin(p, exe)];
      if Origin(p, exe).place == Application && p.place == Install && node.Dir?
        then Dir(Merged(Scratch(before, p.name), node.entries)) else node
  }

  lemma WorstIsRestore(before: Files, exe: string)
    ensures RestoreLeaves(before, WorstRestore(before, exe), exe)
    ensures Within(before, WorstRestore(before, exe), Open(exe))
    ensures forall n | n in Names(exe) && App(Application, n, Live) in before
      && before[App(Application, n, Live)].Dir? ::
      App(Install, n, Live) in WorstRestore(before, exe)
      && WorstRestore(before, exe)[App(Install, n, Live)] ==
        Dir(Merged(Scratch(before, n), before[App(Application, n, Live)].entries))
  {
    var worst := WorstRestore(before, exe);
    forall n | n in Names(exe)
      ensures RestoredFrom(before, worst, n)
      ensures App(Application, n, Live) in before && before[App(Application, n, Live)].Dir? ==>
        App(Install, n, Live) in worst
          && worst[App(Install, n, Live)] == Dir(Merged(Scratch(before, n), before[App(Application, n, Live)].entries))
    {
      var copy, live := App(Application, n, Live), App(Install, n, Live);
      assert Origin(live, exe) == copy;
      if copy in before && before[copy].Dir? {
        PartOfItself(Scratch(before, n));
        assert ReplacedOver(before, worst, copy, n, Scratch(before, n));
      }
    }
    forall s | s in SUFFIXES
      ensures Same(before, COPY.At(s, Live), worst, DATABASE.At(s, Live))
    {
      assert Origin(DATABASE.At(s, Live), exe) == COPY.At(s, Live);
    }
    forall p | p !in Open(exe)
      ensures Same(before, p, worst, p)
    {
      assert Origin(p, exe) == p;
    }
  }

  method Restore(disk: Disk, exe: string) returns (ok: bool)
    requires disk.Valid()
    modifies disk
    ensures disk.Valid() && old(disk.trace) <= disk.trace
    ensures disk.Since(|old(disk.trace)|, old(disk.files), Open(exe))
    ensures AllBounded(|old(disk.trace)|, old(disk.files), disk.trace, disk.files)
    ensures ok ==> RestoreLeaves(old(disk.files), disk.files, exe)
    ensures ok && disk.slips == old(disk.slips) ==> forall n | n in Names(exe) :: Exact(old(disk.files), disk.files, n)
    ensures disk.Counted(old(disk.faults), old(disk.slips))
    ensures !ok ==> old(disk.faults) < disk.faults || !Restorable(old(disk.files), exe)
  {
    hide CanCopy, RestoredFrom, Bounded;
    ghost var mark, before := |disk.trace|, disk.files;
    ok := RestoreProgram(disk, exe);
    if ok {
      ghost var files, trace := disk.files, disk.trace;
      RestorableKept(before, files, exe);
      var restored, _, _ := RestoreDatabaseFile(disk, Some(COPY), DATABASE, SUFFIXES);
      ok := restored;
      Chain(mark, before, trace, Open(exe), files, disk.trace, disk.files, Paths(DATABASE, SUFFIXES, RESTORE_ROLES));
      DatabaseBounded(|trace|, files, disk.trace, disk.files);
      BoundedChain(mark, before, trace, files, disk.trace, disk.files, exe);
      forall n
        ensures Same(files, App(Install, n, Live), disk.files, App(Install, n, Live))
      {
      }
      forall n | n in Names(exe)
        ensures RestoredFrom(before, disk.files, n) && (Exact(before, files, n) ==> Exact(before, disk.files, n))
      {
        RestoredStays(before, files, disk.files, n);
      }
    }
  }

  /** The paths that a backup writes. */
  ghost function Saves(): iset<Path> {
    Paths(COPY, SUFFIXES, {Live}) + Everything(Application)
  }

  ghost predicate DatabaseSaved(before: Files, now: Files) {
    SameDatabase(before, DATABASE, now, COPY, SUFFIXES)
  }

  /** Nothing but a failing call can keep the program and the database from being backed up. */
  ghost predicate Savable(files: Files, exe: string) {
    && (forall n | n in Names(exe) :: Plain(files, App(Install, n, Live)))
    && CanCopy(files, DATABASE, COPY, SUFFIXES, Live)
  }

  /** No directory stands where a restore of the database puts its copies. */
  ghost predicate NoScratch(files: Files) {
    forall s | s in SUFFIXES && DATABASE.At(s, RestoreTmp) in files :: !files[DATABASE.At(s, RestoreTmp)].Dir?
  }

  /** Fresh backups can be restored. */
  lemma SavedIsRestorable(before: Files, backed: Files, now: Files, exe: string)
    requires Savable(before, exe) && NoScratch(before) && ProgramSaved(before, now, exe)
    requires Within(before, now, Saves()) && AllFiles(backed, COPY, SUFFIXES, {}) && COPY.At("", Live) in backed
    requires Within(backed, now, Everything(Application))
    ensures Restorable(now, exe)
  {
    forall n | n in Names(exe)
      ensures Plain(now, App(Application, n, Live))
    {
      assert Same(before, App(Install, n, Live), now, App(Application, n, Live));
    }
    forall s | s in SUFFIXES
      ensures COPY.At(s, Live) in now ==> now[COPY.At(s, Live)].File?
      ensures DATABASE.At(s, RestoreTmp) in now ==> !now[DATABASE.At(s, RestoreTmp)].Dir?
    {
      assert Same(backed, COPY.At(s, Live), now, COPY.At(s, Live));
      assert Same(before, DATABASE.At(s, RestoreTmp), now, DATABASE.At(s, RestoreTmp));
    }
    assert Same(backed, COPY.At("", Live), now, COPY.At("", Live));
  }

  lemma SavableKept(before: Files, files: Files, exe: string)
    requires Within(before, files, Paths(COPY, SUFFIXES, {Live}))
    ensures Savable(before, exe) ==>
      CanCopy(before, DATABASE, COPY, SUFFIXES, Live) && forall n | n in Names(exe) ::
        Plain(files, App(Install, n, Live))
    ensures forall n :: Same(before, App(Install, n, Live), files, App(Install, n, Live))
  {
    forall n
      ensures Same(before, App(Install, n, Live), files, App(Install, n, Live))
    {
    }
  }

  lemma SavesStay(before: Files, files: Files, now: Files)
    requires Within(files, now, Everything(Application))
    ensures DatabaseSaved(before, files) <==> DatabaseSaved(before, now)
  {
    forall s | s in SUFFIXES
      ensures Same(files, COPY.At(s, Live), now, COPY.At(s, Live))
    {
    }
  }

  lemma CopiesStay(before: Files, files: Files, now: Files)
    requires BackupLeaves(before, files, DATABASE, COPY, SUFFIXES) && Within(files, now, Everything(Application))
    ensures BackupLeaves(before, now, DATABASE, COPY, SUFFIXES)
  {
    var kept: set<string> :| "" !in kept && AllCopiedOrKept(before, files, DATABASE, COPY, SUFFIXES, kept);
    forall s | s in SUFFIXES
      ensures CopiedOrKept(before, now, DATABASE, COPY, s, kept)
    {
      assert CopiedOrKept(before, files, DATABASE, COPY, s, kept);
      assert Same(files, COPY.At(s, Live), now, COPY.At(s, Live));
    }
    assert AllCopiedOrKept(before, now, DATABASE, COPY, SUFFIXES, kept);
  }

  /** No copy of a database file stands there that the database does not have. */
  predicate Fresh(files: Files) {
    NoStale(files, DATABASE, COPY, SUFFIXES)
  }

  /** `valid` tells whether the signature, the compatibility and the digests of the package are accepted; `exact` is
      false when a stale database copy outlived its unchecked removal. */
  method Save(disk: Disk, exe: string, valid: bool) returns (saved: bool, ghost exact: bool)
    requires disk.Valid()
    modifies disk
    ensures disk.Valid() && old(disk.trace) <= disk.trace
    ensures disk.Since(|old(disk.trace)|, old(disk.files), Saves())
    ensures saved ==> ProgramSaved(old(disk.files), disk.files, exe)
    ensures saved ==> BackupLeaves(old(disk.files), disk.files, DATABASE, COPY, SUFFIXES)
    ensures saved ==> (DatabaseSaved(old(disk.files), disk.files) <==> exact)
    ensures Fresh(old(disk.files)) ==> exact
    ensures disk.Counted(old(disk.faults), old(disk.slips)) && (!exact ==> old(disk.slips) < disk.slips)
    ensures !valid ==> !saved
    ensures saved && disk.faults == old(disk.faults) && Savable(old(disk.files), exe) && NoScratch(old(disk.files)) ==>
      Restorable(disk.files, exe)
    ensures !saved ==> old(disk.faults) < disk.faults || !valid || !Savable(old(disk.files), exe)
  {
    hide Restorable, CanCopy;
    ghost var mark, before := |disk.trace|, disk.files;
    var kept;
    saved, kept := BackupStoppedDatabase(disk, DATABASE, COPY, SUFFIXES);
    exact := saved ==> DatabaseSaved(before, disk.files);
    SavableKept(before, disk.files, exe);
    if saved {
      ghost var files, trace := disk.files, disk.trace;
      if Fresh(before) || kept == {} {
        BackupExact(before, files, DATABASE, COPY, SUFFIXES, kept);
      }
      if !valid {
        return false, exact;
      }
      saved := Backup(disk, exe);
      Chain(mark, before, trace, Saves(), files, disk.trace, disk.files, Everything(Application));
      SavesStay(before, files, disk.files);
      CopiesStay(before, files, disk.files);
      if saved && disk.faults == old(disk.faults) && Savable(before, exe) && NoScratch(before) {
        assert CopiedOrKept(before, files, DATABASE, COPY, "", {});
        SavedIsRestorable(before, files, disk.files, exe);
      }
    }
  }

  // ---- Which restores are exact whatever fails ----

  /** Neither what stands in the scratch directory of the name nor what the package may put there is foreign to the tree
      at `at`. */
  predicate Contained(files: Files, name: string, at: Path) {
    at in files && files[at].Dir? ==> Scratch(files, name).Keys + PackageKeys(files, name) <= files[at].entries.Keys
  }

  /** No scratch directory can spoil a restore of the present program. */
  predicate Calm(files: Files, exe: string) {
    forall n | n in Names(exe) :: Contained(files, n, App(Install, n, Live))
  }

  /** No scratch directory can spoil a restore from the backups, now or later. */
  predicate Quiet(files: Files, exe: string) {
    forall n | n in Names(exe) :: Contained(files, n, App(Application, n, Live))
  }

  lemma SavedIsQuiet(before: Files, now: Files, exe: string)
    requires Calm(before, exe) && ProgramSaved(before, now, exe)
    requires forall n :: Scratch(before, n) == Scratch(now, n) && PackageKeys(before, n) == PackageKeys(now, n)
    ensures Quiet(now, exe)
  {
    forall n | n in Names(exe)
      ensures Contained(now, n, App(Application, n, Live))
    {
      assert Contained(before, n, App(Install, n, Live));
      assert Same(before, App(Install, n, Live), now, App(Application, n, Live));
    }
  }

  lemma ApartFromSaves(before: Files, now: Files)
    requires Within(before, now, Saves())
    ensures forall n :: Scratch(before, n) == Scratch(now, n) && PackageKeys(before, n) == PackageKeys(now, n)
  {
    forall n
      ensures Scratch(before, n) == Scratch(now, n) && PackageKeys(before, n) == PackageKeys(now, n)
    {
      assert Same(before, App(Install, n, UpdateNew), now, App(Install, n, UpdateNew));
      assert Same(before, App(Staging, n, Live), now, App(Staging, n, Live));
    }
  }

  lemma QuietKept(from: Files, now: Files, exe: string)
    requires Quiet(from, exe) && Within(from, now, Open(exe)) && Bounded(from, now)
    ensures Quiet(now, exe)
  {
    hide Within;
    SourcesStay(from, now, exe);
    forall n | n in Names(exe)
      ensures Contained(now, n, App(Application, n, Live))
    {
      assert Contained(from, n, App(Application, n, Live));
      assert Scratch(now, n).Keys <= Bound(from, n);
    }
  }

  lemma SourcesStay(from: Files, now: Files, exe: string)
    requires Within(from, now, Open(exe))
    ensures forall n :: Same(from, App(Application, n, Live), now, App(Application, n, Live))
    ensures forall n :: PackageKeys(from, n) == PackageKeys(now, n)
  {
    forall n
      ensures Same(from, App(Application, n, Live), now, App(Application, n, Live))
      ensures PackageKeys(from, n) == PackageKeys(now, n)
    {
      assert Same(from, App(Staging, n, Live), now, App(Staging, n, Live));
    }
  }

  lemma QuietIsTidy(files: Files, exe: string)
    requires Quiet(files, exe)
    ensures forall n | n in Names(exe) :: TidyName(files, n)
  {
    forall n | n in Names(exe)
      ensures TidyName(files, n)
    {
      assert Contained(files, n, App(Application, n, Live));
    }
  }

  /** A replacement cut short by a power loss, and any number of restores cut short in the same way. */
  method InterruptedWork(disk: Disk, exe: string, interruptions: nat)
    requires disk.Valid()
    modifies disk
    ensures disk.Valid() && Within(old(disk.files), disk.files, Open(exe)) && Bounded(old(disk.files), disk.files)
    ensures disk.Counted(old(disk.faults), old(disk.slips))
  {
    hide ReplaceLeaves, RestoreLeaves, NewProgram, Complete, Restorable, Exact, Bounded;
    ghost var before := disk.files;
    BoundedAtFirst(before);
    var start := |disk.trace|;
    var _ := Replace(disk, exe);
    disk.PowerLoss(start);
    for i := 0 to interruptions
      invariant disk.Valid() && Within(before, disk.files, Open(exe)) && Bounded(before, disk.files)
      invariant disk.Counted(old(disk.faults), old(disk.slips))
    {
      ghost var now := disk.files;
      var mark := |disk.trace|;
      BoundedAtFirst(now);
      var _ := Restore(disk, exe);
      disk.PowerLoss(mark);
      BoundStays(before, now, exe);
      BoundedOver(before, now, disk.files);
      WithinTrans(before, now, disk.files, Open(exe), Open(exe), Open(exe));
    }
  }

  /** Backs everything up, replaces until power fails, restores with power failing any number of times, and then
      restores to the end. Whatever fails, every managed name is back if the scratch directories could not spoil a
      restore before the call, or at least not before the last restore, whose first state is `broken`; and so it is
      without a slip in that restore (`steady`). The database is back if there was no stale copy, and without a slip of
      the backup (`exact`). Nothing else has changed. */
  method InterruptedUpdate(disk: Disk, exe: string, valid: bool, interruptions: nat)
    returns (saved: bool, ok: bool, ghost exact: bool, ghost steady: bool, ghost broken: Files)
    requires disk.Valid()
    modifies disk
    ensures disk.Valid() && Within(old(disk.files), disk.files, Open(exe) + Saves())
    ensures saved && ok ==> RestoreLeaves(broken, disk.files, exe) && ProgramSaved(old(disk.files), broken, exe)
    ensures saved && ok ==> forall n | n in Names(exe) && TidyName(broken, n) ::
      Same(old(disk.files), App(Install, n, Live), disk.files, App(Install, n, Live))
    ensures saved && ok && (Calm(old(disk.files), exe) || steady) ==> OldProgram(old(disk.files), disk.files, exe)
    ensures saved && ok && exact ==> SameDatabase(old(disk.files), DATABASE, disk.files, DATABASE, SUFFIXES)
    ensures Fresh(old(disk.files)) ==> exact
    ensures disk.Counted(old(disk.faults), old(disk.slips)) && (!exact || !steady ==> old(disk.slips) < disk.slips)
  {
    hide RestoreLeaves, Bounded, Calm, Quiet, Fresh;
    ghost var before := disk.files;
    ok, steady, broken := false, true, before;
    saved, exact := Save(disk, exe, valid);
    if !saved {
      return;
    }
    ghost var backed := disk.files;
    ApartFromSaves(before, backed);
    InterruptedWork(disk, exe, interruptions);
    broken := disk.files;
    if Calm(before, exe) {
      SavedIsQuiet(before, backed, exe);
      QuietKept(backed, broken, exe);
      QuietIsTidy(broken, exe);
    }
    ghost var slips := disk.slips;
    WithinTrans(before, backed, broken, Saves(), Open(exe), Open(exe) + Saves());
    ok := Restore(disk, exe);
    steady := disk.slips == slips;
    WithinTrans(before, broken, disk.files, Open(exe) + Saves(), Open(exe), Open(exe) + Saves());
    if ok {
      SavesSurvive(before, backed, broken, exe);
      RestoredFromSaved(before, broken, disk.files, exe);
    }
  }

  lemma SavesSurvive(before: Files, backed: Files, broken: Files, exe: string)
    requires Within(backed, broken, Open(exe))
    ensures DatabaseSaved(before, backed) ==> DatabaseSaved(before, broken)
    ensures ProgramSaved(before, backed, exe) ==> ProgramSaved(before, broken, exe)
  {
    forall s | s in SUFFIXES
      ensures Same(backed, COPY.At(s, Live), broken, COPY.At(s, Live))
    {
    }
    forall n | n in Names(exe)
      ensures Same(backed, App(Application, n, Live), broken, App(Application, n, Live))
    {
    }
  }

  lemma RestoredFromSaved(before: Files, broken: Files, now: Files, exe: string)
    requires ProgramSaved(before, broken, exe) && RestoreLeaves(broken, now, exe)
    ensures forall n | n in Names(exe) :: Exact(broken, now, n) ==>
      Same(before, App(Install, n, Live), now, App(Install, n, Live))
    ensures forall n | n in Names(exe) && TidyName(broken, n) :: Exact(broken, now, n)
    ensures DatabaseSaved(before, broken) ==> SameDatabase(before, DATABASE, now, DATABASE, SUFFIXES)
  {
    forall n | n in Names(exe) && TidyName(broken, n)
      ensures Exact(broken, now, n)
    {
      assert RestoredFrom(broken, now, n);
      var copy := App(Application, n, Live);
      if copy in broken && broken[copy].Dir? {
        DirExactIff(broken, copy, n);
      }
    }
  }

  // ---- The failures, step by step ----

  /** A restore of `static` in which the stale scratch directory cannot be removed: it is overlaid with the backup and
      moved in, and the restored directory has an entry that the backup lacks. */
  lemma StaleTreeMerged()
    ensures
      var live, scratch, aside :=
        App(Install, "static", Live), App(Install, "static", UpdateNew), App(Install, "static", UpdateOld);
      var copy := App(Application, "static", Live);
      var disk :=
        map[live := Dir(map["new.js" := "2"]), scratch := Dir(map["stale.js" := "1"]), copy :=
          Dir(map["old.js" := "1"])];
      var overlaid := Overlaid(disk, copy, scratch);
      var restored := Renamed(Renamed(overlaid, live, aside), scratch, live) - {aside};
      && !TidyName(disk, "static")
      && RestoredFrom(disk, restored, "static") && !Exact(disk, restored, "static")
      && restored[live] == Dir(map["stale.js" := "1", "old.js" := "1"])
  {
    var live, scratch, aside :=
      App(Install, "static", Live), App(Install, "static", UpdateNew), App(Install, "static", UpdateOld);
    var copy := App(Application, "static", Live);
    var disk :=
      map[live := Dir(map["new.js" := "2"]), scratch := Dir(map["stale.js" := "1"]), copy := Dir(map["old.js" := "1"])];
    var left := map["stale.js" := "1"];
    var restored := Renamed(Renamed(Overlaid(disk, copy, scratch), live, aside), scratch, live) - {aside};
    assert Merged(left, map["old.js" := "1"]) == map["stale.js" := "1", "old.js" := "1"];
    assert restored[live] == Dir(map["stale.js" := "1", "old.js" := "1"]);
    assert ReplacedOver(disk, restored, copy, "static", left);
    assert "stale.js" in map["stale.js" := "1", "old.js" := "1"] && "stale.js" !in map["old.js" := "1"];
    assert "stale.js" in Scratch(disk, "static");
  }

  /** A replacement that cannot look at the package's updater: the program and its directory are new, the updater is the
      old one, and the replacement reports success. */
  lemma FileSkipped()
    ensures
      var exe, updater := "keeper.exe", "ctyun-keeper-updater.exe";
      var tree := Dir(map["app.js" := "2"]);
      var disk := map[
        App(Install, exe, Live) := File("1"), App(Install, updater, Live) := File("1"),
        App(Staging, exe, Live) := File("2"), App(Staging, updater, Live) := File("2"), App(Staging, "static", Live) :=
          tree];
      var replaced := disk[App(Install, exe, Live) := File("2")][App(Install, "static", Live) := tree];
      Complete(disk, exe) && !Dispensable(disk, updater) && ReplaceLeaves(disk, replaced, exe)
        && !NewProgram(disk, replaced, exe)
  {
    var exe, updater := "keeper.exe", "ctyun-keeper-updater.exe";
    var tree := Dir(map["app.js" := "2"]);
    var disk := map[
      App(Install, exe, Live) := File("1"), App(Install, updater, Live) := File("1"),
      App(Staging, exe, Live) := File("2"), App(Staging, updater, Live) := File("2"), App(Staging, "static", Live) :=
        tree];
    var replaced := disk[App(Install, exe, Live) := File("2")][App(Install, "static", Live) := tree];
    assert Merged(map[], tree.entries) == tree.entries;
    assert ReplacedOver(disk, replaced, App(Staging, "static", Live), "static", map[]);
    assert !Placed(disk, replaced, updater);
    forall n | n in Names(exe) && n != exe && n != "static"
      ensures PlacedOrSkipped(disk, replaced, n)
    {
      assert App(Install, n, Live) in disk <==> App(Install, n, Live) in replaced;
    }
  }
}
