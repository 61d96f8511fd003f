/** The disk as the updaters see it: a map from paths to nodes, changed by file-system calls that may fail, and
    a trace of every state that has been durable. A power loss leaves the disk in one of the traced states. */
module Disk {

  import opened Options

  /** `Live` is the name itself; the others are the scratch names that the updaters derive from it by appending
      `.update-new`, `.update-old`, `.restore-tmp` or `.restore-old`. */
  datatype Role = Live | UpdateNew | UpdateOld | RestoreTmp | RestoreOld

  /** The directories of an update: the installation, the backup of its program files, the unpacked package, the
      data directory, the backup of the database, and the directory of journals and results. */
  datatype Place = Install | Application | Staging | Data | DatabaseCopy | Updates

  /** `name + suffix` is an entry of the directory `place`. A database is one name with several suffixes. */
  datatype Path = Path(place: Place, name: string, suffix: string, role: Role)

  datatype Base = Base(place: Place, name: string) {
    function At(suffix: string, role: Role): Path {
      Path(place, name, suffix, role)
    }
  }

  datatype Status = Success | Failed | RolledBack

  /** `ours` tells whether the lock record carries the token of the one transaction that is looked at. */
  datatype Node =
    | File(data: string)
    | Dir(entries: map<string, string>)
    | Journal(exe: string, completed: Option<Status>)
    | Result(status: Status)
    | Lock(ours: bool)

  type Files = map<Path, Node>

  datatype Stat = Present(isDir: bool) | Absent | Unreadable

  /** `q` in `b` holds exactly what `p` holds in `a`: both absent, or both present and equal. */
  ghost predicate Same(a: Files, p: Path, b: Files, q: Path) {
    (p in a <==> q in b) && (p in a ==> a[p] == b[q])
  }

  /** `a` and `b` differ at most in the paths of `touched`. */
  ghost predicate Within(a: Files, b: Files, touched: iset<Path>) {
    forall p {:trigger p in a} {:trigger p in b} {:trigger Same(a, p, b, p)} | p !in touched :: Same(a, p, b, p)
  }

  ghost predicate AllWithin(mark: nat, from: Files, trace: seq<Files>, touched: iset<Path>) {
    mark <= |trace| && forall i | mark <= i < |trace| :: Within(from, trace[i], touched)
  }

  /** Every path of a directory. */
  ghost function Everything(place: Place): iset<Path> {
    iset p: Path | p.place == place
  }

  class Disk {
    var files: Files
    var trace: seq<Files>
    var faults: nat // how many calls have failed without a reason in the files
    var slips: nat // how many of these failures were passed over although what follows relies on the call

    ghost predicate Valid()
      reads this
    {
      |trace| > 0 && trace[|trace| - 1] == files
    }

    /** Everything durable since the trace had length `mark`, and the current state, differs from `from` only in
        `touched`. */
    ghost predicate Since(mark: nat, from: Files, touched: iset<Path>)
      reads this
    {
      && Within(from, files, touched)
      && AllWithin(mark, from, trace, touched)
    }

    /** Both counters have only gone up, and every slip is a fault. */
    ghost predicate Counted(faults: nat, slips: nat)
      reads this
    {
      slips <= this.slips && this.slips - slips <= this.faults - faults
    }

    constructor (files: Files)
      ensures Valid() && this.files == files
    {
      this.files := files;
      trace := [files];
      faults, slips := 0, 0;
    }

    method Slip()
      modifies this`slips
      ensures slips == old(slips) + 1
    {
      slips := slips + 1;
    }

    /** Power fails at some moment after the trace had length `mark`; `mark - 1` is the last state before that. */
    method PowerLoss(mark: nat)
      requires Valid() && 0 < mark <= |trace|
      modifies this`files, this`trace
      ensures Valid() && old(trace) <= trace
      ensures exists i :: mark - 1 <= i < |old(trace)| && files == old(trace)[i]
      ensures trace == old(trace) + [files]
    {
      var i: nat :| mark - 1 <= i < |trace|;
      files := trace[i];
      trace := trace + [files];
    }

    method Commit(next: Files)
      modifies this`files, this`trace
      ensures Valid() && files == next && trace == old(trace) + [next]
    {
      files := next;
      trace := trace + [next];
    }

    method Stat(p: Path) returns (r: Stat)
      modifies this`faults
      ensures faults == old(faults) + if r.Unreadable? then 1 else 0
      ensures r.Present? ==> p in files && r.isDir == files[p].Dir?
      ensures r.Absent? ==> p !in files
    {
      if * {
        r := Unreadable;
        faults := faults + 1;
      } else {
        r := if p in files then Present(files[p].Dir?) else Absent;
      }
    }

    method Read(p: Path) returns (r: Option<Node>)
      modifies this`faults
      ensures old(faults) <= faults
      ensures if r.Some? then p in files && r.value == files[p] else p !in files || old(faults) < faults
    {
      if p !in files {
        return None;
      }
      if * {
        faults := faults + 1;
        return None;
      }
      r := Some(files[p]);
    }

    /** Replaces one file atomically (write to a temporary, sync, rename). */
    method Write(p: Path, node: Node) returns (ok: bool)
      requires Valid()
      modifies this`files, this`trace, this`faults
      ensures Valid() && old(trace) <= trace && Since(|old(trace)|, old(files), iset{p})
      ensures files == if ok then old(files)[p := node] else old(files)
      ensures !ok ==> trace == old(trace)
      ensures forall i :: |old(trace)| <= i < |trace| ==> trace[i] == files
      ensures faults == old(faults) + if ok then 0 else 1
    {
      if * {
        faults := faults + 1;
        return false;
      }
      Commit(files[p := node]);
      ok := true;
    }

    /** Truncates one file and fills it; a failure or a crash may leave it cut short. */
    method Overwrite(p: Path, node: Node) returns (ok: bool)
      requires Valid()
      modifies this`files, this`trace, this`faults
      ensures Valid() && old(trace) <= trace && Since(|old(trace)|, old(files), iset{p})
      ensures ok ==> files == old(files)[p := node]
      ensures faults == old(faults) + if ok then 0 else 1
    {
      if * {
        var partial: string := *;
        Commit(files[p := File(partial)]);
      }
      if * {
        faults := faults + 1;
        return false;
      }
      Commit(files[p := node]);
      ok := true;
    }

    method Remove(p: Path) returns (ok: bool)
      requires Valid()
      modifies this`files, this`trace, this`faults
      ensures Valid() && old(trace) <= trace && Since(|old(trace)|, old(files), iset{p})
      ensures files == if ok then old(files) - {p} else old(files)
      ensures forall i :: |old(trace)| <= i < |trace| ==> trace[i] == files
      ensures faults == old(faults) + if ok then 0 else 1
    {
      if * {
        faults := faults + 1;
        return false;
      }
      Commit(files - {p});
      ok := true;
    }

    /** Removes a file or a tree. A tree disappears piece by piece, and a failed removal leaves what it has not
        removed. */
    method RemoveAll(p: Path) returns (ok: bool)
      requires Valid()
      modifies this`files, this`trace, this`faults
      ensures Valid() && old(trace) <= trace && Since(|old(trace)|, old(files), iset{p})
      ensures ok ==> p !in files
      ensures forall i | |old(trace)| <= i < |trace| :: p in trace[i] ==>
        p in old(files) && PartOfNode(trace[i][p], old(files)[p])
      ensures p in files ==> p in old(files) && PartOfNode(files[p], old(files)[p])
      ensures faults == old(faults) + if ok then 0 else 1
    {
      if p in files && files[p].Dir? {
        if * {
          var rest := files[p].entries;
          var kept :| kept <= rest.Keys;
          Commit(files[p := Dir(map k | k in kept :: rest[k])]);
        }
      }
      if * {
        faults := faults + 1;
        return false;
      }
      Commit(files - {p});
      ok := true;
    }

    /** Removes a whole directory; a failed removal may leave part of it. */
    method RemovePlace(place: Place) returns (ok: bool)
      requires Valid()
      modifies this`files, this`trace, this`faults
      ensures Valid() && old(trace) <= trace && Since(|old(trace)|, old(files), Everything(place))
      ensures ok ==> forall p: Path | p.place == place :: p !in files
      ensures faults == old(faults) + if ok then 0 else 1
    {
      if * {
        var kept :| kept <= files.Keys;
        Commit(map p | p in files && (p.place != place || p in kept) :: files[p]);
      }
      if * {
        faults := faults + 1;
        return false;
      }
      Commit(map p | p in files && p.place != place :: files[p]);
      ok := true;
    }

    method Rename(p: Path, q: Path) returns (ok: bool)
      requires Valid()
      modifies this`files, this`trace, this`faults
      ensures Valid() && old(trace) <= trace && Since(|old(trace)|, old(files), iset{p, q})
      ensures ok ==> p in old(files) && files == Renamed(old(files), p, q)
      ensures !ok ==> files == old(files)
      ensures forall i :: |old(trace)| <= i < |trace| ==> trace[i] == files
      ensures old(faults) <= faults && (!ok ==> p !in old(files) || old(faults) < faults)
    {
      if p !in files {
        return false;
      }
      if * {
        faults := faults + 1;
        return false;
      }
      Commit(Renamed(files, p, q));
      ok := true;
    }

    /** Truncates the target and fills it; it refuses anything but a regular file. */
    method CopyFile(p: Path, q: Path) returns (ok: bool)
      requires Valid() && p != q
      modifies this`files, this`trace, this`faults
      ensures Valid() && old(trace) <= trace && Since(|old(trace)|, old(files), iset{q})
      ensures ok ==> p in old(files) && old(files)[p].File? && files == old(files)[q := old(files)[p]]
      ensures forall i | |old(trace)| <= i < |trace| :: q in trace[i] && trace[i][q].File?
      ensures old(faults) <= faults && (!ok ==> !Copyable(old(files), p, q) || old(faults) < faults)
    {
      if p !in files || !files[p].File? || (q in files && files[q].Dir?) {
        return false;
      }
      if * {
        var partial: string := *;
        Commit(files[q := File(partial)]);
      }
      if * {
        faults := faults + 1;
        return false;
      }
      Commit(files[q := files[p]]);
      ok := true;
    }

    /** Copies a tree entry by entry over whatever directory is already there. */
    method CopyDir(p: Path, q: Path) returns (ok: bool)
      requires Valid() && p != q
      modifies this`files, this`trace, this`faults
      ensures Valid() && old(trace) <= trace && Since(|old(trace)|, old(files), iset{q})
      ensures ok ==>
        && p in old(files) && old(files)[p].Dir?
        && (q in old(files) ==> old(files)[q].Dir?)
        && files == Overlaid(old(files), p, q)
      ensures forall i | |old(trace)| <= i < |trace| ::
        p in old(files) && old(files)[p].Dir? && q in trace[i] && trace[i][q].Dir?
        && trace[i][q].entries.Keys <= Entries(old(files), q).Keys + old(files)[p].entries.Keys
      ensures old(faults) <= faults && (!ok ==> !DirCopyable(old(files), p, q) || old(faults) < faults)
    {
      if p !in files || !files[p].Dir? || (q in files && !files[q].Dir?) {
        return false;
      }
      var clean := files;
      var source := clean[p].entries;
      if * {
        var done :| done <= source.Keys;
        Commit(clean[q := Dir(Entries(clean, q) + (map k | k in done :: source[k]))]);
      }
      if * {
        faults := faults + 1;
        return false;
      }
      Commit(Overlaid(clean, p, q));
      ok := true;
    }
  }

  /** What a removal may leave of a node. */
  predicate PartOfNode(rest: Node, whole: Node) {
    if whole.Dir? then rest.Dir? && PartOfTree(rest.entries, whole.entries) else rest == whole
  }

  predicate PartOfTree(rest: map<string, string>, whole: map<string, string>) {
    rest.Keys <= whole.Keys && forall k | k in rest :: rest[k] == whole[k]
  }

  function Renamed(files: Files, p: Path, q: Path): Files
    requires p in files
  {
    (files - {p})[q := files[p]]
  }

  /** The tree at `p` copied over whatever directory stands at `q`. */
  function Overlaid(files: Files, p: Path, q: Path): Files
    requires p in files && files[p].Dir?
  {
    files[q := Dir(Merged(Entries(files, q), files[p].entries))]
  }

  predicate Copyable(files: Files, p: Path, q: Path) {
    p in files && files[p].File? && (q in files ==> !files[q].Dir?)
  }

  predicate DirCopyable(files: Files, p: Path, q: Path) {
    p in files && files[p].Dir? && (q in files ==> files[q].Dir?)
  }

  /** The entries of the directory at `p`, none when there is no directory. */
  function Entries(files: Files, p: Path): map<string, string> {
    if p in files && files[p].Dir? then files[p].entries else map[]
  }

  function Merged(under: map<string, string>, over: map<string, string>): map<string, string> {
    under + over
  }

  /** Copying a tree over a leftover directory gives the tree itself exactly when the leftover has no entry of its
      own. */
  lemma MergeIsCopyIff(under: map<string, string>, over: map<string, string>)
    ensures Merged(under, over) == over <==> under.Keys <= over.Keys
  {
    if Merged(under, over) == over {
      assert (under + over).Keys == under.Keys + over.Keys;
    }
  }

  lemma WithinTrans(a: Files, b: Files, c: Files, s: iset<Path>, t: iset<Path>, all: iset<Path>)
    requires Within(a, b, s) && Within(b, c, t) && s <= all && t <= all
    ensures Within(a, c, all)
  {
    forall p | p !in all
      ensures Same(a, p, c, p)
    {
      assert p !in s && p !in t;
      assert Same(a, p, b, p) && Same(b, p, c, p);
    }
  }

  lemma WithinMore(a: Files, b: Files, some: iset<Path>, more: iset<Path>)
    requires Within(a, b, some) && some <= more
    ensures Within(a, b, more)
  {
  }

  /** Two stretches of durable states compose: the second starts from `b`, which the first ends in. */
  lemma Chain(mark: nat, from: Files, trace: seq<Files>, all: iset<Path>, b: Files, trace': seq<Files>,
              c: Files, touched: iset<Path>)
    requires AllWithin(mark, from, trace, all) && Within(from, b, all)
    requires trace <= trace' && AllWithin(|trace|, b, trace', touched) && Within(b, c, touched) && touched <= all
    ensures AllWithin(mark, from, trace', all) && Within(from, c, all)
  {
    WithinTrans(from, b, c, all, touched, all);
    forall i | mark <= i < |trace'|
      ensures Within(from, trace'[i], all)
    {
      if i < |trace| {
        assert trace'[i] == trace[i];
      } else {
        WithinTrans(from, b, trace'[i], all, touched, all);
      }
    }
  }
}
