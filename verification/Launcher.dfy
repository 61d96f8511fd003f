/** The Docker launcher: it selects a version, journals every switch, starts the program, and commits or rolls
    back; a restart replays the journal. The database is abstracted to the highest version that has written it. */
module Launcher {
  import opened Options

  /** The built-in version of the image or an installed version directory. */
  datatype Dir = Builtin | Slot(version: nat)

  /** A backup of the database, filed under the version that wrote it or under an image transaction. */
  datatype Copy = ByVersion(version: nat) | Image(id: nat)

  datatype Status = Success | Failed | RolledBack

  /** `pending.json`. */
  datatype Pending = Pending(
    id: nat, image: bool, from: nat, to: nat, previous: Dir, target: Dir, backup: Option<Copy>,
    targetDatabase: Option<Copy>, recovery: bool, noFallback: bool, status: Status, completed: Option<Status>)

  /** A program start: what was started, on a database written by whom, under which journal, and the transactions
      that had had a recovery journal by then. */
  datatype Start = Start(dir: Dir, version: nat, database: Option<nat>, journal: Option<Pending>, recovering: set<nat>)

  /** What the theorems speak about and no program reads. `proved` says under which transactions, and whether under
      their recovery, a program has proved healthy. The flags record that the surroundings broke an
      assumption: a transaction without the copies it needs (`bare`), a request that goes down or replaces the running
      version's own directory (`downward`), an older image (`lowered`). */
  datatype History = History(
    starts: seq<Start>, used: set<nat>, recovering: set<nat>, closed: set<nat>, switched: set<nat>,
    proved: set<(nat, bool)>, bare: bool, downward: bool, lowered: bool)

  const NOTHING: History := History([], {}, {}, {}, {}, {}, false, false, false)

  /** A manager's own token or that of a request; a request and its transaction have one number. */
  datatype Token = Own | Of(id: nat)

  /** `update.lock`: `launcher` tells whether the recorded process is the launcher, which outlives every program. */
  datatype Lock = Free | Unreadable | Held(launcher: bool, token: Token)

  datatype State = State(
    builtin: nat, slots: set<nat>, link: Option<Dir>, database: Option<nat>, copies: map<Copy, nat>,
    journal: Option<Pending>, results: map<nat, Status>, lock: Lock, past: History)

  /** While the launcher has a transaction in memory the lock carries its token; a token that a program has put there
      belongs to no transaction yet. */
  predicate Locked(s: State, pending: Option<Pending>) {
    && (pending.Some? ==> s.lock == Held(true, Of(pending.value.id)))
    && (s.lock.Held? && !s.lock.launcher && s.lock.token.Of? ==> s.lock.token.id !in s.past.used)
  }

  /** A manager that asks is refused: the record is unreadable or its process is the launcher. */
  predicate Refuses(lock: Lock) {
    lock.Unreadable? || (lock.Held? && lock.launcher)
  }

  function VersionOf(s: State, dir: Dir): nat {
    match dir case Builtin => s.builtin case Slot(v) => v
  }

  /** The directory the link leads to, if it exists. */
  function Resolve(s: State): Option<Dir> {
    match s.link
    case Some(Slot(v)) => if v in s.slots then Some(Slot(v)) else None
    case _ => s.link
  }

  function Current(s: State): Dir {
    match Resolve(s) case Some(d) => d case None => Builtin
  }

  predicate Fits(database: Option<nat>, version: nat) {
    database.Some? ==> database.value <= version
  }

  ghost predicate Assumed(s: State) {
    !s.past.bare && !s.past.downward && !s.past.lowered
  }

  /** The program never meets a database of a higher version, and no failed version comes back once the recovery of
      its transaction is durable. */
  ghost predicate SafeStart(e: Start) {
    && Fits(e.database, e.version)
    && (e.journal.Some? && e.journal.value.id in e.recovering ==>
      e.journal.value.recovery && e.dir == e.journal.value.previous)
  }

  /** What an open transaction guarantees about the copies and the database. */
  ghost predicate Journaled(s: State, t: Pending) {
    && (t.previous.Slot? ==> t.previous.version == t.from)
    && (t.target.Slot? ==> t.target.version == if t.recovery then t.from else t.to)
    && (t.recovery ==> t.target == t.previous && t.targetDatabase.None?)
    && BackupFits(s, t)
    && (t.targetDatabase.Some? ==> t.targetDatabase.value == ByVersion(t.to))
    && (t.recovery ==> Fits(s.database, t.from))
    && (!t.recovery && t.targetDatabase.None? ==> t.from <= t.to && Fits(s.database, t.to))
    && t.id in s.past.used && t.id !in s.past.closed
    && (t.id in s.past.recovering <==> t.recovery)
    && t.status == (if !t.recovery then Success else if t.noFallback then Failed else RolledBack)
    && Earned(s, t)
  }

  /** A completion marker has the transaction's status, and the program has proved healthy under it. */
  ghost predicate Earned(s: State, t: Pending) {
    t.completed.Some? ==> t.completed.value == t.status && (t.id, t.recovery) in s.past.proved
  }

  ghost predicate BackupFits(s: State, t: Pending) {
    && t.backup.Some?
    && (t.backup.value == ByVersion(t.from) || t.backup.value == Image(t.id))
    && (t.backup.value in s.copies ==> s.copies[t.backup.value] <= t.from)
  }

  ghost predicate CopiesFit(s: State) {
    forall v | ByVersion(v) in s.copies :: s.copies[ByVersion(v)] <= v
  }

  /** No switched transaction is forgotten: it still has its journal, or its result has been written. */
  ghost predicate Accounted(s: State) {
    forall id | id in s.past.switched :: id in s.results || (s.journal.Some? && s.journal.value.id == id)
  }

  /** A reported success is of a new version that proved healthy, a reported rollback of a journaled recovery whose
      previous version did. A success that was reported before its recovery was journaled stands only until the recovery
      is over. */
  ghost predicate Told(s: State) {
    forall id | id in s.results ::
      && (s.results[id] == Success ==> (id, false) in s.past.proved)
      && (s.results[id] == RolledBack ==> id in s.past.recovering && (id, true) in s.past.proved)
      && (s.results[id] == Success && id in s.past.recovering ==> s.journal.Some? && s.journal.value.id == id)
  }

  predicate Succeeded(s: State, id: nat) {
    id in s.results && s.results[id] == Success
  }

  /** Once the recovery of a transaction is journaled no success is reported for it. */
  ghost predicate NoLateSuccess(a: State, b: State) {
    forall id | id in a.past.recovering && Succeeded(b, id) :: Succeeded(a, id)
  }

  ghost predicate Inv(s: State) {
    && CopiesFit(s)
    && (s.link.Some? && s.link.value.Slot? ==> s.link.value.version in s.slots)
    && (s.journal.None? ==> Fits(s.database, VersionOf(s, Current(s))))
    && (s.journal.Some? ==> Journaled(s, s.journal.value))
    && Accounted(s) && Told(s)
    && s.past.switched <= s.past.used && s.past.recovering <= s.past.used && s.past.closed <= s.past.used
    && forall e | e in s.past.starts :: SafeStart(e)
  }

  /** Holds of every durable state. */
  ghost predicate Ok(s: State) {
    Assumed(s) ==> Inv(s)
  }

  /** History is only added to. */
  ghost predicate Grows(a: State, b: State) {
    && a.past.starts <= b.past.starts
    && a.past.used <= b.past.used && a.past.recovering <= b.past.recovering
    && a.past.closed <= b.past.closed && a.past.switched <= b.past.switched && a.past.proved <= b.past.proved
    && (Assumed(b) ==> Assumed(a) && NoLateSuccess(a, b))
  }

  /** Every state is sound and follows from the one before it. */
  ghost predicate Traced(trace: seq<State>) {
    && (forall i | 0 <= i < |trace| :: Ok(trace[i]))
    && (forall i | 0 < i < |trace| :: Grows(trace[i - 1], trace[i]))
  }

  lemma {:induction false} GrowsOver(trace: seq<State>, i: nat, j: nat)
    requires Traced(trace) && i <= j < |trace|
    ensures Grows(trace[i], trace[j])
    decreases j - i
  {
    if i < j {
      GrowsOver(trace, i, j - 1);
      assert Grows(trace[j - 1], trace[j]);
    }
  }

  /** The phase of a transaction only moves forward: after a recovery journal no forward journal, and after the
      journal was closed or replaced none at all. */
  lemma PhaseForward(trace: seq<State>, i: nat, j: nat, t: Pending)
    requires Traced(trace) && i <= j < |trace| && Assumed(trace[j])
    requires trace[j].journal == Some(t)
    ensures trace[i].journal.Some? && trace[i].journal.value.id == t.id && trace[i].journal.value.recovery ==>
      t.recovery
    ensures t.id !in trace[i].past.closed
    ensures forall e | e in trace[j].past.starts && e.journal.Some? && e.journal.value.id in e.recovering ::
      e.dir == e.journal.value.previous
  {
    GrowsOver(trace, i, j);
    assert Inv(trace[i]) && Inv(trace[j]);
  }

  /** A transaction under recovery reads as a success only if that was reported before its recovery was journaled, which
      takes a journal that outlived its completion. */
  lemma RecoveredSuccess(trace: seq<State>, i: nat, j: nat, id: nat)
    requires Traced(trace) && i <= j < |trace| && Assumed(trace[j])
    requires id in trace[i].past.recovering && Succeeded(trace[j], id)
    ensures Succeeded(trace[i], id) && (id, false) in trace[i].past.proved
  {
    GrowsOver(trace, i, j);
    assert Inv(trace[i]);
  }

  /** From `a` a sound history leads to a state in which the transaction reads as a success. */
  ghost predicate MayRead(a: State, id: nat) {
    exists trace: seq<State> ::
      Traced(trace) && trace != [] && trace[0] == a && Assumed(trace[|trace| - 1]) && Succeeded(trace[|trace| - 1], id)
  }

  /** Whether a transaction under recovery can ever read as a success is decided when its recovery is journaled. */
  lemma RecoveredSuccessIff(a: State, id: nat)
    requires Inv(a) && Assumed(a) && id in a.past.recovering
    ensures MayRead(a, id) <==> Succeeded(a, id)
  {
    if Succeeded(a, id) {
      assert Traced([a]);
    } else if MayRead(a, id) {
      var trace: seq<State> :|
        Traced(trace) && trace != [] && trace[0] == a && Assumed(trace[|trace| - 1])
        && Succeeded(trace[|trace| - 1], id);
      RecoveredSuccess(trace, 0, |trace| - 1, id);
      assert false;
    }
  }

  /** A transaction that has just been opened: it is journaled, the link leads to its version, and its backup is the
      database. */
  predicate Opened(s: State, t: Pending) {
    && s.lock == Held(true, Of(t.id)) && s.journal == Some(t) && s.link == Some(t.target)
    && t.backup.Some? && t.backup.value in s.copies && s.database == Some(s.copies[t.backup.value])
  }

  function Max(a: Option<nat>, b: nat): (m: nat)
    ensures m >= b && (a.Some? ==> m >= a.value) && (m == b || a == Some(m))
  {
    if a.Some? && a.value > b then a.value else b
  }

  // ---- Single durable steps, as functions of the state ----

  /** The link leads to `target`; `update` is the transaction whose new version that is, if it is one. */
  function Switched(s: State, target: Dir, update: Option<nat>): State {
    s.(link := Some(target), past := s.past.(switched := s.past.switched + if update.Some? then {update.value} else {}))
  }

  /** A replayed recovery switches back and is no update. */
  function UpdateOf(t: Pending): Option<nat> {
    if t.recovery then None else Some(t.id)
  }

  function Saved(s: State, t: Pending): State {
    s.(journal := Some(t),
       past := s.past.(used := s.past.used + {t.id},
                       closed := s.past.closed + if s.journal.Some? && s.journal.value.id != t.id
                         then {s.journal.value.id} else {},
                       recovering := s.past.recovering + if t.recovery then {t.id} else {},
                       bare := s.past.bare || t.backup.None?
                         || (t.noFallback && !t.recovery && t.targetDatabase.None?)))
  }

  function Removed(s: State): State {
    s.(journal := None, past := s.past.(closed := s.past.closed + if s.journal.Some? then {s.journal.value.id} else {}))
  }

  function Recorded(s: State, id: nat, status: Status): State {
    s.(results := s.results[id := status])
  }

  /** The program has proved healthy under the transaction. */
  function Proved(s: State, t: Pending): State {
    s.(past := s.past.(proved := s.past.proved + {(t.id, t.recovery)}))
  }

  function Copied(s: State, copy: Copy, writer: nat): State {
    s.(copies := s.copies[copy := writer])
  }

  function WithDatabase(s: State, database: Option<nat>): State {
    s.(database := database)
  }

  /** The highest version an interrupted copy of the database may show. */
  function CopyLimit(s: State, copy: Copy): (limit: nat)
    ensures Fits(s.database, limit) && (copy in s.copies ==> s.copies[copy] <= limit)
  {
    Max(s.database, if copy in s.copies then s.copies[copy] else 0)
  }

  function Started(s: State, dir: Dir): State {
    s.(past :=
      s.past.(starts := s.past.starts + [Start(dir, VersionOf(s, dir), s.database, s.journal, s.past.recovering)]))
  }

  /** A request for a higher version, or for the built-in one's own version, which is installed beside it. */
  predicate GoesUp(s: State, to: nat) {
    VersionOf(s, Current(s)) < to || (VersionOf(s, Current(s)) == to && Current(s).Builtin?)
  }

  function Accepted(s: State, id: nat, to: nat): State {
    s.(past := s.past.(used := s.past.used + {id}, downward := s.past.downward || !GoesUp(s, to)))
  }

  /** The rollback's journal: back to the previous version, nothing more to restore. */
  function Recovery(t: Pending): Pending {
    t.(target := t.previous, targetDatabase := None, recovery := true, completed := None,
       status := if t.noFallback then Failed else RolledBack)
  }

  predicate Exists(s: State, dir: Dir) {
    dir.Slot? ==> dir.version in s.slots
  }

  /** The checks on `pending.json` at startup that matter here: both directories hold the versions the transaction
      names and the copies it may need exist. */
  predicate Validated(s: State, t: Pending) {
    && Exists(s, t.previous) && Exists(s, t.target)
    && VersionOf(s, t.previous) == t.from
    && VersionOf(s, t.target) == (if t.recovery then t.from else t.to)
    && (t.targetDatabase.Some? ==> t.targetDatabase.value in s.copies)
    && (t.image && t.backup.Some? ==> t.backup.value in s.copies)
    && (t.completed.Some? ==> t.completed.value == t.status)
  }

  /** The journal of an update whose switch failed and that could not be removed. */
  predicate Leftover(s: State, t: Pending) {
    && !t.recovery && t.targetDatabase.None? && t.id !in s.past.switched
    && t.from == VersionOf(s, Current(s)) <= t.to
  }

  /** What the main loop relies on between two durable steps, given the transaction it has in memory. */
  ghost predicate Running(s: State, pending: Option<Pending>) {
    && Inv(s)
    && s.link.Some? && Resolve(s) == s.link
    && Fits(s.database, VersionOf(s, Current(s)))
    && match pending
       case Some(p) =>
         && s.journal.Some? && s.journal.value.(completed := None) == p.(completed := None)
         && s.link == Some(p.target) && VersionOf(s, p.target) == (if p.recovery then p.from else p.to)
         && Exists(s, p.previous) && VersionOf(s, p.previous) == p.from && Earned(s, p)
       case None =>
         s.journal.Some? ==> Leftover(s, s.journal.value)
  }

  /** An update request; `valid` tells whether the request, the package and the launcher fit. */
  datatype Request = Request(id: nat, to: nat, valid: bool)

  predicate Carries(lock: Lock, id: nat) {
    lock.Held? && lock.token == Of(id)
  }

  /** Nothing but a failing step can keep the request from being applied. */
  predicate Served(s: State, r: Request) {
    Carries(s.lock, r.id) && r.valid && s.database.Some? && Resolve(s).Some?
  }

  /** How a turn of the main loop ends. */
  datatype Turn = Over | Retried | Asked

  datatype Outcome = Stopped | Unhealthy | Exited | UpdateRequested

  // ---- The invariant of the main loop over single steps ----

  /** No step breaks an assumption but the journal of a transaction without the copies it needs. */
  lemma AssumptionsHold(s: State, t: Pending, dir: Dir, update: Option<nat>, id: nat, status: Status)
    ensures Assumed(Started(s, dir)) == Assumed(Switched(s, dir, update)) == Assumed(s)
    ensures Assumed(Removed(s)) == Assumed(Proved(s, t)) == Assumed(Recorded(s, id, status)) == Assumed(s)
    ensures Assumed(Saved(s, t)) <==>
      Assumed(s) && t.backup.Some? && (t.noFallback && !t.recovery ==> t.targetDatabase.Some?)
  {
  }

  lemma UseKeeps(s: State, pending: Option<Pending>, next: State, lost: set<Copy>)
    requires Running(s, pending)
    requires
      var version := VersionOf(s, Current(s));
      || next == WithDatabase(s, Some(Max(s.database, version)))
      || next == s.(copies := s.copies - lost)
      || (s.database.Some? && next == Copied(s, ByVersion(version), s.database.value))
    ensures Running(next, pending)
  {
    assert CopiesFit(next) && Accounted(next) && Told(next);
  }

  lemma PruneKeeps(s: State, lost: set<nat>)
    requires Running(s, None) && (Current(s).Slot? ==> Current(s).version !in lost)
    ensures Running(s.(slots := s.slots - lost), None)
  {
    assert Accounted(s.(slots := s.slots - lost));
  }

  lemma PrunedIsSound(s: State, lost: set<nat>, pending: Option<Pending>)
    requires Running(s, pending) && (Current(s).Slot? ==> Current(s).version !in lost)
    ensures Inv(s.(slots := s.slots - lost))
    ensures pending.None? ==> Running(s.(slots := s.slots - lost), None)
  {
    if pending.None? {
      PruneKeeps(s, lost);
    }
    assert Accounted(s.(slots := s.slots - lost));
  }

  lemma LockIsApart(s: State, lock: Lock, pending: Option<Pending>)
    ensures Inv(s) ==> Inv(s.(lock := lock))
    ensures Running(s, pending) ==> Running(s.(lock := lock), pending)
  {
    assert Accounted(s) ==> Accounted(s.(lock := lock));
  }

  lemma RunningIsSound(s: State, pending: Option<Pending>)
    requires Running(s, pending)
    ensures Inv(s)
  {
  }

  lemma FailingKeeps(s: State, id: nat)
    ensures Inv(s) ==> Inv(Recorded(s, id, Failed))
    ensures Running(s, None) ==> Running(Recorded(s, id, Failed), None)
    ensures NoLateSuccess(s, Recorded(s, id, Failed))
  {
    assert Accounted(s) ==> Accounted(Recorded(s, id, Failed));
  }

  lemma StartingKeeps(s: State, pending: Option<Pending>)
    requires Running(s, pending)
    ensures Inv(Started(s, Current(s))) && Running(Started(s, Current(s)), pending)
  {
    assert Accounted(Started(s, Current(s)));
  }

  lemma ProvingKeeps(s: State, t: Pending)
    requires Running(s, Some(t))
    ensures Running(Proved(s, t), Some(t))
  {
    assert Accounted(Proved(s, t));
  }

  lemma CompletingKeeps(s: State, t: Pending)
    requires Running(s, Some(t)) && (t.id, t.recovery) in s.past.proved
    ensures
      var kept := t.(completed := Some(t.status));
      Assumed(Saved(s, kept)) ==> Running(Saved(s, kept), Some(kept)) && Running(s, Some(kept))
  {
    var next := Saved(s, t.(completed := Some(t.status)));
    assert CopiesFit(next) && Accounted(next);
  }

  lemma RecordingKeeps(s: State, t: Pending, status: Status)
    requires Running(s, Some(t)) && (status == Failed || t.completed == Some(status))
    ensures Running(Recorded(s, t.id, status), Some(t)) && NoLateSuccess(s, Recorded(s, t.id, status))
  {
    assert CopiesFit(Recorded(s, t.id, status)) && Accounted(Recorded(s, t.id, status));
  }

  lemma ClosingKeeps(s: State, t: Pending)
    requires Running(s, Some(t)) && t.id in s.results && s.results[t.id] == t.status
    ensures Running(Removed(s), None)
  {
    assert CopiesFit(Removed(s)) && Accounted(Removed(s));
  }

  /** An accepted request that keeps the assumptions: nothing but a leftover is journaled and the new version is
      higher. */
  ghost predicate Applying(s: State, id: nat, from: nat, to: nat) {
    && Running(s, None) && (s.journal.Some? ==> s.journal.value.id != id) && from == VersionOf(s, Current(s))
      && GoesUp(s, to)
    && id in s.past.used && id !in s.past.closed && id !in s.past.recovering && id !in s.past.switched
  }

  function Forward(id: nat, from: nat, to: nat, previous: Dir): Pending {
    Pending(id, false, from, to, previous, Slot(to), Some(ByVersion(from)), None, false, false, Success, None)
  }

  lemma AcceptKeeps(s: State, id: nat, to: nat)
    requires Running(s, None) && id !in s.past.used
    ensures Running(Accepted(s, id, to), None)
    ensures Assumed(Accepted(s, id, to)) <==> Assumed(s) && GoesUp(s, to)
    ensures Assumed(Accepted(s, id, to)) ==> Applying(Accepted(s, id, to), id, VersionOf(s, Current(s)), to)
  {
    assert Accounted(Accepted(s, id, to));
  }

  lemma SlotsKeep(s: State, id: nat, from: nat, to: nat, slots: set<nat>)
    requires Applying(s, id, from, to)
    requires s.link.value.Slot? ==> s.link.value.version in slots
    ensures Applying(s.(slots := slots), id, from, to)
  {
    assert Accounted(s.(slots := slots));
  }

  lemma ForwardKeeps(s: State, id: nat, from: nat, to: nat, previous: Dir)
    requires Applying(s, id, from, to) && to in s.slots && Assumed(s)
    requires previous == Slot(from) && from in s.slots
    ensures
      var t := Forward(id, from, to, previous);
      && Running(Saved(s, t), None) && Assumed(Saved(s, t))
        && Running(Switched(Saved(s, t), t.target, Some(t.id)), Some(t))
      && Ok(Removed(Saved(s, t)))
  {
    var t := Forward(id, from, to, previous);
    assert Accounted(Saved(s, t)) && Accounted(Switched(Saved(s, t), t.target, Some(t.id)))
      && Accounted(Removed(Saved(s, t)));
  }

  lemma FinalizeKeeps(s: State, id: nat, from: nat, to: nat, n: nat)
    requires Applying(s, id, from, to) && n <= CopyLimit(s, ByVersion(from))
    ensures Applying(Copied(s, ByVersion(from), n), id, from, to)
  {
    assert Accounted(Copied(s, ByVersion(from), n));
  }

  /** Nothing is open and the database fits the version the link leads to. */
  ghost predicate Closed(s: State) {
    Inv(s) && s.journal.None?
  }

  lemma CopyKeeps(s: State, copy: Copy, n: nat)
    requires Closed(s) && (copy.ByVersion? ==> n <= copy.version)
    ensures Closed(Copied(s, copy, n))
  {
    assert Accounted(Copied(s, copy, n));
  }

  /** The transaction of an image whose version is selected instead of the installed one. */
  function ImageSwitch(s: State, id: nat, fallback: Dir, incompatible: bool, backup: Option<Copy>,
                       targetDatabase: Option<Copy>): Pending
  {
    Pending(id, true, VersionOf(s, fallback), s.builtin, fallback, Builtin, backup, targetDatabase, false,
      incompatible, Success, None)
  }

  lemma ImageSwitchKeeps(s: State, id: nat, fallback: Dir, incompatible: bool, backup: Option<Copy>,
                         targetDatabase: Option<Copy>)
    requires Closed(s) && Resolve(s) == Some(fallback) && id !in s.past.used
    requires backup.Some? ==> s.database.Some? && backup.value in s.copies && s.copies[backup.value] == s.database.value
    requires backup.Some? ==> backup.value == if incompatible then Image(id) else ByVersion(VersionOf(s, fallback))
    requires targetDatabase.Some? ==> incompatible && targetDatabase.value == ByVersion(s.builtin)
    requires !incompatible ==> VersionOf(s, fallback) < s.builtin
    ensures Ok(Saved(s, ImageSwitch(s, id, fallback, incompatible, backup, targetDatabase)))
    ensures Assumed(Saved(s, ImageSwitch(s, id, fallback, incompatible, backup, targetDatabase)))
      <==> Assumed(s) && backup.Some? && (incompatible ==> targetDatabase.Some?)
  {
    assert Accounted(Saved(s, ImageSwitch(s, id, fallback, incompatible, backup, targetDatabase)));
  }

  function Replaced(s: State, version: nat): State {
    s.(builtin := version, past := s.past.(lowered := s.past.lowered || version < s.builtin))
  }

  lemma ReplacedIsOk(s: State, version: nat)
    requires Ok(s)
    ensures Ok(Replaced(s, version)) && (Assumed(Replaced(s, version)) <==> Assumed(s) && s.builtin <= version)
  {
    if Assumed(Replaced(s, version)) {
      assert Accounted(Replaced(s, version));
    }
  }

  /** The installed version stands aside for the image's own: it does not fit this launcher, or the image's is higher
      and fits. */
  predicate SetsAside(s: State, compatible: set<Dir>) {
    && s.link.Some? && Exists(s, s.link.value)
    && (s.link.value !in compatible || (VersionOf(s, s.link.value) < s.builtin && Builtin in compatible))
  }

  /** What a start without a journal runs first is the built-in version: the link leads to nothing, to the built-in
      version, or to a version that stands aside. Otherwise it is what the link leads to. */
  predicate BuiltinFirst(s: State, compatible: set<Dir>) {
    s.link.None? || !Exists(s, s.link.value) || s.link.value == Builtin || SetsAside(s, compatible)
  }

  /** The version to start with, the installed one to return to if it is set aside for the image's own, and whether it
      is set aside because it does not fit this launcher. */
  function SelectStartupVersion(s: State, compatible: set<Dir>): (r: (Dir, Option<Dir>, bool))
    ensures r.0 == if BuiltinFirst(s, compatible) then Builtin else s.link.value
    ensures r.1 == if SetsAside(s, compatible) then s.link else None
    ensures r.2 <==> SetsAside(s, compatible) && s.link.value !in compatible
  {
    match Resolve(s)
    case None => (Builtin, None, false)
    case Some(current) =>
      if current !in compatible then (Builtin, Some(current), true)
      else if s.builtin > VersionOf(s, current) && Builtin in compatible then (Builtin, Some(current), false)
      else (current, None, false)
  }

  /** No image transaction can be opened: its number is taken, or the image's version has no copy of the database. */
  predicate Unselectable(s: State, compatible: set<Dir>, id: nat) {
    && SetsAside(s, compatible)
    && (id in s.past.used
        || (s.link.value !in compatible && s.database.Some? && ByVersion(s.builtin) !in s.copies))
  }

  /** A transaction is journaled and the lock carries another token than its own, or none that can be read: no start
      gets past it. */
  predicate Stuck(s: State) {
    s.journal.Some? && s.lock != Free && !Carries(s.lock, s.journal.value.id)
  }

  /** `dir` was the first to be started between two states. */
  predicate Begun(from: State, to: State, dir: Dir) {
    var n := |from.past.starts|;
    from.past.starts <= to.past.starts && n < |to.past.starts| && to.past.starts[n].dir == dir
  }

  /** The transaction is over, a program has proved healthy under it, and its status is its result. */
  ghost predicate Reported(from: State, to: State, t: Pending) {
    && to.journal.None? && (Assumed(to) ==> t.id in to.past.closed)
    && t.id in to.results && (t.id, t.recovery) in to.past.proved
    && ((t.completed.Some? ==> t.completed.value == t.status) ==> to.results == from.results[t.id := t.status])
  }

  /** The transaction of a request: from the running version to the requested one, with the running version's own
      directory to return to and its own copy of the database to restore. */
  predicate OfRequest(s: State, t: Pending, id: nat, to: nat) {
    && t.id == id && !t.image && !t.recovery && t.from == VersionOf(s, Current(s)) && t.to == to
    && t.previous == Slot(VersionOf(s, Current(s))) && t.target == Slot(to) && !t.noFallback
    && t.backup == Some(ByVersion(VersionOf(s, Current(s)))) && t.targetDatabase.None?
    && t.status == Success && t.completed.None?
  }

  /** The transaction from the installed version to the image's own. */
  predicate OfImage(s: State, t: Pending, fallback: Dir, incompatible: bool) {
    && t.image && !t.recovery && t.from == VersionOf(s, fallback) && t.to == s.builtin
    && t.previous == fallback && t.target == Builtin && t.noFallback == incompatible
    && t.status == Success && t.completed.None?
  }

  class Machine {
    var s: State
    var trace: seq<State>
    var faults: nat // how many durable steps have failed

    ghost predicate Valid()
      reads this
    {
      |trace| > 0 && trace[|trace| - 1] == s && Traced(trace)
    }

    /** A new volume: nothing installed, no link, no database. */
    constructor (builtin: nat)
      ensures Valid() && |trace| == 1
    {
      s := State(builtin, {}, None, None, map[], None, map[], Free, NOTHING);
      trace := [s];
      faults := 0;
    }

    /** One durable step. That every state satisfies `Ok` is what a power loss needs. */
    method Commit(next: State)
      requires Valid() && Ok(next) && Grows(s, next)
      modifies this`s, this`trace
      ensures Valid() && s == next && trace == old(trace) + [next]
    {
      s := next;
      trace := trace + [next];
    }

    /** Power fails: of what happened since the trace had length `mark` only a prefix remains. */
    method PowerLoss(mark: nat)
      requires Valid() && 0 < mark <= |trace|
      modifies this`s, this`trace
      ensures Valid() && mark <= |trace| <= |old(trace)| && trace <= old(trace)
    {
      var i: nat :| mark - 1 <= i < |trace|;
      trace := trace[..i + 1];
      s := trace[i];
    }

    method SwitchCurrent(target: Dir, update: Option<nat>) returns (ok: bool)
      requires Valid() && Ok(Switched(s, target, update))
      modifies this
      ensures Valid() && old(trace) <= trace && s == if ok then Switched(old(s), target, update) else old(s)
      ensures faults == old(faults) + if ok then 0 else 1
    {
      ok := *;
      if ok {
        Commit(Switched(s, target, update));
      } else {
        faults := faults + 1;
      }
    }

    method SavePending(t: Pending) returns (ok: bool)
      requires Valid() && Ok(Saved(s, t))
      modifies this
      ensures Valid() && old(trace) <= trace && s == if ok then Saved(old(s), t) else old(s)
      ensures faults == old(faults) + if ok then 0 else 1
    {
      ok := *;
      if ok {
        Commit(Saved(s, t));
      } else {
        faults := faults + 1;
      }
    }

    method RemovePending() returns (ok: bool)
      requires Valid() && Ok(Removed(s))
      modifies this
      ensures Valid() && old(trace) <= trace && s == if ok then Removed(old(s)) else old(s)
      ensures faults == old(faults) + if ok then 0 else 1
    {
      ok := *;
      if ok {
        Commit(Removed(s));
      } else {
        faults := faults + 1;
      }
    }

    method WriteResult(id: nat, status: Status) returns (ok: bool)
      requires Valid() && Ok(Recorded(s, id, status)) && (Assumed(s) ==> NoLateSuccess(s, Recorded(s, id, status)))
      modifies this
      ensures Valid() && old(trace) <= trace && s == if ok then Recorded(old(s), id, status) else old(s)
      ensures faults == old(faults) + if ok then 0 else 1
    {
      ok := *;
      if ok {
        Commit(Recorded(s, id, status));
      } else {
        faults := faults + 1;
      }
    }

    method ReportFailure(id: nat) returns (ok: bool)
      requires Valid()
      modifies this
      ensures Valid() && old(trace) <= trace && s == if ok then Recorded(old(s), id, Failed) else old(s)
      ensures faults == old(faults) + if ok then 0 else 1
    {
      FailingKeeps(s, id);
      ok := WriteResult(id, Failed);
    }

    method SetLock(lock: Lock)
      requires Valid()
      modifies this`s, this`trace
      ensures Valid() && old(trace) <= trace && s == old(s).(lock := lock)
    {
      LockIsApart(s, lock, None);
      Commit(s.(lock := lock));
    }

    /** Rewrites the lock file, which is unreadable on the way and may stay so. */
    method WriteLock(lock: Lock) returns (ok: bool)
      requires Valid()
      modifies this
      ensures Valid() && old(trace) <= trace && s == old(s).(lock := s.lock)
      ensures if ok then s.lock == lock else s.lock == old(s).lock || s.lock == Unreadable
      ensures faults == old(faults) + if ok then 0 else 1
    {
      if * {
        SetLock(Unreadable);
      }
      ok := *;
      if ok {
        SetLock(lock);
      } else {
        faults := faults + 1;
      }
    }

    /** The executor becomes the recorded process, provided the record carries the token. */
    method TakeOverUpdateLock(id: nat) returns (ok: bool)
      requires Valid()
      modifies this
      ensures Valid() && old(trace) <= trace && s == old(s).(lock := s.lock) && old(faults) <= faults
      ensures ok ==> old(s).lock.Held? && old(s).lock.token == Of(id) && s.lock == Held(true, Of(id))
      ensures !ok ==> s.lock == old(s).lock || s.lock == Unreadable
      ensures !Carries(old(s).lock, id) ==> !ok && s == old(s)
      ensures !ok ==> old(faults) < faults || !Carries(old(s).lock, id)
    {
      if !Carries(s.lock, id) {
        return false;
      }
      ok := WriteLock(Held(true, Of(id)));
    }

    /** Takes a free lock for a manager of the launcher. */
    method BeginUpdate() returns (ok: bool)
      requires Valid() && s.lock.Free?
      modifies this
      ensures Valid() && old(trace) <= trace && s == old(s).(lock := s.lock)
      ensures if ok then s.lock == Held(true, Own) else !s.lock.Held?
      ensures faults == old(faults) + if ok then 0 else 1
    {
      ok := WriteLock(Held(true, Own));
    }

    /** The launcher's own lock passes to a request, or is released. */
    method HandOff(id: nat) returns (ok: bool)
      requires Valid() && s.lock == Held(true, Own)
      modifies this
      ensures Valid() && old(trace) <= trace && s == old(s).(lock := s.lock) && old(faults) <= faults
      ensures ok ==> s.lock == Held(true, Of(id))
      ensures !ok ==> old(faults) < faults
    {
      ok := WriteLock(Held(true, Of(id)));
      if !ok {
        var _ := ReleaseUpdateLock(Own);
      }
    }

    method ReleaseUpdateLock(token: Token) returns (ok: bool)
      requires Valid()
      modifies this
      ensures Valid() && old(trace) <= trace && s == old(s).(lock := s.lock)
      ensures s.lock == if ok && old(s).lock.Held? && old(s).lock.token == token then Free else old(s).lock
      ensures faults == old(faults) + if ok then 0 else 1
    {
      ok := *;
      if !ok {
        faults := faults + 1;
      } else if s.lock.Held? && s.lock.token == token {
        SetLock(Free);
      }
    }

    /** The release without a token, and the clearing at startup. */
    method ClearUpdateLock() returns (ok: bool)
      requires Valid()
      modifies this
      ensures Valid() && old(trace) <= trace && s == old(s).(lock := if ok then Free else old(s).lock)
      ensures faults == old(faults) + if ok then 0 else 1
    {
      ok := *;
      if ok {
        SetLock(Free);
      } else {
        faults := faults + 1;
      }
    }

    /** Copies the stopped database; an interrupted copy mixes what was there with the database. */
    method BackupStoppedDatabase(copy: Copy) returns (ok: bool)
      requires Valid()
      requires s.database.Some? ==> forall n: nat | n <= CopyLimit(s, copy) :: Ok(Copied(s, copy, n))
      modifies this
      ensures Valid() && old(trace) <= trace
      ensures ok ==> old(s).database.Some? && s == Copied(old(s), copy, old(s).database.value)
      ensures s == old(s)
        || (copy in s.copies && s == Copied(old(s), copy, s.copies[copy]) && s.copies[copy] <= CopyLimit(old(s), copy))
      ensures old(faults) <= faults
      ensures !ok ==> old(faults) < faults || old(s).database.None?
    {
      if s.database.None? {
        return false;
      }
      var clean := s;
      if * {
        var torn: nat :| torn <= CopyLimit(clean, copy);
        Commit(Copied(clean, copy, torn));
      }
      if * {
        faults := faults + 1;
        return false;
      }
      Commit(Copied(clean, copy, clean.database.value));
      ok := true;
    }

    /** Replaces the database by a copy; an interrupted or failed replacement may leave any part of either. */
    method RestoreDatabase(copy: Copy) returns (ok: bool)
      requires Valid()
      requires copy in s.copies ==> forall d | Fits(d, Max(s.database, s.copies[copy])) :: Ok(WithDatabase(s, d))
      modifies this
      ensures Valid() && old(trace) <= trace
      ensures ok ==> copy in old(s).copies && s == WithDatabase(old(s), Some(old(s).copies[copy]))
      ensures s == WithDatabase(old(s), s.database)
      ensures old(faults) <= faults
      ensures !ok ==> old(faults) < faults || copy !in old(s).copies
    {
      if copy !in s.copies {
        return false;
      }
      var clean := s;
      if * {
        var torn: Option<nat> :| Fits(torn, Max(clean.database, clean.copies[copy]));
        Commit(WithDatabase(clean, torn));
      }
      if * {
        faults := faults + 1;
        return false;
      }
      Commit(WithDatabase(clean, Some(clean.copies[copy])));
      ok := true;
    }

    method PreparePending(t: Pending) returns (ok: bool)
      requires Valid() && s.journal == Some(t) && Validated(s, t)
      modifies this
      ensures Valid() && old(trace) <= trace
      ensures ok && Assumed(s) ==> Running(s, Some(t))
      ensures ok ==>
        && s == old(s).(link := Some(t.target), database := s.database, past := s.past)
        && s.past == old(s).past.(switched := s.past.switched)
        && s.past.switched == old(s).past.switched + if t.recovery then {} else {t.id}
      ensures ok ==>
        s.database == if t.targetDatabase.Some? then Some(old(s).copies[t.targetDatabase.value]) else old(s).database
      ensures old(faults) <= faults
      ensures !ok ==> old(faults) < faults
      ensures s.past.starts == old(s).past.starts
      ensures s.lock == old(s).lock
    {
      if t.targetDatabase.Some? {
        ok := RestoreDatabase(t.targetDatabase.value);
        if !ok {
          return;
        }
      }
      ok := SwitchCurrent(t.target, UpdateOf(t));
    }

    /** The running program: it may write its database, renew the copy filed under its version, and remove any copy; a
        program that has been healthy for a day also prunes version directories other than its own. */
    method UseDatabase(pending: Option<Pending>, healthy: bool)
      requires Valid() && (Assumed(s) ==> Running(s, pending))
      modifies this
      ensures Valid() && old(trace) <= trace
      ensures Assumed(s) ==> Inv(s) && (!healthy || pending.None? ==> Running(s, pending))
      ensures s == old(s).(database := s.database, copies := s.copies, slots := s.slots)
      ensures faults == old(faults)
    {
      var version := VersionOf(s, Current(s));
      var rounds: nat :| true;
      for i := 0 to rounds
        invariant Valid() && old(trace) <= trace && (Assumed(s) ==> Running(s, pending))
        invariant faults == old(faults)
        invariant s == old(s).(database := s.database, copies := s.copies, slots := s.slots)
        invariant s.slots == old(s).slots
      {
        var next: State;
        var lost: set<Copy> :| lost <= s.copies.Keys;
        if
        case true => next := WithDatabase(s, Some(Max(s.database, version)));
        case true => next := s.(copies := s.copies - lost);
        case s.database.Some? => next := Copied(s, ByVersion(version), s.database.value);
        if Assumed(s) {
          UseKeeps(s, pending, next, lost);
        }
        Commit(next);
      }
      if healthy {
        Prune(pending);
      }
    }

    method Prune(ghost pending: Option<Pending>)
      requires Valid() && (Assumed(s) ==> Running(s, pending))
      modifies this
      ensures Valid() && old(trace) <= trace && faults == old(faults)
      ensures Assumed(s) ==> Inv(s) && (pending.None? ==> Running(s, pending))
      ensures s == old(s).(slots := s.slots)
    {
      var lost: set<nat> :| lost <= s.slots;
      if Current(s).Slot? {
        lost := lost - {Current(s).version};
      }
      if Assumed(s) {
        PrunedIsSound(s, lost, pending);
      }
      Commit(s.(slots := s.slots - lost));
    }

    /** What the program's update manager does to the lock: it takes a lock that does not refuse it, releases it, or
        hands it to a new request. `handed` tells whether it has handed one over. */
    method UseUpdateLock(ghost pending: Option<Pending>) returns (handed: bool)
      requires Valid() && Locked(s, pending) && (Assumed(s) ==> Running(s, pending))
      modifies this
      ensures Valid() && old(trace) <= trace && Locked(s, pending) && (Assumed(s) ==> Running(s, pending))
      ensures s == old(s).(lock := s.lock) && faults == old(faults)
      ensures old(s).lock.Unreadable? || (old(s).lock.Held? && old(s).lock.launcher) ==>
        s.lock == old(s).lock && !handed
      ensures s.lock.Held? && s.lock.launcher ==> s.lock == old(s).lock
      ensures pending.Some? ==> s.lock == Held(true, Of(pending.value.id)) && !handed
    {
      handed := false;
      var rounds: nat :| true;
      for i := 0 to rounds
        invariant Valid() && old(trace) <= trace && Locked(s, pending) && (Assumed(s) ==> Running(s, pending))
        invariant s == old(s).(lock := s.lock) && faults == old(faults)
        invariant Refuses(old(s).lock) ==> s.lock == old(s).lock && !handed
        invariant !Refuses(old(s).lock) ==> !s.lock.Held? || !s.lock.launcher
      {
        if !Refuses(s.lock) {
          var next: Lock;
          var id: nat :| true;
          if
          case true => next := Held(false, Own);
          case true => next := Unreadable;
          case true => next := Free;
          case s.lock == Held(false, Own) && id !in s.past.used && id !in s.results =>
            // History numbers are never used twice.
            next := Held(false, Of(id));
            handed := true;
          LockIsApart(s, next, pending);
          SetLock(next);
        }
      }
    }

    method Close(t: Pending) returns (done: bool)
      requires Valid() && t.completed.Some? && Locked(s, Some(t)) && (Assumed(s) ==> Running(s, Some(t)))
      modifies this
      ensures Valid() && old(trace) <= trace
      ensures done ==> s.journal.None? && s.results == old(s).results[t.id := t.completed.value]
      ensures old(s).past.proved <= s.past.proved && (done && Assumed(s) ==> t.id in s.past.closed)
      ensures Locked(s, if done then None else Some(t))
      ensures Assumed(s) ==> Running(s, if done then None else Some(t))
      ensures old(faults) <= faults
      ensures !done ==> old(faults) < faults
      ensures old(faults) < faults || s.lock.Free?
      ensures s.past.starts == old(s).past.starts
    {
      if Assumed(s) {
        RecordingKeeps(s, t, t.completed.value);
      }
      done := WriteResult(t.id, t.completed.value);
      if done {
        if Assumed(s) {
          ClosingKeeps(s, t);
        }
        done := RemovePending();
        if done {
          LockIsApart(s, Free, None);
          var _ := ReleaseUpdateLock(Of(t.id));
        }
      }
    }

    /** Writes the result, closes the journal and releases the lock once the program is healthy; any failure to do the
        first two keeps journal and lock. */
    method CompletePending(t: Pending) returns (done: bool, kept: Pending)
      requires Valid() && Locked(s, Some(t)) && (Assumed(s) ==> Running(s, Some(t)))
      requires (t.id, t.recovery) in s.past.proved
      modifies this
      ensures Valid() && old(trace) <= trace
      ensures done ==> s.journal.None? && t.id in s.results
      ensures old(s).past.proved <= s.past.proved && (done && Assumed(s) ==> t.id in s.past.closed)
      ensures Locked(s, if done then None else Some(kept))
      ensures Assumed(s) ==> Running(s, if done then None else Some(kept))
      ensures kept.(completed := None) == t.(completed := None)
      ensures old(faults) <= faults
      ensures !done ==> old(faults) < faults
      ensures old(faults) < faults || s.lock.Free?
      ensures done && (t.completed.Some? ==> t.completed.value == t.status) ==>
        s.results == old(s).results[t.id := t.status]
      ensures s.past.starts == old(s).past.starts
    {
      kept := t;
      if t.completed.None? {
        kept := t.(completed := Some(t.status));
        if Assumed(s) {
          CompletingKeeps(s, t);
        }
        done := SavePending(kept);
        if !done {
          return;
        }
      }
      done := Close(kept);
    }

    /** The program has become healthy under the transaction, which is completed if no step fails. */
    method CompleteHealthy(t: Pending) returns (kept: Option<Pending>)
      requires Valid() && Locked(s, Some(t)) && (Assumed(s) ==> Running(s, Some(t)))
      modifies this
      ensures Valid() && old(trace) <= trace && Locked(s, kept) && (Assumed(s) ==> Running(s, kept))
      ensures kept.Some? ==> kept.value.(completed := None) == t.(completed := None) && old(faults) < faults
      ensures kept.None? ==> Reported(old(s), s, t)
      ensures s.past.starts == old(s).past.starts && old(faults) <= faults
    {
      hide Inv, Running;
      if Assumed(s) {
        ProvingKeeps(s, t);
        RunningIsSound(Proved(s, t), Some(t));
      }
      Commit(Proved(s, t));
      var done, left := CompletePending(t);
      kept := if done then None else Some(left);
    }

    /** A run begins: the program that the link leads to starts, and uses the database and the lock before it is known
        to be healthy. */
    method BeginRun(pending: Option<Pending>) returns (handed: bool)
      requires Valid() && Locked(s, pending) && (Assumed(s) ==> Running(s, pending))
      modifies this
      ensures Valid() && old(trace) <= trace && Locked(s, pending) && (Assumed(s) ==> Running(s, pending))
      ensures s.journal == old(s).journal && s.results == old(s).results && faults == old(faults)
      ensures Refuses(old(s).lock) ==> s.lock == old(s).lock && !handed
      ensures !Refuses(old(s).lock) ==> !s.lock.Held? || !s.lock.launcher
      ensures s.past.starts ==
        old(s).past.starts
          + [Start(Current(old(s)), VersionOf(old(s), Current(old(s))), old(s).database, old(s).journal,
            old(s).past.recovering)]
    {
      hide Inv, Running;
      if Assumed(s) {
        StartingKeeps(s, pending);
      }
      Commit(Started(s, Current(s)));
      UseDatabase(pending, false);
      handed := UseUpdateLock(pending);
    }

    /** One run of the program: what it wants to end with, and whether it becomes healthy before. It can only end with
        an update request after handing the lock over. `kept` is the transaction still in memory afterwards. */
    method RunProgram(pending: Option<Pending>, wanted: Outcome, healthy: bool)
      returns (outcome: Outcome, kept: Option<Pending>)
      requires Valid() && Locked(s, pending) && (Assumed(s) ==> Running(s, pending))
        && (healthy ==> wanted != Unhealthy)
      modifies this
      ensures Valid() && old(trace) <= trace && Locked(s, kept)
      ensures outcome == wanted || (wanted == UpdateRequested && outcome == Exited)
      ensures outcome == UpdateRequested ==> kept.None? && !(s.lock.Held? && s.lock.launcher)
      ensures !healthy || kept.None? ==> (Assumed(s) ==> Running(s, kept))
      ensures kept.Some? ==> pending.Some? && kept.value.(completed := None) == pending.value.(completed := None)
      ensures !healthy ==> kept == pending && s.journal == old(s).journal && s.results == old(s).results
      ensures s.past.starts ==
        old(s).past.starts
          + [Start(Current(old(s)), VersionOf(old(s), Current(old(s))), old(s).database, old(s).journal,
            old(s).past.recovering)]
      ensures old(faults) <= faults
      ensures healthy && pending.Some? && kept.Some? ==> old(faults) < faults
      ensures pending.Some? && kept.None? ==> Reported(old(s), s, pending.value)
    {
      hide Inv, Running;
      kept := pending;
      var handed := BeginRun(pending);
      if healthy {
        if pending.Some? {
          kept := CompleteHealthy(pending.value);
        }
        var later := UseUpdateLock(kept);
        handed := handed || later;
        UseDatabase(kept, true);
      }
      outcome := if wanted == UpdateRequested && !handed then Exited else wanted;
    }

    /** Switches back and restores the database, so that the recovery can be journaled. */
    method SwitchBack(failed: Pending) returns (ok: bool)
      requires Valid() && !failed.recovery && (Assumed(s) ==> Running(s, Some(failed)))
      modifies this
      ensures Valid() && old(trace) <= trace && old(faults) <= faults
      ensures s == old(s).(link := s.link, database := s.database)
      ensures ok && Assumed(Saved(s, Recovery(failed))) ==> Running(Saved(s, Recovery(failed)), Some(Recovery(failed)))
      ensures ok ==>
        && s.link == Some(failed.previous) && (failed.backup.Some? ==> failed.backup.value in s.copies)
        && s.database == DatabaseAfterRollback(old(s), failed)
      ensures !ok ==> old(faults) < faults || (failed.backup.Some? && failed.backup.value !in s.copies)
    {
      ok := SwitchCurrent(failed.previous, None);
      if ok && failed.backup.Some? {
        ok := RestoreDatabase(failed.backup.value);
      }
    }

    /** Switches back, restores the database, and journals the recovery. The result is the recovery to continue
        with, if the launcher can continue. */
    method Rollback(failed: Pending) returns (next: Option<Pending>)
      requires Valid() && !failed.recovery && Locked(s, Some(failed)) && (Assumed(s) ==> Running(s, Some(failed)))
      modifies this
      ensures Valid() && old(trace) <= trace && (next.Some? && Assumed(s) ==> Running(s, next))
      ensures next.Some? ==> Locked(s, next)
      ensures next.Some? ==>
        && next.value == failed.(target := failed.previous, targetDatabase := None, recovery := true,
                                 status := RolledBack, completed := None)
        && s.journal == next && s.link == Some(failed.previous) && s.results == old(s).results && !failed.noFallback
      ensures s.journal == old(s).journal
        || s.journal == Some(failed.(target := failed.previous, targetDatabase := None, recovery := true,
                                     status := if failed.noFallback then Failed else RolledBack, completed := None))
      ensures next.Some? ==>
        (failed.backup.Some? ==> failed.backup.value in old(s).copies)
          && s.database == DatabaseAfterRollback(old(s), failed)
      ensures old(faults) <= faults
      ensures next.None? ==>
        old(faults) < faults || failed.noFallback || (failed.backup.Some? && failed.backup.value !in old(s).copies)
      ensures faults == old(faults) ==>
        s.results == if failed.backup.Some? && failed.backup.value !in old(s).copies
          then old(s).results[failed.id := Failed] else old(s).results
      ensures s.past.starts == old(s).past.starts
      ensures s.lock == old(s).lock
    {
      hide Inv, Running;
      next := None;
      var ok := SwitchBack(failed);
      if !ok {
        var _ := ReportFailure(failed.id);
        return;
      }
      if Assumed(Saved(s, Recovery(failed))) {
        RunningIsSound(Saved(s, Recovery(failed)), Some(Recovery(failed)));
      }
      ok := SavePending(Recovery(failed));
      if ok && !failed.noFallback {
        next := Some(Recovery(failed));
      }
    }

    /** Installs the package beside the running version, journals the switch, then switches. `valid` tells whether the
        request and the package are accepted, `t` is the new transaction. */
    method ApplyUpdate(id: nat, from: nat, to: nat, valid: bool) returns (ok: bool, t: Pending)
      requires Valid() && (Assumed(s) ==> Applying(s, id, from, to)) && from == VersionOf(s, Current(s))
      modifies this
      ensures Valid() && old(trace) <= trace
      ensures Assumed(s) ==> Assumed(old(s)) && Running(s, if ok then Some(t) else None)
      ensures ok ==> s.journal == Some(t) && s.link == Some(t.target) && OfRequest(old(s), t, id, to)
      ensures s.copies == old(s).copies && s.database == old(s).database
      ensures old(faults) <= faults
      ensures ok ==> valid
      ensures !ok ==> old(faults) < faults || !valid || Resolve(old(s)).None?
      ensures s.past.starts == old(s).past.starts
      ensures s.lock == old(s).lock && s.results == old(s).results
    {
      t := Forward(id, from, to, Slot(from));
      ok := false;
      var previous := Resolve(s);
      if !valid || previous.None? {
        return;
      }
      if previous.value.Builtin? {
        ok := KeepBuiltin(id, from, to);
        if !ok {
          return;
        }
        previous := Some(Slot(from));
      }
      ok := InstallPackage(id, from, to);
      if ok {
        ok, t := JournalAndSwitch(id, from, to, previous.value);
      }
    }

    method JournalAndSwitch(id: nat, from: nat, to: nat, previous: Dir) returns (ok: bool, t: Pending)
      requires Valid()
        && (Assumed(s) ==> Applying(s, id, from, to) && to in s.slots && previous == Slot(from) && from in s.slots)
      modifies this
      ensures Valid() && old(trace) <= trace
      ensures Assumed(s) ==> Assumed(old(s)) && Running(s, if ok then Some(t) else None)
      ensures ok ==>
        s.journal == Some(t) && s.link == Some(t.target) && t == Forward(id, from, to, previous)
          && (old(s).journal.Some? ==> id == old(s).journal.value.id || old(s).journal.value.id in s.past.closed)
      ensures s.copies == old(s).copies && s.database == old(s).database
      ensures old(faults) <= faults
      ensures !ok ==> old(faults) < faults
      ensures s.past.starts == old(s).past.starts
      ensures s.lock == old(s).lock && s.results == old(s).results
    {
      t := Forward(id, from, to, previous);
      if Assumed(s) {
        ForwardKeeps(s, id, from, to, previous);
      }
      ok := SavePending(t);
      if ok {
        ok := SwitchCurrent(t.target, Some(t.id));
        if !ok {
          AbandonUpdate(t);
        }
      }
    }

    /** Copies the built-in version to a directory of its own, so that it can be returned to. */
    method KeepBuiltin(ghost id: nat, from: nat, ghost to: nat) returns (ok: bool)
      requires Valid() && Resolve(s) == Some(Builtin) && (Assumed(s) ==> Applying(s, id, from, to))
      modifies this
      ensures Valid() && old(trace) <= trace && (Assumed(s) ==> Applying(s, id, from, to))
      ensures s == old(s).(slots := s.slots) && (ok ==> s.slots == old(s).slots + {from})
      ensures Resolve(s) == Some(Builtin)
      ensures old(faults) <= faults
      ensures !ok ==> old(faults) < faults
    {
      var clean := s;
      if Assumed(s) {
        SlotsKeep(clean, id, from, to, clean.slots - {from});
        SlotsKeep(clean, id, from, to, clean.slots + {from});
      }
      Commit(clean.(slots := clean.slots - {from}));
      if * {
        faults := faults + 1;
        return false;
      }
      Commit(clean.(slots := clean.slots + {from}));
      ok := true;
    }

    method InstallPackage(ghost id: nat, ghost from: nat, to: nat) returns (ok: bool)
      requires Valid() && (Assumed(s) ==> Applying(s, id, from, to))
      modifies this
      ensures Valid() && old(trace) <= trace && (Assumed(s) ==> Applying(s, id, from, to))
      ensures s == old(s).(slots := s.slots) && (ok ==> s.slots == old(s).slots + {to})
      ensures old(faults) <= faults
      ensures !ok ==> old(faults) < faults
    {
      var clean := s;
      if Assumed(s) {
        SlotsKeep(clean, id, from, to, clean.slots - {to});
        SlotsKeep(clean, id, from, to, clean.slots + {to});
      }
      Commit(clean.(slots := clean.slots - {to}));
      if * {
        faults := faults + 1;
        return false;
      }
      Commit(clean.(slots := clean.slots + {to}));
      ok := true;
    }

    /** A failed switch takes the package and the journal away again; both removals may fail. */
    method AbandonUpdate(t: Pending)
      requires Valid() && t.target.Slot? && s.journal == Some(t)
      requires Assumed(s) ==> Running(s, None) && Ok(Removed(s)) && s.link != Some(t.target) && t.id !in s.past.switched
      modifies this
      ensures Valid() && old(trace) <= trace && (Assumed(s) ==> Assumed(old(s)) && Running(s, None))
      ensures s.copies == old(s).copies && s.database == old(s).database
      ensures old(faults) <= faults
      ensures faults == old(faults) ==> s.journal.None? && t.target.version !in s.slots
      ensures s.past.starts == old(s).past.starts
      ensures s.lock == old(s).lock && s.results == old(s).results
    {
      if * {
        assert Assumed(s) ==> Accounted(s.(slots := s.slots - {t.target.version}));
        Commit(s.(slots := s.slots - {t.target.version}));
      } else {
        faults := faults + 1;
      }
      assert Accounted(s) && t.id !in s.past.switched ==> Accounted(Removed(s));
      var _ := RemovePending();
    }

    /** The lock becomes the launcher's, and with it the request is accepted; nothing happens without the right
        token. */
    method AcceptRequest(id: nat, to: nat) returns (ok: bool)
      requires Valid() && Locked(s, None) && !(s.lock.Held? && s.lock.launcher) && (Assumed(s) ==> Running(s, None))
      modifies this
      ensures Valid() && old(trace) <= trace && old(faults) <= faults
      ensures ok ==> Carries(old(s).lock, id) && s == Accepted(old(s).(lock := Held(true, Of(id))), id, to)
      ensures ok && Assumed(s) ==> Applying(s, id, VersionOf(s, Current(s)), to)
      ensures !ok ==> s == old(s).(lock := s.lock) && Locked(s, None) && (Assumed(s) ==> Running(s, None))
      ensures !ok ==> old(faults) < faults || (!Carries(old(s).lock, id) && s == old(s))
    {
      hide Inv, Running, Applying;
      ok := TakeOverUpdateLock(id);
      LockIsApart(old(s), s.lock, None);
      if ok {
        if Assumed(s) {
          AcceptKeeps(s, id, to);
          RunningIsSound(Accepted(s, id, to), None);
        }
        Commit(Accepted(s, id, to));
      }
    }

    /** The request has failed: its result says so, and the lock is gone. */
    method RefuseRequest(id: nat)
      requires Valid() && (Assumed(s) ==> Running(s, None))
      requires Locked(s, None)
      modifies this
      ensures Valid() && old(trace) <= trace && old(faults) <= faults
      ensures Locked(s, None) && (Assumed(s) ==> Running(s, None))
      ensures s == old(s).(lock := s.lock, results := s.results) && old(s).results.Keys <= s.results.Keys
      ensures old(faults) == faults ==> s.lock == Free && s.results == old(s).results[id := Failed]
    {
      hide Inv, Running;
      if Assumed(s) {
        FailingKeeps(s, id);
      }
      var _ := ReportFailure(id);
      LockIsApart(s, Free, None);
      var _ := ClearUpdateLock();
    }

    /** The program asked for an update, which it could only with no transaction open: take its lock over, finalize its
        backup and apply the request, if a valid one is found. Whatever fails leaves the launcher without a
        transaction. */
    method HandleRequest(request: Option<Request>) returns (next: Option<Pending>)
      requires Valid() && Locked(s, None) && !(s.lock.Held? && s.lock.launcher) && (Assumed(s) ==> Running(s, None))
      modifies this
      ensures Valid() && old(trace) <= trace && Locked(s, next) && (Assumed(s) ==> Running(s, next))
      ensures next.Some? ==>
        request.Some? && request.value.valid && Carries(old(s).lock, request.value.id)
      ensures next.Some? ==>
        Opened(s, next.value) && OfRequest(old(s), next.value, request.value.id, request.value.to)
          && s.database == old(s).database
      ensures s.past.starts == old(s).past.starts && old(s).results.Keys <= s.results.Keys
      ensures old(faults) <= faults
      ensures request.Some? && Served(old(s), request.value) ==> old(faults) < faults || next.Some?
    {
      hide Inv, Running, Applying;
      next := None;
      if request.None? {
        LockIsApart(s, Free, None);
        var _ := ClearUpdateLock();
        return;
      }
      var Request(id, to, valid) := request.value;
      var ok := AcceptRequest(id, to);
      if !ok {
        if Assumed(s) {
          FailingKeeps(s, id);
        }
        var _ := ReportFailure(id);
        return;
      }
      var t;
      ok, t := FinalizeAndApply(id, VersionOf(s, Current(s)), to, valid);
      if ok {
        next := Some(t);
      } else {
        RefuseRequest(id);
      }
    }

    method FinalizeAndApply(id: nat, from: nat, to: nat, valid: bool) returns (ok: bool, t: Pending)
      requires Valid() && (Assumed(s) ==> Applying(s, id, from, to)) && from == VersionOf(s, Current(s))
      modifies this
      ensures Valid() && old(trace) <= trace
      ensures ok && old(s).lock == Held(true, Of(id)) ==> Opened(s, t)
      ensures ok ==> valid && OfRequest(old(s), t, id, to) && s.database == old(s).database
      ensures Assumed(s) ==> Assumed(old(s)) && Running(s, if ok then Some(t) else None)
      ensures s.past.starts == old(s).past.starts
      ensures old(faults) <= faults
      ensures !ok ==> old(faults) < faults || !valid || old(s).database.None? || Resolve(old(s)).None?
      ensures s.lock == old(s).lock && s.results == old(s).results
    {
      t := Forward(id, from, to, Slot(from));
      forall n: nat | Assumed(s) && n <= CopyLimit(s, ByVersion(from))
        ensures Applying(Copied(s, ByVersion(from), n), id, from, to)
      {
        FinalizeKeeps(s, id, from, to, n);
      }
      ok := BackupStoppedDatabase(ByVersion(from));
      if ok {
        ok, t := ApplyUpdate(id, from, to, valid);
      }
    }

    /** One turn of the loop: a run of the program, and what becomes of the transaction. The loop goes on after a
        rollback and, while `asks`, after an update request. */
    method RunOnce(pending: Option<Pending>, asks: bool)
      returns (next: Option<Pending>, turn: Turn, rolledBack: bool, outcome: Outcome)
      requires Valid() && Locked(s, pending) && (Assumed(s) ==> Running(s, pending))
      modifies this
      ensures Valid() && old(trace) <= trace && old(faults) <= faults
      ensures turn != Over ==> Locked(s, next) && (Assumed(s) ==> Running(s, next))
      ensures Begun(old(s), s, Current(old(s)))
      ensures rolledBack ==> pending.Some? && !pending.value.recovery && turn != Asked
      ensures turn == Retried ==>
        && rolledBack && next.Some? && next.value.id == pending.value.id
        && next.value.recovery && next.value.status == RolledBack && next.value.target == pending.value.previous
      ensures outcome == Unhealthy && pending.Some? && pending.value.recovery ==>
        turn == Over && (faults == old(faults) ==> s.results == old(s).results[pending.value.id := Failed])
      ensures turn == Asked ==> asks && (pending.Some? ==> pending.value.id in s.results)
    {
      var wanted: Outcome, healthy: bool :| healthy ==> wanted != Unhealthy;
      outcome, next := RunProgram(pending, wanted, healthy);
      turn, rolledBack := Over, false;
      if outcome == Unhealthy && next.Some? {
        if next.value.recovery {
          var _ := ReportFailure(next.value.id);
          return;
        }
        rolledBack := true;
        next := Rollback(next.value);
        turn := if next.Some? then Retried else Over;
        return;
      }
      if outcome == UpdateRequested && asks {
        var request: Option<Request> :| true;
        next := HandleRequest(request);
        turn := Asked;
      }
    }

    /** At most one rollback happens before the first update request and after each one: that is also why the loop
        ends when the program stops asking. */
    method MainLoop(first: Option<Pending>, compatible: set<Dir>, requests: nat) returns (rollbacks: nat)
      requires Valid() && Locked(s, first) && (Assumed(s) ==> Running(s, first))
      modifies this
      ensures Valid() && old(trace) <= trace && rollbacks <= requests + 1
      ensures old(faults) <= faults
      ensures Current(old(s)) in compatible ==> Begun(old(s), s, Current(old(s)))
    {
      hide Running, Assumed, SafeStart, Locked;
      var pending, left := first, requests;
      rollbacks := 0;
      ghost var begun := false;
      while Current(s) in compatible
        invariant Valid() && old(trace) <= trace && Locked(s, pending) && (Assumed(s) ==> Running(s, pending))
          && old(faults) <= faults
        invariant 0 <= left <= requests
        invariant rollbacks + (if pending.Some? && !pending.value.recovery then 1 else 0) <= requests - left + 1
        invariant if begun then Begun(old(s), s, Current(old(s))) else s == old(s)
        decreases left, if pending.Some? && !pending.value.recovery then 1 else 0
      {
        var turn, rolledBack, outcome;
        pending, turn, rolledBack, outcome := RunOnce(pending, left > 0);
        begun := true;
        rollbacks := rollbacks + if rolledBack then 1 else 0;
        match turn
        case Over => return;
        case Retried =>
        case Asked => left := left - 1;
      }
    }

    method BackupForSwitch(id: nat, fallback: Dir, incompatible: bool)
      returns (ok: bool, backup: Option<Copy>, targetDatabase: Option<Copy>)
      requires Valid() && Resolve(s) == Some(fallback) && s.journal.None? && id !in s.past.used
      modifies this
      ensures Valid() && old(trace) <= trace && old(faults) <= faults && s == old(s).(copies := s.copies)
      ensures Assumed(s) ==> Closed(s)
      ensures ok ==>
        backup == if s.database.None? then None else if incompatible then Some(Image(id))
          else Some(ByVersion(VersionOf(s, fallback)))
      ensures ok && backup.Some? ==> backup.value in s.copies && s.database == Some(s.copies[backup.value])
      ensures ok ==> targetDatabase == if incompatible && s.database.Some? then Some(ByVersion(s.builtin)) else None
      ensures ok && targetDatabase.Some? ==> targetDatabase.value in s.copies
      ensures !ok ==>
        old(faults) < faults || (incompatible && s.database.Some? && ByVersion(s.builtin) !in old(s).copies)
    {
      ok, backup, targetDatabase := true, None, None;
      if s.database.None? {
        return;
      }
      var copy := if incompatible then Image(id) else ByVersion(VersionOf(s, fallback));
      forall n: nat | Assumed(s) && n <= CopyLimit(s, copy)
        ensures Closed(Copied(s, copy, n))
      {
        CopyKeeps(s, copy, n);
      }
      ok := BackupStoppedDatabase(copy);
      if ok {
        backup := Some(copy);
        if incompatible {
          targetDatabase := Some(ByVersion(s.builtin));
          ok := ByVersion(s.builtin) in s.copies;
        }
      }
    }

    /** Backs the database up and journals the switch from the installed version to the image's own. */
    method OpenImageTransaction(id: nat, fallback: Dir, incompatible: bool) returns (ok: bool, t: Pending)
      requires Valid() && Resolve(s) == Some(fallback) && s.journal.None? && s.lock == Held(true, Own)
      requires !incompatible ==> VersionOf(s, fallback) < s.builtin
      modifies this
      ensures Valid() && old(trace) <= trace && (ok ==> s.journal == Some(t) && Validated(s, t))
      ensures ok ==>
        s.lock == Held(true, Of(t.id)) && t.id == id && t.target == Builtin && t.previous == fallback
          && t.backup.Some? == old(s).database.Some? && OfImage(old(s), t, fallback, incompatible)
      ensures ok && t.backup.Some? ==>
        t.backup.value in s.copies && s.database == old(s).database == Some(s.copies[t.backup.value])
      ensures ok && incompatible && old(s).database.Some? ==> t.targetDatabase == Some(ByVersion(old(s).builtin))
      ensures s.past.starts == old(s).past.starts && old(faults) <= faults
      ensures !ok ==>
        old(faults) < faults || id in old(s).past.used
          || (incompatible && old(s).database.Some? && ByVersion(old(s).builtin) !in old(s).copies)
    {
      t := ImageSwitch(s, id, fallback, incompatible, None, None);
      if id in s.past.used {
        // Transaction numbers come from the clock and are never used twice.
        return false, t;
      }
      var backup, targetDatabase;
      ok, backup, targetDatabase := BackupForSwitch(id, fallback, incompatible);
      if !ok {
        return;
      }
      t := ImageSwitch(s, id, fallback, incompatible, backup, targetDatabase);
      if Assumed(s) {
        ImageSwitchKeeps(s, id, fallback, incompatible, backup, targetDatabase);
      }
      ok := SavePending(t);
      if ok {
        ok := HandOff(id);
      }
    }

    /** Selects the version to start, with the launcher's own lock held, and leaves the lock to the image transaction it
        opens or releases it. */
    method SelectAndPrepare(compatible: set<Dir>, id: nat) returns (ok: bool, pending: Option<Pending>)
      requires Valid() && s.journal.None? && s.lock == Held(true, Own)
      modifies this
      ensures Valid() && old(trace) <= trace && (ok ==> Locked(s, pending) && (Assumed(s) ==> Running(s, pending)))
      ensures ok ==> Current(s) == if BuiltinFirst(old(s), compatible) then Builtin else old(s).link.value
      ensures ok ==> s.journal == pending && (pending.Some? <==> SetsAside(old(s), compatible))
      ensures ok && pending.Some? ==>
        && pending.value.id == id
        && OfImage(old(s), pending.value, old(s).link.value, old(s).link.value !in compatible)
      ensures s.past.starts == old(s).past.starts && old(faults) <= faults
      ensures !ok ==> old(faults) < faults || Unselectable(old(s), compatible, id)
    {
      var (target, fallback, incompatible) := SelectStartupVersion(s, compatible);
      pending := None;
      ok := true;
      if fallback.Some? {
        var t;
        ok, t := OpenImageTransaction(id, fallback.value, incompatible);
        if ok {
          pending := Some(t);
          ok := PreparePending(t);
        } else {
          var _ := ReleaseUpdateLock(Own);
        }
      } else {
        if Resolve(s) != Some(target) {
          assert Accounted(s) ==> Accounted(Switched(s, target, None));
          ok := SwitchCurrent(target, None);
        }
        ghost var selected := s;
        var _ := ReleaseUpdateLock(Own);
        if Assumed(s) {
          LockIsApart(selected, s.lock, None);
        }
      }
    }

    /** The lock at a start: that of the transaction to replay is taken over, or taken anew if it is gone; otherwise the
        launcher takes a lock of its own. */
    method LockForStart() returns (ok: bool)
      requires Valid()
      modifies this
      ensures Valid() && old(trace) <= trace && s == old(s).(lock := s.lock) && old(faults) <= faults
      ensures ok ==> s.lock == Held(true, if s.journal.Some? then Of(s.journal.value.id) else Own)
      ensures !ok ==> old(faults) < faults || Stuck(old(s))
      ensures Stuck(old(s)) ==> !ok && s == old(s)
    {
      if s.journal.None? {
        ok := ClearUpdateLock();
        if ok {
          ok := BeginUpdate();
        }
      } else if s.lock.Free? {
        ok := BeginUpdate();
        if ok {
          ok := HandOff(s.journal.value.id);
        }
      } else {
        ok := TakeOverUpdateLock(s.journal.value.id);
      }
    }

    /** One start of the launcher, with `requests` update requests by the programs it runs. `ready` is false when the
        journal cannot be read or the launcher's own lock cannot be taken, `accepted` when the journal's request is
        refused; `id` numbers a new image transaction. `entered` tells whether the launcher came to run programs: the
        first is the version that the journal or the selection calls for. */
    method Boot(compatible: set<Dir>, ready: bool, accepted: bool, id: nat, requests: nat)
      returns (entered: bool, rollbacks: nat)
      requires Valid()
      modifies this
      ensures Valid() && old(trace) <= trace && rollbacks <= requests + 1
      ensures entered && old(s).journal.Some? && old(s).journal.value.target in compatible ==>
        Begun(old(s), s, old(s).journal.value.target)
      ensures entered && old(s).journal.None? && BuiltinFirst(old(s), compatible) && Builtin in compatible ==>
        Begun(old(s), s, Builtin)
      ensures entered && old(s).journal.None? && !BuiltinFirst(old(s), compatible) ==>
        Begun(old(s), s, old(s).link.value)
      ensures entered && old(s).journal.Some? ==>
        var t := old(s).journal.value;
        && accepted && (t.previous.Slot? ==> t.previous.version in old(s).slots && t.previous.version == t.from)
        && (t.target.Slot? ==> t.target.version in old(s).slots)
        && (t.target.Slot? ==> t.target.version == if t.recovery then t.from else t.to)
        && (t.previous.Builtin? ==> t.from == old(s).builtin)
        && (t.target.Builtin? ==> old(s).builtin == if t.recovery then t.from else t.to)
        && (t.targetDatabase.Some? ==> t.targetDatabase.value in old(s).copies)
        && (t.image && t.backup.Some? ==> t.backup.value in old(s).copies)
        && (t.completed.Some? ==> t.completed.value == t.status)
      ensures !entered ==>
        old(faults) < faults || !ready || Stuck(old(s))
        || (if old(s).journal.Some? then !accepted || !Validated(old(s), old(s).journal.value)
          else Unselectable(old(s), compatible, id))
      ensures Stuck(old(s)) ==> !entered && s == old(s)
    {
      entered, rollbacks := false, 0;
      if !ready || (s.journal.Some? && (!accepted || !Validated(s, s.journal.value))) {
        return;
      }
      var pending := s.journal;
      var ok := LockForStart();
      if ok {
        if pending.Some? {
          ok := PreparePending(pending.value);
        } else {
          ok, pending := SelectAndPrepare(compatible, id);
        }
      }
      if ok {
        entered := true;
        rollbacks := MainLoop(pending, compatible, requests);
      }
    }
  }

  /** What one start of the container meets. */
  datatype BootUp = BootUp(image: nat, compatible: set<Dir>, ready: bool, accepted: bool, id: nat, requests: nat)

  /** Any number of starts, each cut short by a power loss at any moment, with the image replaced in between: as long
      as the surroundings keep the assumptions, every program start was safe and no switched transaction is
      forgotten, in every durable state. */
  method Lifetime(builtin: nat, boots: seq<BootUp>) returns (m: Machine)
    ensures m.Valid() && Traced(m.trace)
    ensures forall i | 0 <= i < |m.trace| && Assumed(m.trace[i]) ::
      var s := m.trace[i];
      && (forall id | id in s.past.switched :: id in s.results || (s.journal.Some? && s.journal.value.id == id))
      && (forall id | id in s.results && s.results[id] == Success ::
            && (id, false) in s.past.proved
            && (id in s.past.recovering ==> s.journal.Some? && s.journal.value.id == id))
      && (forall id | id in s.results && s.results[id] == RolledBack ::
            id in s.past.recovering && (id, true) in s.past.proved)
      && (forall e | e in s.past.starts ::
            && (e.database.Some? ==> e.database.value <= e.version)
            && (e.journal.Some? && e.journal.value.id in e.recovering ==>
              e.journal.value.recovery && e.dir == e.journal.value.previous))
  {
    m := new Machine(builtin);
    for k := 0 to |boots|
      invariant m.Valid() && fresh(m)
    {
      var BootUp(image, compatible, ready, accepted, id, requests) := boots[k];
      ReplacedIsOk(m.s, image);
      m.Commit(Replaced(m.s, image));
      var mark := |m.trace|;
      var _, _ := m.Boot(compatible, ready, accepted, id, requests);
      m.PowerLoss(mark);
    }
  }

  // ---- The assumptions are needed ----

  function DatabaseAfterRollback(s: State, t: Pending): Option<nat> {
    if t.backup.Some? && t.backup.value in s.copies then Some(s.copies[t.backup.value]) else s.database
  }

  /** What a rollback leaves can be read by the previous version exactly when the transaction has a backup or the new
      version has left no trace of its own. */
  lemma RollbackSafeIff(s: State, t: Pending)
    requires t.backup.Some? ==> t.backup.value in s.copies && s.copies[t.backup.value] <= t.from
    ensures Fits(DatabaseAfterRollback(s, t), t.from) <==> t.backup.Some? || Fits(s.database, t.from)
  {
  }

  /** Power fails between the journal of an image transaction and the hand-over of the lock to it: no start gets past
      that. */
  lemma CutHandOverSticks(s: State, t: Pending)
    requires s.lock == Held(true, Own)
    ensures Stuck(Saved(s, t)) && !Stuck(Saved(s, t).(lock := Held(true, Of(t.id))))
  {
  }

  function LastStart(s: State): Start
    requires |s.past.starts| > 0
  {
    s.past.starts[|s.past.starts| - 1]
  }

  /** How a request starts its version on the database `d`. */
  function StartOfRequest(s: State, id: nat, to: nat, d: Option<nat>): Start {
    var t := Forward(id, VersionOf(s, Current(s)), to, Slot(VersionOf(s, Current(s))));
    LastStart(Started(Switched(Saved(Accepted(WithDatabase(s, d), id, to), t), t.target, Some(id)), t.target))
  }

  /** The start after a power loss while the package takes the place of the directory of its version. */
  function StartOfCut(s: State, to: nat, d: Option<nat>): Start {
    var cut := WithDatabase(s, d).(slots := s.slots - {to});
    LastStart(Started(cut, Current(cut)))
  }

  lemma RequestStartSafeIff(s: State, id: nat, to: nat, d: Option<nat>)
    requires Running(s, None) && id !in s.past.used
    ensures SafeStart(StartOfRequest(s, id, to, d)) <==> Fits(d, to)
  {
  }

  lemma CutSafeIff(s: State, to: nat, d: Option<nat>)
    requires Running(s, None) && Fits(d, VersionOf(s, Current(s)))
    ensures SafeStart(StartOfCut(s, to, d)) <==> (Current(s) == Slot(to) ==> Fits(d, s.builtin))
  {
  }

  /** A request is safe to apply, on every database that the running version may leave and cut short at any moment,
      exactly when it goes up, or asks for the running version again while that is the built-in one or one that the
      built-in one can stand in for. */
  lemma RequestSafeIff(s: State, id: nat, to: nat)
    requires Running(s, None) && id !in s.past.used
    ensures
      (forall d | Fits(d, VersionOf(s, Current(s))) ::
         SafeStart(StartOfRequest(s, id, to, d)) && SafeStart(StartOfCut(s, to, d)))
      <==> GoesUp(s, to) || (VersionOf(s, Current(s)) == to <= s.builtin)
  {
    hide Running, SafeStart, StartOfRequest, StartOfCut;
    var worst := Some(VersionOf(s, Current(s)));
    assert Fits(worst, VersionOf(s, Current(s)));
    forall d | Fits(d, VersionOf(s, Current(s)))
      ensures SafeStart(StartOfRequest(s, id, to, d)) <==> Fits(d, to)
      ensures SafeStart(StartOfCut(s, to, d)) <==> (Current(s) == Slot(to) ==> Fits(d, s.builtin))
    {
      RequestStartSafeIff(s, id, to, d);
      CutSafeIff(s, to, d);
    }
  }

  /** An image may be replaced under a link to the built-in version exactly when the new one can read the database. */
  lemma ImageSafeIff(s: State, version: nat)
    requires Inv(s) && s.journal.None? && Current(s) == Builtin
    ensures SafeStart(LastStart(Started(Replaced(s, version), Builtin))) <==> Fits(s.database, version)
  {
  }

  /** A healthy update is completed and reported, and power fails before its journal is removed. The next start replays
      the journal; this time the new version is unhealthy and rolled back, under a result that says success. */
  lemma EarlySuccess()
    ensures
      var t := Forward(7, 1, 2, Slot(1));
      var a := State(1, {1, 2}, Some(Slot(2)), Some(1), map[ByVersion(1) := 1], Some(t), map[], Held(true, Of(7)),
                     NOTHING.(used := {7}, switched := {7}));
      var healthy := Proved(Started(a, Slot(2)), t);
      var reported := Recorded(Saved(healthy, t.(completed := Some(Success))), 7, Success);
      var back := WithDatabase(Switched(Started(reported, Slot(2)), Slot(1), None), Some(1));
      var rolled := Saved(back, Recovery(t));
      && Inv(a) && Inv(reported) && Running(rolled, Some(Recovery(t))) && Assumed(rolled)
      && 7 in rolled.past.recovering && Succeeded(rolled, 7)
  {
  }

  /** A transaction opened while there is no database has no backup; its rollback starts the old version on the new
      version's database. */
  lemma BareTransactionUnsafe()
    ensures
      var s := State(2, {1}, Some(Slot(1)), None, map[], None, map[], Free, NOTHING);
      var t := ImageSwitch(s, 7, Slot(1), false, None, None);
      var running := WithDatabase(Started(Switched(Saved(s, t), t.target, Some(t.id)), t.target), Some(2));
      var back := Started(Saved(Switched(running, t.previous, None), Recovery(t)), t.previous);
      Inv(s) && !SafeStart(back.past.starts[1]) && back.past.bare
  {
  }

  /** The executor does not compare versions: a request that goes down starts the older version on the newer
      database. */
  lemma DownwardRequestUnsafe()
    ensures
      var s := State(1, {2}, Some(Slot(2)), Some(2), map[], None, map[], Free, NOTHING);
      var t := Forward(7, 2, 1, Slot(2));
      var switched := Started(Switched(Saved(Accepted(s, 7, 1), t), t.target, Some(7)), t.target);
      Inv(s) && !SafeStart(switched.past.starts[0]) && switched.past.downward
  {
  }

  /** Installing the running version again removes its directory first. Power fails there, and the next start runs the
      older built-in version on its database. */
  lemma RepeatedRequestUnsafe()
    ensures
      var s := State(1, {2}, Some(Slot(2)), Some(2), map[], None, map[], Free, NOTHING);
      var cut := Accepted(s, 7, 2).(slots := {});
      Inv(s) && cut.past.downward && BuiltinFirst(cut, {Builtin}) && !SafeStart(LastStart(Started(cut, Builtin)))
  {
  }

  /** An older image under a link to the built-in directory meets the newer image's database. */
  lemma LoweredImageUnsafe()
    ensures
      var s := State(2, {}, Some(Builtin), Some(2), map[], None, map[], Free, NOTHING);
      var started := Started(Replaced(s, 1), Builtin);
      Inv(s) && !SafeStart(started.past.starts[0]) && started.past.lowered
  {
  }
}
