/** The lock file of an update, the managers of the processes that share it, and its passage to the executor by token.
    Every file operation may fail; one operation of a process is one step. */
module UpdateLock {
  import opened Options

  /** A lock that a manager takes is named after its process and the time; a request draws its token at random. The two
      have different lengths. */
  datatype Token = Own(n: nat) | Request(n: nat)

  /** The file: missing, not readable as a record (a write that failed half-way), or a record. */
  datatype Stored = Absent | Garbled | Record(pid: int, token: Token)

  /** Whether the file keeps a newcomer out. */
  predicate Blocking(file: Stored, alive: set<int>) {
    file.Garbled? || (file.Record? && file.pid in alive)
  }

  predicate Carries(file: Stored, token: Token) {
    file.Record? && file.token == token
  }

  predicate Acquired(before: Stored, after: Stored, pid: int, token: Token, alive: set<int>, lock: Option<Token>) {
    if lock.Some? then
      lock.value == token && after == Record(pid, token) && !Blocking(before, alive)
    else
      after == before || (!Blocking(before, alive) && !after.Record?)
  }

  predicate TookOver(before: Stored, after: Stored, pid: int, token: Token, ok: bool) {
    if ok then
      Carries(before, token) && after == Record(pid, token)
    else
      after == before || (Carries(before, token) && after.Garbled?)
  }

  /** A release with a token: only a record that carries it may vanish. */
  predicate Released(before: Stored, after: Stored, token: Token) {
    after == before || (Carries(before, token) && after.Absent?)
  }

  predicate PassedOn(before: Stored, after: Stored, lock: Token, token: Token, ok: bool) {
    if ok then
      Carries(before, lock) && after == Record(before.pid, token)
    else
      after == before || (Carries(before, lock) && !after.Record?)
  }

  // ---- The program ----

  class LockFile {
    var stored: Stored

    constructor ()
      ensures stored == Absent
    {
      stored := Absent;
    }

    method Remove() returns (failed: bool)
      modifies this
      ensures stored == if failed then old(stored) else Absent
    {
      failed := *;
      if !failed {
        stored := Absent;
      }
    }

    /** Replaces the content; a failure may leave anything unreadable behind. */
    method Write(record: Stored) returns (failed: bool)
      modifies this
      ensures if failed then stored == old(stored) || stored == Garbled else stored == record
    {
      failed := *;
      if !failed {
        stored := record;
      } else if * {
        stored := Garbled;
      }
    }

    /** Takes the lock, after removing the record of a dead process if need be. Without a failed file operation it
        succeeds exactly when nothing keeps it out. */
    method Acquire(pid: int, token: Token, alive: set<int>) returns (lock: Option<Token>, failed: bool)
      modifies this
      ensures Acquired(old(stored), stored, pid, token, alive, lock)
      ensures lock.Some? ==> lock == Some(token) && stored == Record(pid, token)
      ensures !failed ==>
        (lock.Some? <==> old(stored).Absent? || (old(stored).Record? && old(stored).pid !in alive))
      ensures old(stored).Garbled? || (old(stored).Record? && old(stored).pid in alive) ==>
        lock.None? && stored == old(stored)
    {
      lock, failed := None, false;
      for attempt := 0 to 2
        invariant lock.None?
        invariant stored == old(stored) || (stored.Absent? && !Blocking(old(stored), alive))
        invariant !failed && attempt == 1 ==> stored.Absent?
        invariant !failed ==> attempt < 2
      {
        if * {
          return None, true; // The file can be neither created nor found to exist.
        }
        if stored.Absent? {
          var broken := Write(Record(pid, token));
          if broken {
            var _ := Remove();
            return None, true;
          }
          return Some(token), false;
        }
        if * {
          return None, true; // The file cannot be read.
        }
        if Blocking(stored, alive) {
          return None, failed;
        }
        var left := Remove();
        failed := failed || left;
      }
    }

    /** The executor becomes the recorded process, provided the record carries its token. */
    method TakeOver(pid: int, expected: Token) returns (ok: bool, failed: bool)
      modifies this
      ensures TookOver(old(stored), stored, pid, expected, ok)
      ensures ok ==> old(stored).Record? && old(stored).token == expected && stored == Record(pid, expected)
      ensures !failed ==> ok == (old(stored).Record? && old(stored).token == expected)
      ensures !ok ==> stored == old(stored) || (old(stored).Record? && old(stored).token == expected && stored.Garbled?)
    {
      failed := *;
      if failed || !stored.Record? || stored.token != expected {
        return false, failed;
      }
      failed := Write(stored.(pid := pid));
      ok := !failed;
    }

    /** Rewrites the token of a lock that is still ours. */
    method HandOff(lock: Token, token: Token) returns (ok: bool, failed: bool)
      modifies this
      ensures PassedOn(old(stored), stored, lock, token, ok)
      ensures ok ==> old(stored).Record? && old(stored).token == lock && stored == old(stored).(token := token)
      ensures !failed ==> ok == (old(stored).Record? && old(stored).token == lock)
      ensures !ok ==> stored == old(stored) || (old(stored).Record? && old(stored).token == lock && !stored.Record?)
    {
      failed := *;
      if failed || !stored.Record? || stored.token != lock {
        return false, failed;
      }
      failed := Write(stored.(token := token));
      ok := !failed;
    }

    /** Both the release of a lock by its holder and the release by an executor with its request's token. */
    method Release(token: Token) returns (failed: bool)
      modifies this
      ensures Released(old(stored), stored, token)
      ensures stored != old(stored) ==> old(stored).Record? && old(stored).token == token && stored.Absent?
      ensures !failed && old(stored).Record? && old(stored).token == token ==> stored.Absent?
    {
      failed := *;
      if !failed && stored.Record? && stored.token == token {
        failed := Remove();
      }
    }

    method ReleaseWithoutToken() returns (failed: bool)
      modifies this
      ensures stored == if failed then old(stored) else Absent
    {
      failed := Remove();
    }
  }

  class Manager {
    const file: LockFile
    const pid: int
    var active: bool
    var lock: Option<Token>

    predicate Valid()
      reads this
    {
      active <==> lock.Some?
    }

    constructor (file: LockFile, pid: int)
      ensures Valid() && !active && this.file == file && this.pid == pid
    {
      this.file, this.pid := file, pid;
      active, lock := false, None;
    }

    method Begin(token: Token, alive: set<int>) returns (ok: bool, failed: bool)
      requires Valid()
      modifies this, file
      ensures Valid() && (ok ==> active)
      ensures old(active) ==> !ok && lock == old(lock) && file.stored == old(file.stored)
      ensures !old(active) ==> ok == active && Acquired(old(file.stored), file.stored, pid, token, alive, lock)
      ensures ok ==> lock == Some(token) && file.stored == Record(pid, token)
      ensures !old(active) && !failed ==>
        (ok <==> old(file.stored).Absent? || (old(file.stored).Record? && old(file.stored).pid !in alive))
    {
      if active {
        return false, false;
      }
      var acquired;
      acquired, failed := file.Acquire(pid, token, alive);
      ok := acquired.Some?;
      if ok {
        active, lock := true, acquired;
      }
    }

    /** The task ends, and the record goes if it is still the task's own. */
    method Finish() returns (failed: bool)
      requires Valid()
      modifies this, file
      ensures Valid() && !active
      ensures if old(active) then Released(old(file.stored), file.stored, old(lock).value)
        else file.stored == old(file.stored)
      ensures !failed && old(active) && Carries(old(file.stored), old(lock).value) ==> file.stored.Absent?
    {
      var held := lock;
      active, lock := false, None;
      failed := false;
      if held.Some? {
        failed := file.Release(held.value);
      }
    }

    /** The record passes to `token`, and the task ends here in any case; on a failure its own record is released. */
    method HandOff(token: Token) returns (ok: bool, failed: bool)
      requires Valid()
      modifies this, file
      ensures Valid() && !active
      ensures if old(active) then PassedOn(old(file.stored), file.stored, old(lock).value, token, ok)
        else ok && file.stored == old(file.stored)
      ensures !failed && old(active) ==> ok == Carries(old(file.stored), old(lock).value)
    {
      ok, failed := true, false;
      if lock.Some? {
        ok, failed := file.HandOff(lock.value, token);
        if !ok {
          var _ := Finish();
          return;
        }
      }
      active, lock := false, None;
    }
  }

  // ---- All processes together ----

  datatype Holder = Holder(pid: int, lock: Option<Token>)
  datatype State = State(file: Stored, managers: map<nat, Holder>, used: set<nat>)

  /** `alive` is what the process looks like from outside when it asks whether the recorded one lives. */
  datatype Event =
    | Start(m: nat, pid: int)
    | Exit(m: nat)
    | Begin(m: nat, token: nat, alive: set<int>)
    | Finish(m: nat)
    | HandOff(m: nat, request: nat)
    | TakeOver(pid: int, request: nat)
    | Release(request: nat)
    | ReleaseAny

  predicate Active(s: State, m: nat) {
    m in s.managers && s.managers[m].lock.Some?
  }

  /** A process that runs is found alive, a manager's tokens are new, and only managers that exist act. */
  ghost predicate Possible(s: State, e: Event) {
    match e
    case Start(m, _) => m !in s.managers
    case Begin(m, token, alive) => m in s.managers && token !in s.used && forall k | k in s.managers ::
      s.managers[k].pid in alive
    case Exit(m) => m in s.managers
    case Finish(m) => m in s.managers
    case HandOff(m, _) => m in s.managers
    case _ => true
  }

  /** What one operation may do; each case is the contract of the method above. */
  predicate Step(s: State, e: Event, t: State) {
    match e
    case Start(m, pid) => t == s.(managers := s.managers[m := Holder(pid, None)])
    case Exit(m) => t == s.(managers := s.managers - {m})
    case Begin(m, token, alive) =>
      && m in s.managers && m in t.managers
      && t == State(t.file, s.managers[m := t.managers[m]], s.used + {token})
      && t.managers[m].pid == s.managers[m].pid
      && if Active(s, m) then t.managers[m] == s.managers[m] && t.file == s.file
         else Acquired(s.file, t.file, s.managers[m].pid, Own(token), alive, t.managers[m].lock)
    case Finish(m) =>
      && m in s.managers && t == s.(file := t.file, managers := s.managers[m := s.managers[m].(lock := None)])
      && if Active(s, m) then Released(s.file, t.file, s.managers[m].lock.value) else t.file == s.file
    case HandOff(m, request) =>
      && m in s.managers && t == s.(file := t.file, managers := s.managers[m := s.managers[m].(lock := None)])
      && if Active(s, m) then exists ok :: PassedOn(s.file, t.file, s.managers[m].lock.value, Request(request), ok)
         else t.file == s.file
    case TakeOver(pid, request) => t == s.(file := t.file) && exists ok ::
      TookOver(s.file, t.file, pid, Request(request), ok)
    case Release(request) => t == s.(file := t.file) && Released(s.file, t.file, Request(request))
    case ReleaseAny => t == s.(file := t.file) && (t.file == s.file || t.file == Absent)
  }

  /** While a manager is active the file is its record; a manager's token in the file is a used one. */
  ghost predicate Inv(s: State) {
    && (forall m | Active(s, m) ::
         s.file == Record(s.managers[m].pid, s.managers[m].lock.value) && s.file.token.Own?)
    && (forall m, k | Active(s, m) && Active(s, k) :: m == k)
    && (s.file.Record? && s.file.token.Own? ==> s.file.token.n in s.used)
  }

  ghost predicate Run(states: seq<State>, events: seq<Event>) {
    && |states| == |events| + 1
    && forall i | 0 <= i < |events| :: Possible(states[i], events[i]) && Step(states[i], events[i], states[i + 1])
  }

  /** Nobody becomes active but by a beginning that nothing keeps out. */
  lemma NewlyActive(s: State, e: Event, t: State, m: nat)
    requires Inv(s) && Possible(s, e) && Step(s, e, t) && Active(t, m)
    ensures Active(s, m) || (e.Begin? && e.m == m && !Blocking(s.file, e.alive) && forall k :: !Active(s, k))
    ensures Active(s, m) ==> t.managers[m] == s.managers[m]
  {
    if !Active(s, m) {
      assert e.Begin? && e.m == m;
      assert forall k | k in s.managers :: s.managers[k].pid in e.alive;
    }
  }

  lemma StepKeeps(s: State, e: Event, t: State)
    requires Inv(s) && Possible(s, e) && Step(s, e, t) && !e.ReleaseAny?
    ensures Inv(t)
  {
    forall m | Active(t, m)
      ensures t.file == Record(t.managers[m].pid, t.managers[m].lock.value) && t.file.token.Own?
    {
      NewlyActive(s, e, t, m);
      if Active(s, m) && e.Begin? {
        assert s.managers[m].pid in e.alive;
      }
    }
    forall m, k | Active(t, m) && Active(t, k)
      ensures m == k
    {
      NewlyActive(s, e, t, m);
      NewlyActive(s, e, t, k);
    }
  }

  lemma {:induction false} RunKeeps(states: seq<State>, events: seq<Event>, i: nat)
    requires Run(states, events) && Inv(states[0]) && i < |states|
    requires forall j | 0 <= j < i :: !events[j].ReleaseAny?
    ensures Inv(states[i])
  {
    if i > 0 {
      RunKeeps(states, events, i - 1);
      StepKeeps(states[i - 1], events[i - 1], states[i]);
    }
  }

  /** Without the release that names no token, at most one manager of all processes is active, and its record is in the
      file. */
  lemma OneTask(states: seq<State>, events: seq<Event>, i: nat, m: nat)
    requires Run(states, events) && Inv(states[0]) && i < |states| && Active(states[i], m)
    requires forall j | 0 <= j < i :: !events[j].ReleaseAny?
    ensures states[i].file == Record(states[i].managers[m].pid, states[i].managers[m].lock.value)
    ensures forall k | k != m :: !Active(states[i], k)
  {
    RunKeeps(states, events, i);
  }

  /** While one is active, an attempt to begin changes nothing but the tokens used up. */
  lemma OthersWait(s: State, e: Event, t: State, m: nat)
    requires Inv(s) && Possible(s, e) && Step(s, e, t) && Active(s, m) && e.Begin?
    ensures t == s.(used := s.used + {e.token})
  {
    assert s.managers[m].pid in e.alive;
    assert s.managers[e.m := s.managers[e.m]] == s.managers;
  }

  /** A process that dies with the lock keeps nobody out: the next one begins, and is then the only one active. */
  lemma DeadRecordYields(s: State, m: nat, k: nat, token: nat, alive: set<int>, dead: State)
    requires Inv(s) && Active(s, m) && k in s.managers && k != m && dead == s.(managers := s.managers - {m})
    requires Possible(dead, Begin(k, token, alive)) && s.managers[m].pid !in alive
    ensures Step(s, Exit(m), dead) && dead.file.Record?
    ensures exists next ::
      && Step(dead, Begin(k, token, alive), next) && Active(next, k) && Inv(next)
      && next.file == Record(s.managers[k].pid, Own(token))
  {
    var pid := s.managers[k].pid;
    var next :=
      State(Record(pid, Own(token)), dead.managers[k := Holder(pid, Some(Own(token)))], dead.used + {token});
    assert Inv(dead);
    assert Step(dead, Begin(k, token, alive), next);
    StepKeeps(dead, Begin(k, token, alive), next);
  }

  /** A record vanishes only by its own token, or at a new beginning after its process has died. */
  lemma NoForeignDeletion(s: State, e: Event, t: State)
    requires Inv(s) && Possible(s, e) && Step(s, e, t) && !e.ReleaseAny?
    requires s.file.Record? && t.file.Absent?
    ensures match e
            case Begin(_, _, alive) => s.file.pid !in alive && forall m :: !Active(s, m)
            case Finish(m) => Active(s, m) && Carries(s.file, s.managers[m].lock.value)
            case HandOff(m, _) => Active(s, m) && Carries(s.file, s.managers[m].lock.value)
            case Release(request) => Carries(s.file, Request(request)) && forall m :: !Active(s, m)
            case _ => false
  {
    if m :| Active(s, m) && e.Begin? {
      OthersWait(s, e, t, m);
    }
  }

  /** Whether an event may end a handed-over lock, or finds the recorded process dead. */
  predicate Undisturbed(s: State, e: Event, request: nat) {
    match e
    case Release(other) => other != request
    case ReleaseAny => false
    case Begin(_, _, alive) => Blocking(s.file, alive)
    case _ => true
  }

  ghost predicate HandedOver(s: State, request: nat) {
    && (Carries(s.file, Request(request)) || s.file.Garbled?)
    && forall m :: !Active(s, m)
  }

  lemma HandedOverStep(s: State, e: Event, t: State, request: nat)
    requires Possible(s, e) && Step(s, e, t) && HandedOver(s, request) && Undisturbed(s, e, request)
    ensures HandedOver(t, request)
  {
    forall m
      ensures !Active(t, m)
    {
      assert !Active(s, m);
    }
    if e.HandOff? || e.Finish? {
      assert !Active(s, e.m);
    }
  }

  /** From the hand-over under a request's token until the release with that token, as long as the recorded process
      lives at every attempt, no manager begins, whatever else all processes do; the record keeps the token unless
      rewriting it failed half-way. */
  lemma {:induction false} HandedOverStaysTaken(states: seq<State>, events: seq<Event>, i: nat, j: nat, request: nat)
    requires Run(states, events) && Inv(states[0]) && i <= j < |states|
    requires forall k | 0 <= k < i :: !events[k].ReleaseAny?
    requires Carries(states[i].file, Request(request))
    requires forall k | i <= k < j :: Undisturbed(states[k], events[k], request)
    ensures HandedOver(states[j], request)
  {
    if i == j {
      RunKeeps(states, events, i);
    } else {
      HandedOverStaysTaken(states, events, i, j - 1, request);
      assert Undisturbed(states[j - 1], events[j - 1], request);
      HandedOverStep(states[j - 1], events[j - 1], states[j], request);
    }
  }

  /** A hand-over that finds its own record there puts the request's token into it. */
  lemma HandOverStarts(s: State, e: Event, t: State)
    requires Inv(s) && Possible(s, e) && Step(s, e, t) && e.HandOff? && Active(s, e.m)
    requires t.file.Record? && t.file != s.file
    ensures Carries(t.file, Request(e.request)) && t.file.pid == s.managers[e.m].pid && forall m :: !Active(t, m)
  {
    forall m
      ensures !Active(t, m)
    {
      if Active(t, m) {
        NewlyActive(s, e, t, m);
      }
    }
  }

  /** The release that names no token lets an idle manager begin beside an active one exactly when there is one. */
  lemma ReleaseWithoutTokenHarmsIff(s: State, k: nat, token: nat, alive: set<int>)
    requires Inv(s) && !Active(s, k) && Possible(s, Begin(k, token, alive))
    ensures
      var released := s.(file := Absent);
      (exists m :: Active(s, m)) <==>
        exists t, m :: Step(released, Begin(k, token, alive), t) && Active(t, k) && m != k && Active(t, m)
  {
    var released := s.(file := Absent);
    var pid := s.managers[k].pid;
    var t := State(Record(pid, Own(token)), s.managers[k := Holder(pid, Some(Own(token)))], s.used + {token});
    if m :| Active(s, m) {
      assert Step(released, Begin(k, token, alive), t) && Active(t, k) && Active(t, m);
    }
    forall u, m | Step(released, Begin(k, token, alive), u) && m != k && Active(u, m)
      ensures Active(s, m)
    {
    }
  }

  /** The release that names no token is different: after it two managers are active at once. */
  lemma ReleaseWithoutTokenAdmitsTwo(states: seq<State>, events: seq<Event>)
    requires events == [Start(0, 10), Start(1, 20), Begin(0, 0, {10, 20}), ReleaseAny, Begin(1, 1, {10, 20})]
    requires
      var both := map[0 := Holder(10, None), 1 := Holder(20, None)];
      var first := both[0 := Holder(10, Some(Own(0)))];
      states == [
        State(Absent, map[], {}), State(Absent, map[0 := Holder(10, None)], {}), State(Absent, both, {}),
        State(Record(10, Own(0)), first, {0}), State(Absent, first, {0}),
        State(Record(20, Own(1)), first[1 := Holder(20, Some(Own(1)))], {0, 1})]
    ensures Run(states, events) && Inv(states[0]) && Active(states[5], 0) && Active(states[5], 1)
  {
    assert states[1].managers[1 := Holder(20, None)] == states[2].managers;
    assert states[0].managers[0 := Holder(10, None)] == states[1].managers;
    assert {0} + {1} == {0, 1};
    forall i | 0 <= i < |events|
      ensures Possible(states[i], events[i]) && Step(states[i], events[i], states[i + 1])
    {
      if i == 0 {} else if i == 1 {} else if i == 2 {} else if i == 3 {} else {}
    }
  }
}
