/** Who may run when: account tasks, update maintenance and power batches share one mutex, but starting a task takes
    three critical sections and preparing an update takes many. Each event below is one critical section, one read of
    the redemption table, or one call to the platform; any interleaving of them is a run. */
module TaskGate {
  import opened Options

  datatype Kind = Login | Chat | Pc | Redeem

  datatype Key = Key(account: int, kind: Kind) {
    predicate UsesDesktop() {
      kind == Pc || kind == Login
    }
  }

  datatype Run = Run(key: Key, cancelled: bool)

  /** Where the one preparation of an update stands: `Polled` has read the tasks (`short` when some were starting or
      short), `Clearing` has also read the redemptions, `Ready` has returned success, `Failing` is about to cancel. */
  datatype Stage = Idle | Waiting | Polled(short: bool) | Clearing | Ready | Failing

  /** `calls` are the calls of StartTask between their first and their last critical section; `swept` the accounts
      whose sessions the running batch has cancelled, `target` the account it is about to submit for;
      `pendingRedeem` whether some order is uncertain. */
  datatype State = State(
    starting: set<Key>, active: map<nat, Run>, maintenance: bool, powerActive: nat, powerAccounts: set<int>,
    calls: map<nat, Key>, swept: set<int>, target: Option<int>, stage: Stage, pendingRedeem: bool)

  datatype Event =
    | Enter(call: nat, key: Key)
    | Abort(call: nat)
    | Commit(call: nat, run: nat)
    | Finish(run: nat)
    | Order(run: nat)
    | SettleOrders
    | BeginPrepare
    | Poll
    | CheckRedeem
    | Expire
    | Return
    | CancelMaintenance
    | StartPower(job: nat, accounts: set<int>)
    | Sweep(account: int)
    | Operate(account: int)
    | EndPower

  const INITIAL := State({}, map[], false, 0, {}, map[], {}, None, Idle, false)

  predicate PowerBlocks(s: State, key: Key) {
    key.account in s.powerAccounts && key.UsesDesktop()
  }

  predicate IsActive(s: State, key: Key) {
    exists r | r in s.active :: s.active[r].key == key
  }

  predicate MayEnter(s: State, key: Key) {
    !PowerBlocks(s, key) && !s.maintenance && key !in s.starting && !IsActive(s, key)
  }

  /** The first critical section of StartTask. */
  function EnterNext(s: State, call: nat, key: Key): State {
    if MayEnter(s, key) then s.(starting := s.starting + {key}, calls := s.calls[call := key]) else s
  }

  function AbortNext(s: State, call: nat): State
    requires call in s.calls
  {
    s.(starting := s.starting - {s.calls[call]}, calls := s.calls - {call})
  }

  predicate MayCommit(s: State, key: Key) {
    !s.maintenance && !PowerBlocks(s, key)
  }

  /** The last critical section of StartTask: it checks the gates again. */
  function CommitNext(s: State, call: nat, run: nat): State
    requires call in s.calls
  {
    var left := AbortNext(s, call);
    if MayCommit(s, s.calls[call]) then left.(active := s.active[run := Run(s.calls[call], false)]) else left
  }

  predicate Blocking(s: State) {
    exists r | r in s.active :: s.active[r].key.kind == Pc || s.active[r].key.kind == Redeem
  }

  predicate Short(s: State) {
    s.starting != {} || exists r | r in s.active :: s.active[r].key.kind == Login || s.active[r].key.kind == Chat
  }

  function PollNext(s: State): State {
    s.(stage := if Blocking(s) then Failing else Polled(Short(s)))
  }

  function CheckNext(s: State, short: bool): State {
    s.(stage := if s.pendingRedeem then Failing else if short then Waiting else Clearing)
  }

  function SweptRun(run: Run, account: int): Run {
    if run.key.account == account && run.key.UsesDesktop() then run.(cancelled := true) else run
  }

  function Swept(active: map<nat, Run>, account: int): map<nat, Run> {
    map r | r in active :: SweptRun(active[r], account)
  }

  predicate MayStartPower(s: State) {
    !s.maintenance && s.powerActive == 0
  }

  /** What may happen next. A finished or refused preparation is `Idle` again; the update manager admits one at a
      time. A run enters the table under a number of its own; only a running redemption leaves an order uncertain;
      the batch sweeps the account of each target before it operates that
      target. */
  predicate Enabled(s: State, e: Event) {
    match e
    case Enter(call, _) => call !in s.calls
    case Abort(call) => call in s.calls
    case Commit(call, run) => call in s.calls && run !in s.active
    case Finish(run) => run in s.active
    case Order(run) => run in s.active && s.active[run].key.kind == Redeem
    case SettleOrders => true
    case BeginPrepare => s.stage == Idle || (s.stage == Ready && !s.maintenance)
    case Poll => s.stage == Waiting
    case CheckRedeem => s.stage.Polled?
    case Expire => s.stage == Waiting
    case Return => s.stage == Clearing
    case CancelMaintenance => true
    case StartPower(job, _) => job != 0
    case Sweep(account) => s.powerActive != 0 && account in s.powerAccounts
    case Operate(account) => s.powerActive != 0 && s.target == Some(account)
    case EndPower => s.powerActive != 0
  }

  function Next(s: State, e: Event): State
    requires Enabled(s, e)
  {
    match e
    case Enter(call, key) => EnterNext(s, call, key)
    case Abort(call) => AbortNext(s, call)
    case Commit(call, run) => CommitNext(s, call, run)
    case Finish(run) => s.(active := s.active - {run})
    case Order(run) => s.(pendingRedeem := true)
    case SettleOrders => s.(pendingRedeem := false)
    case BeginPrepare =>
      if s.powerActive != 0 || s.maintenance then s.(stage := Idle) else s.(maintenance := true, stage := Waiting)
    case Poll => PollNext(s)
    case CheckRedeem => CheckNext(s, s.stage.short)
    case Expire => s.(stage := Failing)
    case Return => s.(stage := Ready)
    case CancelMaintenance =>
      s.(maintenance := false, stage := if s.stage == Failing || s.stage == Ready then Idle else s.stage)
    case StartPower(job, accounts) =>
      if MayStartPower(s) then s.(powerActive := job, powerAccounts := accounts, swept := {}, target := None) else s
    case Sweep(account) => s.(active := Swept(s.active, account), swept := s.swept + {account}, target := Some(account))
    case Operate(account) => s.(target := None)
    case EndPower => s.(powerActive := 0, powerAccounts := {}, swept := {}, target := None)
  }

  ghost predicate Possible(s: State, events: seq<Event>)
    decreases |events|
  {
    events == [] || (Enabled(s, events[0]) && Possible(Next(s, events[0]), events[1..]))
  }

  ghost function After(s: State, events: seq<Event>): State
    requires Possible(s, events)
    decreases |events|
  {
    if events == [] then s else After(Next(s, events[0]), events[1..])
  }

  // ---- What every run keeps ----

  /** No starting key is stuck: a call that will release it is under way. */
  ghost predicate Owned(s: State) {
    forall k | k in s.starting :: exists c :: c in s.calls && s.calls[c] == k
  }

  /** A key is held by at most one call or run. */
  ghost predicate KeysUnique(s: State) {
    && (forall c | c in s.calls :: s.calls[c] in s.starting)
    && (forall c, d | c in s.calls && d in s.calls && s.calls[c] == s.calls[d] :: c == d)
    && (forall p, q | p in s.active && q in s.active && s.active[p].key == s.active[q].key :: p == q)
    && (forall r | r in s.active :: s.active[r].key !in s.starting)
  }

  ghost predicate DesktopsQuiet(s: State, accounts: set<int>) {
    forall r | r in s.active && s.active[r].key.account in accounts && s.active[r].key.UsesDesktop() ::
      s.active[r].cancelled
  }

  ghost predicate Quiet(s: State) {
    s.starting == {} && s.active == map[]
  }

  lemma NextKeepsOwned(s: State, e: Event)
    requires KeysUnique(s) && Owned(s) && Enabled(s, e)
    ensures Owned(Next(s, e))
  {
    var t := Next(s, e);
    forall k | k in t.starting
      ensures exists c :: c in t.calls && t.calls[c] == k
    {
      if e.Enter? && k !in s.starting {
        assert t.calls[e.call] == k;
      } else {
        var c :| c in s.calls && s.calls[c] == k;
        assert c in t.calls && t.calls[c] == k;
      }
    }
  }

  lemma EnterKeepsKeys(s: State, call: nat, key: Key)
    requires KeysUnique(s) && call !in s.calls
    ensures KeysUnique(EnterNext(s, call, key))
  {
    if MayEnter(s, key) {
      assert forall r | r in s.active :: s.active[r].key != key;
    }
  }

  lemma AbortKeepsKeys(s: State, call: nat)
    requires KeysUnique(s) && call in s.calls
    ensures KeysUnique(AbortNext(s, call)) && s.calls[call] !in AbortNext(s, call).starting
  {
  }

  lemma CommitKeepsKeys(s: State, call: nat, run: nat)
    requires KeysUnique(s) && call in s.calls && run !in s.active
    ensures KeysUnique(CommitNext(s, call, run))
  {
    AbortKeepsKeys(s, call);
    var left, t := AbortNext(s, call), CommitNext(s, call, run);
    assert t.calls == left.calls && t.starting == left.starting;
    assert s.calls[call] in s.starting && s.calls[call] !in t.starting;
  }

  lemma NextKeepsKeys(s: State, e: Event)
    requires KeysUnique(s) && Enabled(s, e)
    ensures KeysUnique(Next(s, e))
  {
    match e
    case Enter(call, key) => EnterKeepsKeys(s, call, key);
    case Abort(call) => AbortKeepsKeys(s, call);
    case Commit(call, run) => CommitKeepsKeys(s, call, run);
    case _ =>
  }

  /** A poll that finds nothing blocking and nothing short has found nothing. */
  lemma NothingFound(s: State)
    requires !Blocking(s) && !Short(s)
    ensures Quiet(s)
  {
    assert s.active.Keys == {};
  }

  /** The power batch: never beside maintenance, and the desktop runs of swept accounts are cancelled. */
  ghost predicate PowerInv(s: State) {
    && !(s.maintenance && s.powerActive != 0)
    && (s.powerActive == 0 ==> s.powerAccounts == {})
    && s.swept <= s.powerAccounts && DesktopsQuiet(s, s.swept)
    && (s.target.Some? ==> s.target.value in s.swept)
  }

  /** A preparation that has found nothing stays right while maintenance holds. */
  ghost predicate PrepareInv(s: State) {
    && (s.maintenance && (s.stage == Polled(false) || s.stage == Clearing || s.stage == Ready) ==> Quiet(s))
    && (s.maintenance && (s.stage == Clearing || s.stage == Ready) ==> !s.pendingRedeem)
  }

  ghost predicate Inv(s: State) {
    KeysUnique(s) && Owned(s) && PowerInv(s) && PrepareInv(s)
  }

  lemma NextKeepsPower(s: State, e: Event)
    requires PowerInv(s) && Enabled(s, e)
    ensures PowerInv(Next(s, e))
  {
    assert e.Commit? ==>
      forall r | r in Next(s, e).active && r != e.run :: r in s.active && s.active[r] == Next(s, e).active[r];
  }

  lemma NextKeepsPrepare(s: State, e: Event)
    requires PrepareInv(s) && KeysUnique(s) && Enabled(s, e)
    ensures PrepareInv(Next(s, e))
  {
    match e
    case Poll =>
      if Next(s, e).stage == Polled(false) {
        NothingFound(s);
      }
    case Abort(call) =>
      assert s.calls[call] in s.starting;
    case Commit(call, run) =>
      assert s.calls[call] in s.starting;
    case _ =>
  }

  lemma NextKeeps(s: State, e: Event)
    requires Inv(s) && Enabled(s, e)
    ensures Inv(Next(s, e))
  {
    NextKeepsKeys(s, e);
    NextKeepsOwned(s, e);
    NextKeepsPower(s, e);
    NextKeepsPrepare(s, e);
  }

  lemma {:induction false} RunKeeps(s: State, events: seq<Event>)
    requires Inv(s) && Possible(s, events)
    ensures Inv(After(s, events))
    decreases |events|
  {
    if events != [] {
      NextKeeps(s, events[0]);
      RunKeeps(Next(s, events[0]), events[1..]);
    }
  }

  // ---- Main results ----

  /** When the preparation of an update has returned success and maintenance has not been cancelled, nothing is
      starting, nothing is active, no order is uncertain and no power batch runs. */
  lemma ReadyIsQuiet(events: seq<Event>)
    requires Possible(INITIAL, events)
    ensures
      var s := After(INITIAL, events);
      s.maintenance && s.stage == Ready ==>
        s.starting == {} && s.active == map[] && !s.pendingRedeem && s.powerActive == 0
  {
    RunKeeps(INITIAL, events);
  }

  /** It stays so, whatever tasks and batches try, until maintenance is cancelled. */
  lemma {:induction false} QuietLasts(s: State, events: seq<Event>)
    requires Inv(s) && s.maintenance && s.stage == Ready
    requires Possible(s, events) && CancelMaintenance !in events
    ensures
      var t := After(s, events);
      && t.maintenance && t.stage == Ready && t.starting == {} && t.active == map[] && !t.pendingRedeem
      && t.powerActive == 0
    decreases |events|
  {
    if events != [] {
      NextKeeps(s, events[0]);
      QuietLasts(Next(s, events[0]), events[1..]);
    }
  }

  /** An order that a redemption leaves uncertain between the two reads fails the preparation, unless it is settled. */
  lemma OrderStopsPreparation(s: State, run: nat)
    requires Inv(s) && s.stage.Polled? && run in s.active && s.active[run].key.kind == Redeem
    ensures Next(Next(s, Order(run)), CheckRedeem).stage == Failing
    ensures Next(Next(Next(s, Order(run)), SettleOrders), CheckRedeem).stage ==
      if s.stage.short then Waiting else Clearing
  {
  }

  /** Without that condition the promise fails: a cancellation by someone else while the preparation is between its
      two reads lets a task in, and the preparation still returns success. */
  lemma ForeignCancelBreaksReady()
    ensures
      var events :=
        [BeginPrepare] + ([Poll] + ([CancelMaintenance] + ([Enter(0, Key(1, Chat))] + ([CheckRedeem] + [Return]))));
      Possible(INITIAL, events) && After(INITIAL, events).stage == Ready && !Quiet(After(INITIAL, events))
  {
    var waiting := Next(INITIAL, BeginPrepare);
    var polled := Next(waiting, Poll);
    var open := Next(polled, CancelMaintenance);
    var busy := Next(open, Enter(0, Key(1, Chat)));
    var clearing := Next(busy, CheckRedeem);
    assert open == INITIAL.(stage := Polled(false));
    assert busy == open.(starting := {Key(1, Chat)}, calls := map[0 := Key(1, Chat)]);
    assert clearing == busy.(stage := Clearing);
    ForeignCancelEnds(clearing);
    Before(busy, CheckRedeem, [Return]);
    Before(open, Enter(0, Key(1, Chat)), [CheckRedeem] + [Return]);
    Before(polled, CancelMaintenance, [Enter(0, Key(1, Chat))] + ([CheckRedeem] + [Return]));
    Before(waiting, Poll, [CancelMaintenance] + ([Enter(0, Key(1, Chat))] + ([CheckRedeem] + [Return])));
    Before(INITIAL, BeginPrepare,
      [Poll] + ([CancelMaintenance] + ([Enter(0, Key(1, Chat))] + ([CheckRedeem] + [Return]))));
  }

  lemma ForeignCancelEnds(s: State)
    requires s.stage == Clearing
    ensures Possible(s, [Return]) && After(s, [Return]) == s.(stage := Ready)
  {
    Before(s, Return, []);
    assert [Return] + [] == [Return];
  }

  lemma Before(s: State, e: Event, rest: seq<Event>)
    requires Enabled(s, e) && Possible(Next(s, e), rest)
    ensures Possible(s, [e] + rest) && After(s, [e] + rest) == After(Next(s, e), rest)
  {
    assert ([e] + rest)[1..] == rest;
  }

  lemma {:induction false} Bound(xs: set<int>) returns (b: nat)
    ensures forall x | x in xs :: x < b
  {
    if x :| x in xs {
      b := Bound(xs - {x});
      assert forall y | y in xs :: y == x || y in xs - {x};
      b := if x < b then b else x + 1;
    } else {
      b := 0;
    }
  }

  lemma {:induction false} MaintenanceLasts(s: State, events: seq<Event>)
    requires s.maintenance && Possible(s, events) && CancelMaintenance !in events
    ensures After(s, events).maintenance
    decreases |events|
  {
    if events != [] {
      MaintenanceLasts(Next(s, events[0]), events[1..]);
    }
  }

  /** There is always a call and a task that nothing but maintenance keeps out. */
  lemma FreshStart(s: State) returns (call: nat, key: Key)
    ensures call !in s.calls && !key.UsesDesktop() && key !in s.starting && !IsActive(s, key)
  {
    var numbers := set c | c in s.calls :: c as int;
    var accounts := (set k | k in s.starting :: k.account) + (set r | r in s.active :: s.active[r].key.account);
    assert forall c | c in s.calls :: c as int in numbers;
    assert forall k | k in s.starting :: k.account in accounts;
    assert forall r | r in s.active :: s.active[r].key.account in accounts;
    call := Bound(numbers);
    var account := Bound(accounts);
    key := Key(account, Chat);
  }

  /** With maintenance lost, a task is let in and the preparation still succeeds. */
  lemma LostMaintenance(s: State)
    requires !s.maintenance && (s.stage == Polled(false) || s.stage == Clearing)
    ensures exists events ::
      Possible(s, events) && CancelMaintenance !in events && After(s, events).stage == Ready && !Quiet(After(s, events))
  {
    var call, key := FreshStart(s);
    var settled := Next(s, SettleOrders);
    var busy := Next(settled, Enter(call, key));
    assert key in busy.starting;
    if s.stage == Clearing {
      ForeignCancelEnds(busy);
      Before(settled, Enter(call, key), [Return]);
      Before(s, SettleOrders, [Enter(call, key)] + [Return]);
    } else {
      ForeignCancelEnds(Next(busy, CheckRedeem));
      Before(busy, CheckRedeem, [Return]);
      Before(settled, Enter(call, key), [CheckRedeem] + [Return]);
      Before(s, SettleOrders, [Enter(call, key)] + ([CheckRedeem] + [Return]));
    }
  }

  /** A preparation that has seen nothing running keeps its promise exactly when maintenance is still on. */
  lemma PreparationHoldsIff(s: State)
    requires Inv(s) && (s.stage == Polled(false) || s.stage == Clearing)
    ensures s.maintenance <==> forall events ::
      Possible(s, events) && CancelMaintenance !in events && After(s, events).stage == Ready ==> Quiet(After(s, events))
  {
    if s.maintenance {
      forall events | Possible(s, events) && CancelMaintenance !in events && After(s, events).stage == Ready
        ensures Quiet(After(s, events))
      {
        MaintenanceLasts(s, events);
        RunKeeps(s, events);
      }
    } else {
      LostMaintenance(s);
    }
  }

  /** From the moment an account is swept, which is before each submission for it, until the batch ends: its desktop
      runs are cancelled, and no desktop run of any account of the batch is added. */
  lemma {:induction false} BatchIsAlone(s: State, events: seq<Event>, account: int)
    requires Inv(s) && s.powerActive != 0 && account in s.swept
    requires Possible(s, events) && EndPower !in events
    ensures
      var t := After(s, events);
      && t.powerActive == s.powerActive && account in t.swept && t.powerAccounts == s.powerAccounts && !t.maintenance
      && (forall r | r in t.active && t.active[r].key.account == account
          && (t.active[r].key.kind == Pc || t.active[r].key.kind == Login) :: t.active[r].cancelled)
      && forall r | r in t.active && t.active[r].key.account in s.powerAccounts
          && (t.active[r].key.kind == Pc || t.active[r].key.kind == Login) ::
        r in s.active && s.active[r].key == t.active[r].key
    decreases |events|
  {
    if events != [] {
      NextKeeps(s, events[0]);
      BatchStep(s, events[0], account);
      BatchIsAlone(Next(s, events[0]), events[1..], account);
    }
  }

  /** At every call that operates a desktop, each active `pc` or `login` run of its account has been cancelled. */
  lemma OperationIsAlone(events: seq<Event>, account: int)
    requires Possible(INITIAL, events) && Enabled(After(INITIAL, events), Operate(account))
    ensures
      var s := After(INITIAL, events);
      && account in s.powerAccounts && !s.maintenance
      && forall r | r in s.active && s.active[r].key.account == account
          && (s.active[r].key.kind == Pc || s.active[r].key.kind == Login) :: s.active[r].cancelled
  {
    RunKeeps(INITIAL, events);
  }

  lemma BatchStep(s: State, e: Event, account: int)
    requires PowerInv(s) && s.powerActive != 0 && account in s.swept && Enabled(s, e) && e != EndPower
    ensures
      var t := Next(s, e);
      && t.powerActive == s.powerActive && account in t.swept && t.powerAccounts == s.powerAccounts && !t.maintenance
      && forall r | r in t.active && PowerBlocks(s, t.active[r].key) ::
        r in s.active && s.active[r].key == t.active[r].key
  {
  }

  /** No key is held twice: not by two runs, not by a run and a start under way. */
  lemma OneRunPerKey(events: seq<Event>, p: nat, q: nat)
    requires Possible(INITIAL, events)
    ensures
      var s := After(INITIAL, events);
      p in s.active ==>
        s.active[p].key !in s.starting && (q in s.active && s.active[q].key == s.active[p].key ==> p == q)
  {
    RunKeeps(INITIAL, events);
  }

  // ---- The manager's tables ----

  class Manager {
    var starting: set<Key>
    var active: map<nat, Run>
    var maintenance: bool
    var powerActive: nat
    var powerAccounts: set<int>
    var pendingRedeem: bool
    var calls: map<nat, Key>
    var swept: set<int>
    var target: Option<int>
    var stage: Stage

    function View(): State
      reads this
    {
      State(starting, active, maintenance, powerActive, powerAccounts, calls, swept, target, stage, pendingRedeem)
    }

    constructor ()
      ensures View() == INITIAL
    {
      starting, active, maintenance, powerActive, powerAccounts, pendingRedeem := {}, map[], false, 0, {}, false;
      calls, swept, target, stage := map[], {}, None, Idle;
    }

    method StartTaskEnter(call: nat, key: Key) returns (ok: bool)
      requires Enabled(View(), Enter(call, key))
      modifies this
      ensures View() == Next(old(View()), Enter(call, key))
      ensures ok <==>
        && !old(maintenance) && key !in old(starting) && (forall r | r in old(active) :: old(active)[r].key != key)
        && (key.account !in old(powerAccounts) || key.kind == Chat || key.kind == Redeem)
      ensures View() ==
        if ok then old(View()).(starting := old(starting) + {key}, calls := old(calls)[call := key]) else old(View())
    {
      if (key.account in powerAccounts && key.UsesDesktop()) || maintenance || key in starting {
        return false;
      }
      var rest := active.Keys;
      while rest != {}
        invariant rest <= active.Keys && forall r | r in active && r !in rest :: active[r].key != key
        decreases rest
      {
        var r :| r in rest;
        if active[r].key == key {
          return false;
        }
        rest := rest - {r};
      }
      starting := starting + {key};
      calls := calls[call := key];
      ok := true;
    }

    method StartTaskAbort(call: nat, key: Key)
      requires Enabled(View(), Abort(call)) && calls[call] == key
      modifies this
      ensures View() == Next(old(View()), Abort(call))
      ensures View() == old(View()).(starting := old(starting) - {key}, calls := old(calls) - {call})
    {
      starting := starting - {key};
      calls := calls - {call};
    }

    method StartTaskCommit(call: nat, key: Key, run: nat) returns (ok: bool)
      requires Enabled(View(), Commit(call, run)) && calls[call] == key
      modifies this
      ensures View() == Next(old(View()), Commit(call, run))
      ensures ok <==>
        !old(maintenance) && (key.account !in old(powerAccounts) || key.kind == Chat || key.kind == Redeem)
      ensures active == if ok then old(active)[run := Run(key, false)] else old(active)
      ensures View() ==
        old(View()).(starting := old(starting) - {key}, calls := old(calls) - {call}, active := active)
    {
      starting := starting - {key};
      calls := calls - {call};
      if maintenance || (key.account in powerAccounts && key.UsesDesktop()) {
        return false;
      }
      active := active[run := Run(key, false)];
      ok := true;
    }

    method FinishRun(run: nat)
      requires Enabled(View(), Finish(run))
      modifies this
      ensures View() == Next(old(View()), Finish(run)) == old(View()).(active := old(active) - {run})
    {
      active := active - {run};
    }

    /** PrepareForUpdate up to its loop. */
    method BeginMaintenance() returns (ok: bool)
      requires Enabled(View(), BeginPrepare)
      modifies this
      ensures View() == Next(old(View()), BeginPrepare)
      ensures ok == (old(powerActive) == 0 && !old(maintenance)) && maintenance == (ok || old(maintenance))
    {
      stage := Idle;
      if powerActive != 0 || maintenance {
        return false;
      }
      maintenance := true;
      stage := Waiting;
      ok := true;
    }

    /** One read of the task tables by PrepareForUpdate. */
    method PollTasks() returns (blocking: bool, short: bool)
      requires Enabled(View(), Poll)
      modifies this`stage
      ensures View() == Next(old(View()), Poll)
      ensures blocking <==> exists r | r in active :: active[r].key.kind == Pc || active[r].key.kind == Redeem
      ensures short <==>
        starting != {} || exists r | r in active :: active[r].key.kind == Login || active[r].key.kind == Chat
      ensures stage == if blocking then Failing else Polled(short)
    {
      blocking, short := false, starting != {};
      var rest := active.Keys;
      while rest != {}
        invariant rest <= active.Keys && View() == old(View())
        invariant blocking <==>
          exists r | r in active && r !in rest :: active[r].key.kind == Pc || active[r].key.kind == Redeem
        invariant short <==>
          starting != {} || exists r | r in active && r !in rest ::
            active[r].key.kind == Login || active[r].key.kind == Chat
        decreases rest
      {
        var r :| r in rest;
        match active[r].key.kind {
          case Pc | Redeem => blocking := true;
          case Login | Chat => short := true;
        }
        rest := rest - {r};
      }
      stage := if blocking then Failing else Polled(short);
    }

    /** What PrepareForUpdate does after a poll that found nothing blocking. */
    method CheckPendingRedeem(short: bool) returns (failed: bool, done: bool)
      requires stage == Polled(short)
      modifies this`stage
      ensures View() == Next(old(View()), CheckRedeem)
      ensures failed == pendingRedeem && done == (!pendingRedeem && !short)
    {
      failed, done := pendingRedeem, !pendingRedeem && !short;
      stage := if failed then Failing else if short then Waiting else Clearing;
    }

    method CancelUpdateMaintenance()
      modifies this
      ensures View() == Next(old(View()), CancelMaintenance) == old(View()).(maintenance := false, stage := stage)
    {
      maintenance := false;
      stage := if stage == Failing || stage == Ready then Idle else stage;
    }

    /** The guarded part of StartPowerBatch: the batch owns the accounts of its targets from here on. */
    method StartPowerBatch(job: nat, targets: seq<int>) returns (ok: bool)
      requires job != 0
      modifies this
      ensures View() == Next(old(View()), StartPower(job, set a | a in targets))
      ensures ok == (!old(maintenance) && old(powerActive) == 0)
      ensures ok ==> powerActive == job && forall a :: a in powerAccounts <==> a in targets
    {
      if maintenance || powerActive != 0 {
        return false;
      }
      powerActive, powerAccounts, swept, target := job, {}, {}, None;
      for i := 0 to |targets|
        invariant powerAccounts == set a | a in targets[..i]
        invariant View() ==
          old(View()).(powerActive := job, swept := {}, target := None, powerAccounts := powerAccounts)
      {
        powerAccounts := powerAccounts + {targets[i]};
        assert targets[..i + 1] == targets[..i] + [targets[i]];
      }
      assert targets[..|targets|] == targets;
      ok := true;
    }

    /** Before each submission: cancel the desktop runs of the account. */
    method CancelDesktopRuns(account: int)
      requires Enabled(View(), Sweep(account))
      modifies this
      ensures View() == Next(old(View()), Sweep(account))
      ensures active.Keys == old(active).Keys && forall r | r in active ::
        && active[r].key == old(active)[r].key
        && (active[r].cancelled <==>
          || old(active)[r].cancelled
          || (active[r].key.account == account && (active[r].key.kind == Pc || active[r].key.kind == Login)))
      ensures View() == old(View()).(active := active, swept := old(swept) + {account}, target := Some(account))
    {
      var rest := active.Keys;
      while rest != {}
        invariant rest <= active.Keys == old(active).Keys
        invariant forall r | r in active ::
          active[r] == if r in rest then old(active)[r] else SweptRun(old(active)[r], account)
        modifies this`active
        decreases rest
      {
        var r :| r in rest;
        if active[r].key.account == account && active[r].key.UsesDesktop() {
          active := active[r := active[r].(cancelled := true)];
        }
        rest := rest - {r};
      }
      assert active == Swept(old(active), account);
      swept, target := swept + {account}, Some(account);
    }

    method FinishPowerBatch()
      requires Enabled(View(), EndPower)
      modifies this
      ensures View() == Next(old(View()), EndPower) && powerActive == 0 && powerAccounts == {} && active == old(active)
    {
      powerActive, powerAccounts, swept, target := 0, {}, {}, None;
    }

    /** The platform is called: every desktop run of the account has been told to stop. */
    method OperateDesktop(account: int)
      requires Inv(View()) && powerActive != 0 && target == Some(account) && !maintenance
      requires forall r | r in active && active[r].key.account == account
        && (active[r].key.kind == Pc || active[r].key.kind == Login) :: active[r].cancelled
      modifies this`target
      ensures Inv(View()) && View() == Next(old(View()), Operate(account))
      ensures powerActive == old(powerActive) && powerAccounts == old(powerAccounts)
      ensures target.None? && swept == old(swept)
    {
      NextKeeps(View(), Operate(account));
      target := None;
    }

    // ---- Whole operations, with everybody else's sections in between ----

    method Become(next: State)
      modifies this
      ensures View() == next
    {
      starting, active, maintenance, powerActive, powerAccounts :=
        next.starting, next.active, next.maintenance, next.powerActive, next.powerAccounts;
      calls, swept, target, stage, pendingRedeem := next.calls, next.swept, next.target, next.stage, next.pendingRedeem;
    }

    /** Anything that others do: calls and runs but `mine`, a cancellation of maintenance, and, if `free`, batches. */
    method Others(mine: Option<nat>, free: bool)
      requires Inv(View()) && (mine.Some? ==> mine.value in calls)
      modifies this
      ensures Inv(View()) && Undisturbed(old(View()), View(), mine, free)
    {
      hide Inv, Next, Enabled, OfOthers;
      var rounds: nat :| true;
      for i := 0 to rounds
        invariant Inv(View()) && Undisturbed(old(View()), View(), mine, free)
      {
        var now := View();
        var e := CancelMaintenance;
        CancelIsAnothers(now, mine, free);
        if * {
          e :| Enabled(now, e) && OfOthers(e, mine, free);
        }
        NextKeeps(now, e);
        OthersKeep(now, e, mine, free);
        Become(Next(now, e));
      }
    }

    /** StartTask with its three sections. `valid` tells whether the account and the task are enabled and the run can be
        recorded. */
    method StartTask(call: nat, key: Key, valid: bool) returns (ok: bool, run: nat)
      requires Inv(View()) && call !in calls
      modifies this
      ensures Inv(View()) && call !in calls
      ensures ok ==>
        && valid && run in active && active[run] == Run(key, false) && !maintenance
        && (key.account !in powerAccounts || key.kind == Chat || key.kind == Redeem)
    {
      run := 0;
      NextKeeps(View(), Enter(call, key));
      ok := StartTaskEnter(call, key);
      if !ok {
        return;
      }
      Others(Some(call), true);
      if !valid {
        NextKeeps(View(), Abort(call));
        StartTaskAbort(call, key);
        return false, run;
      }
      Others(Some(call), true);
      run := FreshRun();
      NextKeeps(View(), Commit(call, run));
      ok := StartTaskCommit(call, key, run);
    }

    method FreshRun() returns (run: nat)
      ensures run !in active
    {
      ghost var numbers := set r | r in active :: r as int;
      ghost var b := Bound(numbers);
      assert forall r | r in active :: r as int in numbers;
      assert b !in active;
      run :| run !in active;
    }

    /** PrepareForUpdate: closes the gate, waits for short tasks at most `patience` times, and gives up on anything that
        blocks. If it succeeds and nobody has cancelled maintenance, nothing is left that could disturb an update. */
    method PrepareForUpdate(patience: nat) returns (ok: bool)
      requires Inv(View()) && Enabled(View(), BeginPrepare)
      modifies this
      ensures Inv(View()) && stage == if ok then Ready else Idle
      ensures ok && maintenance ==> starting == {} && active == map[] && !pendingRedeem && powerActive == 0
      ensures old(powerActive) != 0 || old(maintenance) ==> !ok && maintenance == old(maintenance)
    {
      hide Inv, Next;
      Stages(View(), BeginPrepare);
      ok := BeginMaintenance();
      if !ok {
        return;
      }
      var left: nat, going := patience, true;
      while going
        invariant Inv(View()) && old(powerActive) == 0 && !old(maintenance)
        invariant stage == if going then Waiting else Failing
        decreases left, going
      {
        Others(None, true);
        going := PollAndCheck();
        if going && stage == Clearing {
          Others(None, true);
          Stages(View(), Return);
          QuietWhenReady(Next(View(), Return));
          Become(Next(View(), Return));
          return true;
        }
        if going && left == 0 {
          Stages(View(), Expire);
          Become(Next(View(), Expire));
          going := false;
        }
        left := if left > 0 then left - 1 else 0;
      }
      Stages(View(), CancelMaintenance);
      CancelUpdateMaintenance();
      ok := false;
    }

    /** The two reads of one round: the round ends waiting, with nothing found, or failing. */
    method PollAndCheck() returns (going: bool)
      requires Inv(View()) && stage == Waiting
      modifies this
      ensures Inv(View()) && (if going then stage == Waiting || stage == Clearing else stage == Failing)
    {
      hide Inv, Next;
      Stages(View(), Poll);
      var blocking, short := PollTasks();
      if blocking {
        return false;
      }
      Others(None, true);
      Stages(View(), CheckRedeem);
      var failed, _ := CheckPendingRedeem(short);
      going := !failed;
    }

    /** One target: its account is swept and, if that can be recorded, its desktop operated. */
    method SweepAndOperate(account: int, submits: bool)
      requires Inv(View()) && powerActive != 0 && account in powerAccounts
      modifies this
      ensures Inv(View()) && powerActive == old(powerActive) && powerAccounts == old(powerAccounts)
      ensures account in swept && target == if submits then None else Some(account)
    {
      hide Inv, Next;
      Others(None, false);
      Sweeps(View(), account);
      CancelDesktopRuns(account);
      Others(None, false);
      if submits {
        TargetIsQuiet(View(), account);
        OperateDesktop(account);
      }
    }

    /** A power batch over the accounts of its targets: it sweeps the account of each target before it operates it.
        `fate` tells what becomes of each target; `operated` are the positions that are operated: those fated to be
        whose predecessors do not end the batch. */
    method RunPowerBatch(job: nat, targets: seq<int>, fate: nat -> Fate) returns (ok: bool, operated: set<nat>)
      requires Inv(View()) && job != 0
      modifies this
      ensures Inv(View()) && ok == (!old(maintenance) && old(powerActive) == 0)
        && (if ok then powerActive == 0 else View() == old(View()))
      ensures ok ==> forall i: nat :: i in operated <==> i < |targets| && Operates(fate, i)
      ensures !ok ==> operated == {}
    {
      hide Inv, Next;
      operated := {};
      var accounts := set a | a in targets;
      PowerStarts(View(), job, accounts);
      ok := StartPowerBatch(job, targets);
      if !ok {
        return;
      }
      var i := 0;
      while i < |targets| && fate(i) != Stopped
        invariant i <= |targets| && Inv(View()) && powerActive == job && powerAccounts == accounts && Reached(fate, i)
        invariant forall k: nat :: k in operated <==> k < i && Operates(fate, k)
      {
        if fate(i) == Invalid {
          i := i + 1;
          continue;
        }
        SweepAndOperate(targets[i], fate(i) == Submitted);
        if fate(i) == Unsubmitted {
          break;
        }
        operated := operated + {i};
        i := i + 1;
      }
      PowerEnds(View());
      FinishPowerBatch();
    }
  }

  /** What becomes of a target: it fails its validation and is passed over, the batch stops before it, the batch ends
      because its submission cannot be recorded, or it is submitted. */
  datatype Fate = Invalid | Stopped | Unsubmitted | Submitted

  ghost predicate Operates(fate: nat -> Fate, i: nat) {
    fate(i) == Submitted && Reached(fate, i)
  }

  /** Nothing before the position ends the batch. */
  ghost predicate Reached(fate: nat -> Fate, i: nat) {
    forall k: nat | k < i :: fate(k) == Invalid || fate(k) == Submitted
  }

  lemma PowerStarts(s: State, job: nat, accounts: set<int>)
    requires Inv(s) && job != 0
    ensures Inv(Next(s, StartPower(job, accounts)))
    ensures Next(s, StartPower(job, accounts)) ==
      if MayStartPower(s) then s.(powerActive := job, powerAccounts := accounts, swept := {}, target := None) else s
  {
    NextKeeps(s, StartPower(job, accounts));
  }

  lemma Sweeps(s: State, account: int)
    requires Inv(s) && Enabled(s, Sweep(account))
    ensures Inv(Next(s, Sweep(account))) && Next(s, Sweep(account)).target == Some(account)
    ensures account in Next(s, Sweep(account)).swept
    ensures Next(s, Sweep(account)).powerActive == s.powerActive
      && Next(s, Sweep(account)).powerAccounts == s.powerAccounts
  {
    NextKeeps(s, Sweep(account));
  }

  lemma TargetIsQuiet(s: State, account: int)
    requires Inv(s) && s.powerActive != 0 && s.target == Some(account)
    ensures !s.maintenance
    ensures forall r | r in s.active && s.active[r].key.account == account
      && (s.active[r].key.kind == Pc || s.active[r].key.kind == Login) :: s.active[r].cancelled
  {
  }

  lemma PowerEnds(s: State)
    requires Inv(s) && s.powerActive != 0
    ensures Inv(Next(s, EndPower)) && Next(s, EndPower).powerActive == 0
  {
    NextKeeps(s, EndPower);
  }

  /** Nobody else touches the call `mine`, a preparation under way, or, unless `free`, the batch. */
  predicate Undisturbed(s: State, t: State, mine: Option<nat>, free: bool) {
    && (mine.Some? && mine.value in s.calls ==> mine.value in t.calls && t.calls[mine.value] == s.calls[mine.value])
    && (s.stage != Failing && s.stage != Ready ==> t.stage == s.stage)
    && (!free ==>
      t.powerActive == s.powerActive && t.powerAccounts == s.powerAccounts && t.swept == s.swept
        && t.target == s.target)
  }

  lemma OthersKeep(s: State, e: Event, mine: Option<nat>, free: bool)
    requires Enabled(s, e) && OfOthers(e, mine, free)
    ensures Undisturbed(s, Next(s, e), mine, free)
  {
  }

  lemma CancelIsAnothers(s: State, mine: Option<nat>, free: bool)
    ensures Enabled(s, CancelMaintenance) && OfOthers(CancelMaintenance, mine, free)
  {
  }

  /** Where a step of the preparation leaves it. */
  lemma Stages(s: State, e: Event)
    requires Inv(s) && Enabled(s, e)
    ensures Inv(Next(s, e))
    ensures match e
            case BeginPrepare => Next(s, e).stage == if s.powerActive != 0 || s.maintenance then Idle else Waiting
            case Poll => Next(s, e).stage == if Blocking(s) then Failing else Polled(Short(s))
            case CheckRedeem => Next(s, e).stage == if s.pendingRedeem then Failing else if s.stage.short then Waiting
              else Clearing
            case Return => Next(s, e).stage == Ready
            case Expire => Next(s, e).stage == Failing
            case CancelMaintenance => s.stage == Failing ==> Next(s, e).stage == Idle
            case _ => true
    ensures e == BeginPrepare && (s.powerActive != 0 || s.maintenance) ==> Next(s, e) == s.(stage := Idle)
  {
    NextKeeps(s, e);
  }

  lemma QuietWhenReady(s: State)
    requires Inv(s) && s.stage == Ready
    ensures s.maintenance ==> Quiet(s) && !s.pendingRedeem && s.powerActive == 0
  {
  }

  /** Whether an event is another's: not a step of the preparation, nothing of the call `mine`, and unless `free`
      nothing of a power batch. */
  predicate OfOthers(e: Event, mine: Option<nat>, free: bool) {
    match e
    case BeginPrepare => false
    case Poll => false
    case CheckRedeem => false
    case Expire => false
    case Return => false
    case Abort(call) => mine != Some(call)
    case Commit(call, _) => mine != Some(call)
    case StartPower(_, _) => free
    case Sweep(_) => free
    case Operate(_) => free
    case EndPower => free
    case _ => true
  }
}
