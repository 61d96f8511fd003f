/** A batch of power operations: the status of every item is written before and after its submission, and the hold on
    each desktop follows the outcome. Database writes may fail and power may be lost between any two of them. */
module PowerBatch {
  import opened Options

  datatype Target = Target(account: int, desktop: string)
  datatype Action = PowerOn | Shutdown | Reboot
  datatype ItemStatus = Queued | Validating | Submitting | Accepted | Failed | Unknown | Cancelled
  datatype JobStatus = Running | Finished | Interrupted

  /** `until == 0` holds a desktop indefinitely. */
  datatype Hold = Hold(until: int, reason: string)

  /** How the batch ended for one target that it finished: refused before anything was submitted, refused by the
      platform, accepted by it, or submitted with an unknown effect. */
  datatype Outcome = Invalid | Refused | Done | Uncertain

  const SHUTDOWN_REASON := "手动关机，自动连接已暂停"
  const REBOOT_REASON := "重启中，自动连接暂停 5 分钟"
  const UNCERTAIN_REASON := "电源指令结果待核对，自动连接暂停 5 分钟"

  /** The tables of one job; `submitted` lists the positions in the order in which the platform was called. */
  datatype State = State(items: seq<ItemStatus>, job: JobStatus, holds: map<Target, Hold>, submitted: seq<nat>)

  predicate Ended(status: ItemStatus) {
    status == Accepted || status == Failed || status == Unknown || status == Cancelled
  }

  predicate NeverSubmitted(status: ItemStatus) {
    status == Queued || status == Validating || status == Cancelled
  }

  /** Holds of every durable state: nothing is submitted twice, and what reads as not submitted was not. */
  ghost predicate Inv(s: State) {
    && (forall i | 0 <= i < |s.submitted| :: s.submitted[i] < |s.items| && !NeverSubmitted(s.items[s.submitted[i]]))
    && (forall i, j | 0 <= i < j < |s.submitted| :: s.submitted[i] != s.submitted[j])
  }

  /** An ended job has no item that has not ended. */
  ghost predicate Closed(s: State) {
    s.job != Running ==> AllEnded(s.items)
  }

  ghost predicate AllEnded(items: seq<ItemStatus>) {
    forall q | 0 <= q < |items| :: Ended(items[q])
  }

  function HoldOf(holds: map<Target, Hold>, t: Target): Option<Hold> {
    if t in holds then Some(holds[t]) else None
  }

  lemma Elsewhere(holds: map<Target, Hold>, t: Target)
    ensures SameElsewhere(holds, holds, t)
  {
  }

  ghost predicate SameElsewhere(a: map<Target, Hold>, b: map<Target, Hold>, t: Target) {
    forall u | u != t :: HoldOf(a, u) == HoldOf(b, u)
  }

  /** How a hold is read before an operation: no hold reads as one without a reason. */
  function Snapshot(hold: Option<Hold>): Hold {
    if hold.Some? then hold.value else Hold(0, "")
  }

  /** What a platform refusal puts back: a hold without a reason counts as none. */
  function PutBack(hold: Option<Hold>): Option<Hold> {
    if hold.Some? && hold.value.reason == "" then None else hold
  }

  predicate Timed(hold: Option<Hold>, reason: string) {
    hold.Some? && hold.value.until > 0 && hold.value.reason == reason
  }

  function StatusOf(outcome: Outcome): ItemStatus {
    match outcome
    case Done => Accepted
    case Uncertain => Unknown
    case _ => Failed
  }

  /** What an item that has ended tells about its target. */
  ghost predicate Tells(status: ItemStatus, outcome: Outcome) {
    && (status == Accepted <==> outcome == Done)
    && (status == Unknown <==> outcome == Uncertain)
    && (status == Failed <==> outcome == Invalid || outcome == Refused)
    && Ended(status)
  }

  /** The hold that an operation sets before it is submitted. */
  predicate Announced(action: Action, after: Option<Hold>) {
    match action
    case Shutdown => after == Some(Hold(0, SHUTDOWN_REASON))
    case Reboot => Timed(after, REBOOT_REASON)
    case PowerOn => after.None?
  }

  /** The hold that an outcome leaves. */
  predicate HoldFollows(action: Action, outcome: Outcome, before: Option<Hold>, after: Option<Hold>) {
    match outcome
    case Invalid => after == before
    case Refused => after == PutBack(before)
    case Done => Announced(action, after)
    case Uncertain => if action == PowerOn then Timed(after, UNCERTAIN_REASON) else Announced(action, after)
  }

  /** Every hold says why it is there, as all that the program writes do. */
  ghost predicate Reasoned(holds: map<Target, Hold>) {
    forall t | t in holds :: holds[t].reason != ""
  }

  lemma RefusalKeepsHold(action: Action, holds: map<Target, Hold>, t: Target, after: Option<Hold>)
    requires Reasoned(holds) && HoldFollows(action, Refused, HoldOf(holds, t), after)
    ensures after == HoldOf(holds, t)
  {
  }

  function WithItem(s: State, pos: nat, status: ItemStatus): State
    requires pos < |s.items|
  {
    s.(items := s.items[pos := status])
  }

  /** One write of an item's status, done or failed. */
  predicate ItemWritten(s: State, t: State, pos: nat, status: ItemStatus, ok: bool) {
    pos < |s.items| && t == if ok then WithItem(s, pos, status) else s
  }

  /** One write of the job's status, done or failed. */
  predicate JobWritten(s: State, t: State, status: JobStatus, ok: bool) {
    t == if ok then s.(job := status) else s
  }

  /** One statement of the database: every item with a status of `from` becomes `to`. */
  function Moved(items: seq<ItemStatus>, from: set<ItemStatus>, to: ItemStatus): (r: seq<ItemStatus>)
    ensures |r| == |items|
    ensures forall i | 0 <= i < |items| :: r[i] == if items[i] in from then to else items[i]
  {
    seq(|items|, i requires 0 <= i < |items| => if items[i] in from then to else items[i])
  }

  lemma MovedKeeps(s: State)
    requires Inv(s)
    ensures Inv(s.(items := Moved(s.items, {Submitting}, Unknown)))
    ensures Inv(s.(items := Moved(s.items, {Queued, Validating}, Cancelled)))
  {
  }

  lemma AllMoved(items: seq<ItemStatus>)
    ensures AllEnded(Moved(Moved(items, {Queued, Validating}, Cancelled), {Submitting}, Unknown))
    ensures AllEnded(Moved(Moved(items, {Submitting}, Unknown), {Queued, Validating}, Cancelled))
  {
  }

  lemma UnsubmittedKeeps(s: State, pos: nat, status: ItemStatus)
    requires Inv(s) && pos < |s.items| && pos !in s.submitted
    ensures Inv(WithItem(s, pos, status))
  {
  }

  /** Whether the platform lists the desktop and lets it be operated. */
  predicate Found(desktops: map<int, map<string, bool>>, t: Target) {
    t.account in desktops && t.desktop in desktops[t.account] && !desktops[t.account][t.desktop]
  }

  class Tables {
    var s: State
    var trace: seq<State>
    var faults: nat // how many operations on the tables have failed
    var discarded: bool // whether one of them was a status write whose failure is not acted upon

    ghost predicate Valid()
      reads this
    {
      && |trace| > 0 && trace[|trace| - 1] == s
      && (forall i | 0 <= i < |trace| :: Inv(trace[i]) && |trace[i].items| == |trace[0].items|)
      && (!discarded ==> forall i | 0 <= i < |trace| :: Closed(trace[i]))
      && (discarded ==> faults > 0)
    }

    /** A new job: its items are inserted in one transaction. */
    constructor (count: nat, holds: map<Target, Hold>)
      ensures Valid() && |trace| == 1 && faults == 0
      ensures s == State(seq(count, _ => Queued), Running, holds, [])
    {
      s := State(seq(count, _ => Queued), Running, holds, []);
      trace := [s];
      faults, discarded := 0, false;
    }

    method Commit(next: State)
      requires Valid() && Inv(next) && |next.items| == |s.items| && (!discarded ==> Closed(next))
      modifies this`s, this`trace
      ensures Valid() && s == next && trace == old(trace) + [next]
    {
      s := next;
      trace := trace + [next];
    }

    method PowerLoss(mark: nat)
      requires Valid() && 0 < mark <= |trace|
      modifies this`s, this`trace
      ensures Valid() && mark <= |trace| && trace <= old(trace)
    {
      var i: nat :| mark - 1 <= i < |trace|;
      trace := trace[..i + 1];
      s := trace[i];
    }

    method SetPowerItem(pos: nat, status: ItemStatus) returns (ok: bool)
      requires Valid() && pos < |s.items| && Inv(WithItem(s, pos, status)) && s.job == Running
      modifies this`s, this`trace, this`faults
      ensures Valid() && old(trace) <= trace && ItemWritten(old(s), s, pos, status, ok)
      ensures faults == old(faults) + if ok then 0 else 1
    {
      ok := *;
      if ok {
        Commit(WithItem(s, pos, status));
      } else {
        faults := faults + 1;
      }
    }

    method SetDesktopHold(t: Target, hold: Hold) returns (ok: bool)
      requires Valid()
      modifies this`s, this`trace, this`faults
      ensures Valid() && old(trace) <= trace
      ensures s == if ok then old(s).(holds := old(s).holds[t := hold]) else old(s)
      ensures faults == old(faults) + if ok then 0 else 1
    {
      ok := *;
      if ok {
        Commit(s.(holds := s.holds[t := hold]));
      } else {
        faults := faults + 1;
      }
    }

    method ClearDesktopHold(t: Target) returns (ok: bool)
      requires Valid()
      modifies this`s, this`trace, this`faults
      ensures Valid() && old(trace) <= trace
      ensures s == if ok then old(s).(holds := old(s).holds - {t}) else old(s)
      ensures faults == old(faults) + if ok then 0 else 1
    {
      ok := *;
      if ok {
        Commit(s.(holds := s.holds - {t}));
      } else {
        faults := faults + 1;
      }
    }

    method DesktopHoldSnapshot(t: Target) returns (ok: bool, hold: Hold)
      modifies this`faults
      ensures ok ==> hold == Snapshot(HoldOf(s.holds, t))
      ensures faults == old(faults) + if ok then 0 else 1
    {
      hold := Snapshot(HoldOf(s.holds, t));
      ok := *;
      if !ok {
        faults := faults + 1;
      }
    }

    method MoveItems(from: set<ItemStatus>, to: ItemStatus) returns (ok: bool)
      requires Valid() && Inv(s.(items := Moved(s.items, from, to))) && Ended(to)
      modifies this`s, this`trace, this`faults
      ensures Valid() && old(trace) <= trace
      ensures s == if ok then old(s).(items := Moved(old(s).items, from, to)) else old(s)
      ensures faults == old(faults) + if ok then 0 else 1
    {
      ok := *;
      if ok {
        Commit(s.(items := Moved(s.items, from, to)));
      } else {
        faults := faults + 1;
      }
    }

    method FinishPowerJob(status: JobStatus) returns (ok: bool)
      requires Valid() && (discarded || status == Running || AllEnded(s.items))
      modifies this`s, this`trace, this`faults
      ensures Valid() && old(trace) <= trace && JobWritten(old(s), s, status, ok)
      ensures faults == old(faults) + if ok then 0 else 1
    {
      ok := *;
      if ok {
        Commit(s.(job := status));
      } else {
        faults := faults + 1;
      }
    }

    /** The call to the platform. */
    method OperateDesktop(pos: nat) returns (outcome: Outcome)
      requires Valid() && pos < |s.items| && s.items[pos] == Submitting && pos !in s.submitted
      modifies this`s, this`trace, this`faults
      ensures Valid() && old(trace) <= trace && s == old(s).(submitted := old(s).submitted + [pos])
      ensures outcome != Invalid
      ensures faults == old(faults)
    {
      Commit(s.(submitted := s.submitted + [pos]));
      outcome :| outcome != Invalid;
    }

    /** Sets the hold that announces the operation. */
    method Announce(action: Action, t: Target) returns (ok: bool)
      requires Valid()
      modifies this`s, this`trace, this`faults
      ensures Valid() && old(trace) <= trace
      ensures s == old(s).(holds := s.holds) && (!ok ==> s == old(s))
      ensures ok ==> Announced(action, HoldOf(s.holds, t))
      ensures ok && action == Shutdown ==> HoldOf(s.holds, t) == Some(Hold(0, SHUTDOWN_REASON))
      ensures ok && action == Reboot ==> t in s.holds && s.holds[t].until > 0 && s.holds[t].reason == REBOOT_REASON
      ensures ok && action == PowerOn ==> t !in s.holds
      ensures SameElsewhere(old(s).holds, s.holds, t)
      ensures Reasoned(old(s).holds) ==> Reasoned(s.holds)
      ensures old(faults) <= faults && (!ok ==> old(faults) < faults)
    {
      var deadline: int :| deadline > 0;
      match action
      case Shutdown => ok := SetDesktopHold(t, Hold(0, SHUTDOWN_REASON));
      case Reboot => ok := SetDesktopHold(t, Hold(deadline, REBOOT_REASON));
      case PowerOn => ok := ClearDesktopHold(t);
    }

    /** Submits an item whose hold is announced and settles its hold by the outcome. `kept` is false when a write of
        the hold whose failure is not acted upon has failed. */
    method SubmitAndSettle(action: Action, t: Target, pos: nat, previous: Hold, ghost before: Option<Hold>)
      returns (outcome: Outcome, kept: bool)
      requires Valid() && pos < |s.items| && s.items[pos] == Submitting && pos !in s.submitted
      requires Announced(action, HoldOf(s.holds, t)) && previous == Snapshot(before)
      modifies this`s, this`trace, this`faults
      ensures Valid() && old(trace) <= trace
      ensures s.items == old(s).items && s.job == old(s).job && s.submitted == old(s).submitted + [pos]
      ensures outcome != Invalid
      ensures kept ==> HoldFollows(action, outcome, before, HoldOf(s.holds, t))
      ensures SameElsewhere(old(s).holds, s.holds, t)
      ensures Reasoned(old(s).holds) ==> Reasoned(s.holds)
      ensures old(faults) <= faults && (!kept ==> old(faults) < faults)
    {
      outcome := OperateDesktop(pos);
      kept := true;
      if outcome == Refused {
        if previous.reason == "" {
          kept := ClearDesktopHold(t);
        } else {
          kept := SetDesktopHold(t, previous);
        }
      } else if outcome == Uncertain && action == PowerOn {
        var deadline: int :| deadline > 0;
        kept := SetDesktopHold(t, Hold(deadline, UNCERTAIN_REASON));
      }
    }

    method SnapshotAndAnnounce(action: Action, t: Target, found: bool) returns (ok: bool, previous: Hold)
      requires Valid()
      modifies this`s, this`trace, this`faults
      ensures Valid() && old(trace) <= trace
      ensures s == old(s).(holds := s.holds) && (!ok ==> s == old(s))
      ensures ok ==> found && previous == Snapshot(HoldOf(old(s).holds, t)) && Announced(action, HoldOf(s.holds, t))
      ensures SameElsewhere(old(s).holds, s.holds, t)
      ensures Reasoned(old(s).holds) ==> Reasoned(s.holds)
      ensures old(faults) <= faults && (!ok ==> old(faults) < faults || !found)
    {
      ok, previous := found, Hold(0, "");
      if ok {
        ok, previous := DesktopHoldSnapshot(t);
      }
      if ok {
        ok := Announce(action, t);
      }
    }

    /** Everything that precedes a submission: the hold is announced and the item is `Submitting`, or the item has
        failed (`Some(Invalid)`), or the batch must stop (`go` is false). `written` is false when a status write
        whose failure is not acted upon has failed. */
    method ValidateTarget(action: Action, t: Target, pos: nat, found: bool)
      returns (go: bool, outcome: Option<Outcome>, previous: Hold, written: bool)
      requires Valid() && pos < |s.items| && s.items[pos] == Queued && pos !in s.submitted && s.job == Running
      modifies this
      ensures Valid() && old(trace) <= trace && s.job == old(s).job && s.submitted == old(s).submitted
      ensures |s.items| == |old(s).items| && forall q | 0 <= q < |s.items| && q != pos :: s.items[q] == old(s).items[q]
      ensures SameElsewhere(old(s).holds, s.holds, t)
      ensures Reasoned(old(s).holds) ==> Reasoned(s.holds)
      ensures go && outcome.None? ==>
        s.items[pos] == Submitting && previous == Snapshot(HoldOf(old(s).holds, t))
          && Announced(action, HoldOf(s.holds, t))
      ensures outcome.Some? ==>
        go && outcome.value == Invalid && HoldOf(s.holds, t) == HoldOf(old(s).holds, t)
          && (written ==> s.items[pos] == Failed)
      ensures !go || outcome.Some? || s.items[pos] == Submitting
      ensures NeverSubmitted(s.items[pos]) || s.items[pos] == Failed || (go && outcome.None?)
      ensures old(faults) <= faults && (discarded <==> old(discarded) || !written)
      ensures old(faults) < faults || (go && written && (outcome.None? <==> found))
    {
      hide Inv, Closed, Reasoned, Announced, SameElsewhere;
      written, outcome, previous := true, None, Hold(0, "");
      UnsubmittedKeeps(s, pos, Validating);
      go := SetPowerItem(pos, Validating);
      if !go {
        Elsewhere(s.holds, t);
        return;
      }
      UnsubmittedKeeps(s, pos, Failed);
      UnsubmittedKeeps(s, pos, Submitting);
      var ok;
      ok, previous := SnapshotAndAnnounce(action, t, found);
      if !ok {
        written := SetPowerItem(pos, Failed);
        discarded := discarded || !written;
        outcome := Some(Invalid);
        return;
      }
      // The sessions and desktop tasks of the account are cancelled here.
      go := SetPowerItem(pos, Submitting);
    }

    /** One target of the batch. */
    method ProcessTarget(action: Action, t: Target, pos: nat, found: bool)
      returns (go: bool, outcome: Option<Outcome>, kept: bool, written: bool)
      requires Valid() && pos < |s.items| && s.items[pos] == Queued && pos !in s.submitted && s.job == Running
      modifies this
      ensures Valid() && old(trace) <= trace && s.job == old(s).job
      ensures s.submitted == old(s).submitted || s.submitted == old(s).submitted + [pos]
      ensures |s.items| == |old(s).items| && forall q | 0 <= q < |s.items| && q != pos :: s.items[q] == old(s).items[q]
      ensures SameElsewhere(old(s).holds, s.holds, t)
      ensures Reasoned(old(s).holds) ==> Reasoned(s.holds)
      ensures outcome.Some? ==> (outcome.value == Invalid <==> s.submitted == old(s).submitted)
      ensures go ==> outcome.Some?
      ensures go && written ==>
        && Tells(s.items[pos], outcome.value)
        && (s.items[pos] == Accepted <==> outcome.value == Done)
        && (s.items[pos] == Unknown <==> outcome.value == Uncertain)
        && (s.items[pos] == Failed <==> outcome.value == Invalid || outcome.value == Refused)
      ensures outcome.Some? && kept ==> HoldFollows(action, outcome.value, HoldOf(old(s).holds, t), HoldOf(s.holds, t))
      ensures old(faults) <= faults && (discarded <==> old(discarded) || !written)
      ensures old(faults) < faults || (go && kept && written && (outcome == Some(Invalid) <==> !found))
    {
      var previous;
      kept := true;
      go, outcome, previous, written := ValidateTarget(action, t, pos, found);
      if go && outcome.None? {
        var submitted;
        submitted, kept := SubmitAndSettle(action, t, pos, previous, HoldOf(old(s).holds, t));
        outcome := Some(submitted);
        go := SetPowerItem(pos, StatusOf(submitted));
      }
    }

    /** What happens on every early end of a batch: all failures are ignored, `written` is false when one occurred. */
    method CloseInterrupted() returns (written: bool)
      requires Valid()
      modifies this
      ensures Valid() && old(trace) <= trace && s.holds == old(s).holds && s.submitted == old(s).submitted
      ensures |s.items| == |old(s).items|
      ensures written ==> s.job == Interrupted && AllEnded(s.items)
      ensures forall q | 0 <= q < |s.items| ::
        s.items[q] == old(s).items[q] || s.items[q] == if old(s).items[q] == Submitting then Unknown else Cancelled
      ensures forall q | 0 <= q < |s.items| && old(s).items[q] in {Accepted, Failed, Unknown, Cancelled} ::
        s.items[q] == old(s).items[q]
      ensures old(faults) <= faults && (!written ==> old(faults) < faults)
    {
      hide Inv, Closed, AllEnded, Moved;
      AllMoved(s.items);
      MovedKeeps(s);
      var cancelled := MoveItems({Queued, Validating}, Cancelled);
      MovedKeeps(s);
      var unknown := MoveItems({Submitting}, Unknown);
      discarded := discarded || !cancelled || !unknown;
      var finished := FinishPowerJob(Interrupted);
      written := cancelled && unknown && finished;
    }

    /** The targets in their order, until one stops the batch (`go` is false then). */
    method ProcessTargets(action: Action, targets: seq<Target>, desktops: map<int, map<string, bool>>,
                          stopping: nat -> bool)
      returns (go: bool, outcomes: seq<Option<Outcome>>, kept: bool, written: bool)
      requires Valid() && |s.items| == |targets| && s.submitted == [] && s.job == Running
      requires forall q | 0 <= q < |s.items| :: s.items[q] == Queued
      requires forall i, j | 0 <= i < j < |targets| :: targets[i] != targets[j]
      modifies this
      ensures Valid() && old(trace) <= trace && |outcomes| == |targets| == |s.items| && s.job == old(s).job
      ensures forall q | 0 <= q < |targets| && outcomes[q].Some? :: q in s.submitted <==> outcomes[q].value != Invalid
      ensures go && written ==>
        forall q | 0 <= q < |targets| :: outcomes[q].Some? && Tells(s.items[q], outcomes[q].value)
      ensures kept ==> forall q | 0 <= q < |targets| && outcomes[q].Some? ::
        HoldFollows(action, outcomes[q].value, HoldOf(old(s).holds, targets[q]), HoldOf(s.holds, targets[q]))
      ensures forall u | u !in targets :: HoldOf(s.holds, u) == HoldOf(old(s).holds, u)
      ensures Reasoned(old(s).holds) ==> Reasoned(s.holds)
      ensures old(faults) <= faults && (!kept || !written ==> old(faults) < faults) && (!written ==> discarded)
      ensures (forall q | 0 <= q < |targets| :: !stopping(q)) ==>
        old(faults) < faults
          || (go && forall q | 0 <= q < |targets| :: outcomes[q] == Some(Invalid) <==> !Found(desktops, targets[q]))
    {
      hide Inv, Closed, HoldFollows, Found, Tells, StatusOf, Reasoned;
      go, outcomes, kept, written := true, seq(|targets|, _ => None), true, true;
      var pos := 0;
      while pos < |targets| && go
        invariant 0 <= pos <= |targets| && Valid() && old(trace) <= trace
        invariant |outcomes| == |targets| == |s.items| && s.job == old(s).job
        invariant forall q | pos <= q < |targets| :: s.items[q] == Queued && q !in s.submitted && outcomes[q].None?
        invariant forall q | 0 <= q < pos && outcomes[q].Some? :: q in s.submitted <==> outcomes[q].value != Invalid
        invariant go && written ==>
          forall q | 0 <= q < pos :: outcomes[q].Some? && Tells(s.items[q], outcomes[q].value)
        invariant kept ==> forall q | 0 <= q < pos && outcomes[q].Some? ::
          HoldFollows(action, outcomes[q].value, HoldOf(old(s).holds, targets[q]), HoldOf(s.holds, targets[q]))
        invariant forall u | u !in targets[..pos] :: HoldOf(s.holds, u) == HoldOf(old(s).holds, u)
        invariant Reasoned(old(s).holds) ==> Reasoned(s.holds)
        invariant old(faults) <= faults && (!kept || !written ==> old(faults) < faults) && (!written ==> discarded)
        invariant (forall q | 0 <= q < |targets| :: !stopping(q)) ==>
          old(faults) < faults
            || (go && forall q | 0 <= q < pos :: outcomes[q] == Some(Invalid) <==> !Found(desktops, targets[q]))
        decreases |targets| - pos, go
      {
        go := !stopping(pos);
        if go {
          var t := targets[pos];
          assert t !in targets[..pos];
          var outcome, holdKept, itemWritten;
          go, outcome, holdKept, itemWritten := ProcessTarget(action, t, pos, Found(desktops, t));
          outcomes := outcomes[pos := outcome];
          kept, written := kept && holdKept, written && itemWritten;
          pos := pos + 1;
          assert targets[..pos] == targets[..pos - 1] + [t];
        }
      }
    }

    /** The whole batch. `desktops` is what the platform answers per account: the desktops it lists with whether they
        are forbidden, or nothing when it cannot be read; `stopping` before which targets the service stops.
        `outcomes[pos]` is the outcome of the targets that got one; `kept` and `written` are false when a write of a
        hold or of a status whose failure is ignored has failed. */
    method RunPowerBatch(action: Action, targets: seq<Target>, desktops: map<int, map<string, bool>>,
                         stopping: nat -> bool)
      returns (outcomes: seq<Option<Outcome>>, kept: bool, written: bool)
      requires Valid() && |s.items| == |targets| && s.submitted == [] && s.job == Running
      requires forall q | 0 <= q < |s.items| :: s.items[q] == Queued
      requires forall i, j | 0 <= i < j < |targets| :: targets[i] != targets[j]
      modifies this
      ensures Valid() && old(trace) <= trace && |outcomes| == |targets| == |s.items|
      ensures written ==> s.job != Running && AllEnded(s.items)
      ensures forall q | 0 <= q < |targets| && outcomes[q].Some? :: q in s.submitted <==> outcomes[q].value != Invalid
      ensures written && s.job == Finished ==> forall q | 0 <= q < |targets| ::
        && outcomes[q].Some?
        && (s.items[q] == Accepted <==> outcomes[q].value == Done)
        && (s.items[q] == Unknown <==> outcomes[q].value == Uncertain)
        && (s.items[q] == Failed <==> outcomes[q].value == Invalid || outcomes[q].value == Refused)
        && (s.items[q] == Accepted || s.items[q] == Unknown ==> q in s.submitted)
      ensures kept ==> forall q | 0 <= q < |targets| && outcomes[q].Some? ::
        var (outcome, before, after) :=
          (outcomes[q].value, HoldOf(old(s).holds, targets[q]), HoldOf(s.holds, targets[q]));
        && (outcome == Invalid ==> after == before)
        && (outcome == Refused ==> after == if before.Some? && before.value.reason == "" then None else before)
        && (outcome == Done || outcome == Uncertain ==>
          && (action == Shutdown ==> after == Some(Hold(0, SHUTDOWN_REASON)))
          && (action == Reboot ==> after.Some? && after.value.until > 0 && after.value.reason == REBOOT_REASON))
        && (action == PowerOn && outcome == Done ==> after.None?)
        && (action == PowerOn && outcome == Uncertain ==>
          after.Some? && after.value.until > 0 && after.value.reason == UNCERTAIN_REASON)
      ensures kept && Reasoned(old(s).holds) ==> forall q | 0 <= q < |targets| && outcomes[q] == Some(Refused) ::
        HoldOf(s.holds, targets[q]) == HoldOf(old(s).holds, targets[q])
      ensures forall u | u !in targets :: HoldOf(s.holds, u) == HoldOf(old(s).holds, u)
      ensures Reasoned(old(s).holds) ==> Reasoned(s.holds)
      ensures old(faults) <= faults && (!kept || !written ==> old(faults) < faults)
      ensures (forall q | 0 <= q < |targets| :: !stopping(q)) ==>
        old(faults) < faults
        || (s.job == Finished && forall q | 0 <= q < |targets| :: outcomes[q] == Some(Invalid) <==>
          !(targets[q].account in desktops && targets[q].desktop in desktops[targets[q].account]
            && !desktops[targets[q].account][targets[q].desktop]))
    {
      hide Reasoned;
      var go;
      go, outcomes, kept, written := ProcessTargets(action, targets, desktops, stopping);
      forall q | kept && Reasoned(old(s).holds) && 0 <= q < |targets| && outcomes[q] == Some(Refused)
        ensures HoldOf(s.holds, targets[q]) == HoldOf(old(s).holds, targets[q])
      {
        RefusalKeepsHold(action, old(s).holds, targets[q], HoldOf(s.holds, targets[q]));
      }
      var done := false;
      if go {
        done := FinishPowerJob(Finished);
      }
      if !done {
        var closed := CloseInterrupted();
        written := closed;
      }
    }

    /** Every start of the service: three statements, any of which may fail and end the rest. */
    method InterruptPowerJobs() returns (ok: bool)
      requires Valid()
      modifies this
      ensures Valid() && old(trace) <= trace && s.submitted == old(s).submitted && s.holds == old(s).holds
      ensures ok ==> s.job != Running && AllEnded(s.items)
      ensures ok ==> |s.items| == |old(s).items| && forall q | 0 <= q < |s.items| ::
        s.items[q] ==
          if old(s).items[q] == Submitting then Unknown
          else if old(s).items[q] in {Queued, Validating} then Cancelled else old(s).items[q]
      ensures discarded == old(discarded)
      ensures old(faults) <= faults && (!ok ==> old(faults) < faults)
    {
      hide Inv, Closed, AllEnded, Moved;
      AllMoved(s.items);
      MovedKeeps(s);
      ok := MoveItems({Submitting}, Unknown);
      if ok {
        MovedKeeps(s);
        ok := MoveItems({Queued, Validating}, Cancelled);
      }
      if ok && s.job == Running {
        ok := FinishPowerJob(Interrupted);
      }
    }
  }

  // ---- Targets ----

  /** The targets in order of their first occurrence. */
  function Unique(targets: seq<Target>): (r: seq<Target>)
    ensures forall t :: t in r <==> t in targets
    ensures forall i, j | 0 <= i < j < |r| :: r[i] != r[j]
  {
    if targets == [] then []
    else
      var init, last := targets[..|targets| - 1], targets[|targets| - 1];
      assert targets == init + [last];
      if last in init then Unique(init) else Unique(init) + [last]
  }

  /** A later target stays behind: when it first occurs, the earlier one already has. */
  lemma {:induction false} UniqueInOrder(targets: seq<Target>, i: nat, j: nat)
    requires i < j < |Unique(targets)|
    ensures exists p | 0 <= p < |targets| :: targets[p] == Unique(targets)[i] && Unique(targets)[j] !in targets[..p]
  {
    var init, last := targets[..|targets| - 1], targets[|targets| - 1];
    assert targets == init + [last];
    if j < |Unique(init)| {
      UniqueInOrder(init, i, j);
      var p :| 0 <= p < |init| && init[p] == Unique(init)[i] && Unique(init)[j] !in init[..p];
      assert targets[..p] == init[..p] && targets[p] == init[p];
    } else {
      assert Unique(targets)[i] == Unique(init)[i] && Unique(init)[i] in init;
      var p :| 0 <= p < |init| && init[p] == Unique(init)[i];
      assert targets[p] == init[p] && forall t | t in targets[..p] :: t in init;
    }
  }

  function UniqueOf(targets: seq<Target>, count: nat): seq<Target>
    requires count <= |targets|
  {
    Unique(targets[..count])
  }

  function Among(targets: seq<Target>, count: nat): set<Target>
    requires count <= |targets|
  {
    set t | t in targets[..count]
  }

  lemma UniqueGrows(targets: seq<Target>, i: nat)
    requires i < |targets|
    ensures UniqueOf(targets, i + 1) ==
      UniqueOf(targets, i) + if targets[i] in Among(targets, i) then [] else [targets[i]]
    ensures Among(targets, i + 1) == Among(targets, i) + {targets[i]}
  {
    assert targets[..i + 1] == targets[..i] + [targets[i]];
    assert targets[..i + 1][..i] == targets[..i];
  }

  lemma UniqueEnds(targets: seq<Target>)
    ensures UniqueOf(targets, |targets|) == Unique(targets) && (targets != [] ==> Unique(targets) != [])
  {
    assert targets[..|targets|] == targets;
    assert targets != [] ==> targets[0] in Unique(targets);
  }

  /** The request checks of a new batch. `valid` stands for the checks of one target: a positive account and a desktop
      name that is neither blank nor longer than 256 bytes. */
  method AcceptTargets(requested: seq<Target>, valid: Target -> bool) returns (targets: Option<seq<Target>>)
    ensures targets.None? <==> |requested| == 0 || |requested| > 2000 || exists t :: t in requested && !valid(t)
    ensures targets.Some? ==> targets.value == Unique(requested) && |targets.value| > 0
  {
    if |requested| == 0 || |requested| > 2000 {
      return None;
    }
    UniqueEnds(requested);
    hide Unique, UniqueOf, Among;
    var unique: seq<Target> := [];
    var seen: set<Target> := {};
    for i := 0 to |requested|
      invariant unique == UniqueOf(requested, i) && seen == Among(requested, i)
      invariant forall j | 0 <= j < i :: valid(requested[j])
    {
      if !valid(requested[i]) {
        assert requested[i] in requested;
        return None;
      }
      UniqueGrows(requested, i);
      if requested[i] !in seen {
        seen := seen + {requested[i]};
        unique := unique + [requested[i]];
      }
    }
    assert forall t :: t in requested ==> valid(t);
    targets := Some(unique);
  }

  /** How often a target of the job has been submitted. */
  function Submissions(targets: seq<Target>, submitted: seq<nat>, t: Target): nat {
    if submitted == [] then 0
    else
      var last := submitted[|submitted| - 1];
      Submissions(targets, submitted[..|submitted| - 1], t) + if last < |targets| && targets[last] == t then 1 else 0
  }

  lemma {:induction false} SubmittedOnce(targets: seq<Target>, submitted: seq<nat>, t: Target)
    requires forall i, j | 0 <= i < j < |targets| :: targets[i] != targets[j]
    requires forall i, j | 0 <= i < j < |submitted| :: submitted[i] != submitted[j]
    ensures Submissions(targets, submitted, t) <= 1
    ensures Submissions(targets, submitted, t) == 1 <==>
      exists i | 0 <= i < |submitted| :: submitted[i] < |targets| && targets[submitted[i]] == t
  {
    if submitted != [] {
      var init := submitted[..|submitted| - 1];
      SubmittedOnce(targets, init, t);
      assert forall i | 0 <= i < |init| :: init[i] == submitted[i];
    }
  }

  /** What the invariant of a durable state says about the targets of its job. */
  lemma AtMostOnce(targets: seq<Target>, s: State, t: Target)
    requires Inv(s) && |s.items| == |targets| && forall i, j | 0 <= i < j < |targets| :: targets[i] != targets[j]
    ensures Submissions(targets, s.submitted, t) <= 1
    ensures forall q | 0 <= q < |targets| && targets[q] == t && NeverSubmitted(s.items[q]) ::
      Submissions(targets, s.submitted, t) == 0
  {
    SubmittedOnce(targets, s.submitted, t);
  }

  /** The last target of a batch fails its validation, and the batch finishes: the ended job is closed exactly when the
      failure was written. */
  lemma LostStatusIff(s: State, validating: State, failed: State, finished: State, pos: nat, ok: bool)
    requires s.job == Running && forall q | 0 <= q < |s.items| && q != pos :: Ended(s.items[q])
    requires ItemWritten(s, validating, pos, Validating, true) && ItemWritten(validating, failed, pos, Failed, ok)
    requires JobWritten(failed, finished, Finished, true)
    ensures Closed(finished) <==> ok
  {
    assert finished.items[pos] == if ok then Failed else Validating;
  }

  /** The run of a batch of one target that loses the write. */
  lemma LostStatusStaysOpen()
    ensures
      var started := State([Queued], Running, map[], []);
      var validating := started.(items := [Validating]);
      var finished := validating.(job := Finished);
      && ItemWritten(started, validating, 0, Validating, true) && ItemWritten(validating, validating, 0, Failed, false)
      && JobWritten(validating, finished, Finished, true)
      && Inv(finished) && !Closed(finished)
  {
    var started := State([Queued], Running, map[], []);
    var validating := started.(items := [Validating]);
    assert WithItem(started, 0, Validating) == validating;
    LostStatusIff(started, validating, validating, validating.(job := Finished), 0, false);
  }

  /** A batch from its request through a power loss at any moment and any number of restarts, each cut short in the
      same way: every target is submitted at most once, and a target whose item is queued, validating or cancelled
      never was; and in every durable state an ended job has only ended items, unless a status write was lost whose
      failure is not acted upon. */
  method JobLifetime(action: Action, requested: seq<Target>, valid: Target -> bool, desktops: map<int, map<string,
                     bool>>,
                     holds: map<Target, Hold>, stopping: nat -> bool, restarts: nat)
    returns (targets: seq<Target>, tables: Tables?)
    ensures tables == null <==> |requested| == 0 || |requested| > 2000 || exists t :: t in requested && !valid(t)
    ensures tables != null ==> targets == Unique(requested) && tables.Valid() && |tables.s.items| == |targets|
    ensures tables != null ==> forall t :: Submissions(targets, tables.s.submitted, t) <= 1
    ensures tables != null ==>
      forall q | 0 <= q < |targets| && tables.s.items[q] in {Queued, Validating, Cancelled} ::
        Submissions(targets, tables.s.submitted, targets[q]) == 0
    ensures tables != null && !tables.discarded ==>
      forall i, q | 0 <= i < |tables.trace| && tables.trace[i].job != Running && 0 <= q < |tables.trace[i].items| ::
        tables.trace[i].items[q] in {Accepted, Failed, Unknown, Cancelled}
    ensures tables != null && tables.faults == 0 ==> !tables.discarded
  {
    targets, tables := [], null;
    var accepted := AcceptTargets(requested, valid);
    if accepted.None? {
      return;
    }
    targets := accepted.value;
    var db := new Tables(|targets|, holds);
    var mark := |db.trace|;
    var _, _, _ := db.RunPowerBatch(action, targets, desktops, stopping);
    db.PowerLoss(mark);
    for k := 0 to restarts
      invariant db.Valid() && fresh(db) && |db.trace[0].items| == |targets|
    {
      mark := |db.trace|;
      var _ := db.InterruptPowerJobs();
      db.PowerLoss(mark);
    }
    assert Inv(db.s) && |db.s.items| == |targets|;
    forall t
      ensures Submissions(targets, db.s.submitted, t) <= 1
      ensures forall q | 0 <= q < |targets| && targets[q] == t && NeverSubmitted(db.s.items[q]) ::
        Submissions(targets, db.s.submitted, t) == 0
    {
      AtMostOnce(targets, db.s, t);
    }
    tables := db;
    assert !db.discarded ==> forall i | 0 <= i < |db.trace| :: Closed(db.trace[i]);
  }
}
