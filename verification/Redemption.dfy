/** The redemption of points by one account. The row of the account says `Pending` before an order is placed and keeps
    saying so until the order's result is known and written or a person resolves it. Any step may be the last before a
    crash, and the clock, the configuration and that person move between any two steps. */
module Redemption {

  datatype Status = Fresh | Pending | Success | Failed

  /** A `cost` of zero or less accepts any price. */
  datatype Config = Config(enabled: bool, autoMax: bool, maxTimes: int, cost: int)

  /** `Unclear` covers every failure that is not an answer of the platform, `NotSent` those before the request. */
  datatype Outcome = Accepted | Rejected(riskControl: bool) | Unclear | NotSent

  /** Where the run of the account is; one account never has two. */
  datatype Run =
    | Idle
    | Checked(automatic: bool, date: int, config: Config)
    | Noted(automatic: bool, date: int, config: Config, points: int, price: int)
    | Answered(outcome: Outcome)

  /** What happened, in order: an order reached the platform, a definite result was written, a person resolved. */
  datatype Entry =
    | Ordered(run: nat, automatic: bool, date: int, times: int, price: int, points: int, config: Config)
    | Settled
    | Resolved

  /** `lastDate` is -1 before the first attempt. */
  datatype State = State(today: int, config: Config, status: Status, lastDate: int, run: Run, runs: nat,
    log: seq<Entry>)

  datatype Event =
    | Day(date: int)
    | Configure(config: Config)
    | Begin(automatic: bool)
    | GiveUp
    | Note(points: int, price: int)
    | Order(outcome: Outcome)
    | Disable
    | Record(written: bool)
    | Crash
    | Resolve(succeeded: bool)

  // ---- Quantity ----

  function Quantity(config: Config, points: int, price: int): int {
    if price <= 0 || points <= 0 then 0
    else
      var possible := points / price;
      if config.autoMax || possible <= config.maxTimes then possible else config.maxTimes
  }

  /** What an order of `times` at `price` must satisfy: it is affordable and within the cap, and below the cap one more
      would not be affordable. */
  predicate Proper(config: Config, points: int, price: int, times: int) {
    && times >= 1 && price > 0 && times * price <= points
    && (!config.autoMax ==> times <= config.maxTimes)
    && (config.autoMax || times < config.maxTimes ==> (times + 1) * price > points)
    && (config.cost > 0 ==> price == config.cost)
  }

  lemma Division(points: int, price: int, possible: int)
    requires points > 0 && price > 0 && possible == points / price
    ensures possible * price <= points < (possible + 1) * price
    ensures points < price <==> possible < 1
  {
    if possible >= 1 {
      Fewer(1, possible, price);
    }
  }

  lemma Fewer(times: int, possible: int, price: int)
    requires times <= possible && price > 0
    ensures times * price <= possible * price
  {
    assert (possible - times) * price >= 0;
  }

  /** A quantity is ordered only if it is proper, and nothing is ordered only if not even one piece is. */
  lemma QuantityIsProper(config: Config, points: int, price: int)
    requires config.cost > 0 ==> price == config.cost
    ensures Quantity(config, points, price) >= 1 ==> Proper(config, points, price, Quantity(config, points, price))
    ensures Quantity(config, points, price) < 1 <==>
      price <= 0 || points < price || (!config.autoMax && config.maxTimes < 1)
  {
    if price > 0 && points > 0 {
      var possible := points / price;
      var times := Quantity(config, points, price);
      Division(points, price, possible);
      assert times <= possible;
      Fewer(times, possible, price);
    }
  }

  // ---- Steps ----

  predicate Possible(s: State, e: Event) {
    match e
    case Day(date) => date >= s.today
    case Begin(_) => s.run.Idle?
    case GiveUp => s.run.Checked?
    case Note(_, _) => s.run.Checked?
    case Order(_) => s.run.Noted?
    case Disable => s.run.Answered? && s.run.outcome == Rejected(true)
    case Record(_) => s.run.Answered?
    case _ => true
  }

  /** Whether a new run is turned away at its first look at the tables. */
  predicate TurnedAway(s: State, automatic: bool) {
    (automatic && !s.config.enabled) || s.status == Pending || (automatic && s.lastDate == s.today)
  }

  function StatusAfter(outcome: Outcome): Status {
    match outcome
    case Accepted => Success
    case Rejected(_) => Failed
    case _ => Pending
  }

  function Next(s: State, e: Event): State
    requires Possible(s, e)
  {
    match e
    case Day(date) => s.(today := date)
    case Configure(config) => s.(config := config)
    case Begin(automatic) =>
      if TurnedAway(s, automatic) then s.(runs := s.runs + 1)
      else s.(runs := s.runs + 1, run := Checked(automatic, s.today, s.config))
    case GiveUp => s.(run := Idle)
    case Note(points, price) =>
      var run := s.run;
      if (run.config.cost > 0 && price != run.config.cost) || Quantity(run.config, points, price) < 1
        then s.(run := Idle)
      else s.(status := Pending, lastDate := run.date, run := Noted(run.automatic, run.date, run.config, points, price))
    case Order(outcome) =>
      var run := s.run;
      var entry :=
        Ordered(s.runs, run.automatic, run.date, Quantity(run.config, run.points, run.price), run.price, run.points,
          run.config);
      s.(run := Answered(outcome), log := if outcome.NotSent? then s.log else s.log + [entry])
    case Disable => s.(config := s.config.(enabled := false))
    case Record(written) =>
      if !written then s.(run := Idle)
      else
        var status := StatusAfter(s.run.outcome);
        s.(run := Idle, status := status, log := if status == Pending then s.log else s.log + [Settled])
    case Crash => s.(run := Idle)
    case Resolve(succeeded) =>
      if s.status == Pending then s.(status := if succeeded then Success else Failed, log := s.log + [Resolved]) else s
  }

  predicate Lawful(s: State, events: seq<Event>)
    decreases |events|
  {
    events == [] || (Possible(s, events[0]) && Lawful(Next(s, events[0]), events[1..]))
  }

  function After(s: State, events: seq<Event>): State
    requires Lawful(s, events)
    decreases |events|
  {
    if events == [] then s else After(Next(s, events[0]), events[1..])
  }

  // ---- What always holds ----

  /** Every order is proper, belongs to a run of its own, and is dated no later than the last attempt; an automatic
      one is enabled by the configuration of its run and dated after everything before it. */
  ghost predicate Sound(s: State) {
    && s.lastDate <= s.today
    && (forall i | 0 <= i < |s.log| && s.log[i].Ordered? ::
          var o := s.log[i];
          && Proper(o.config, o.points, o.price, o.times) && (o.automatic ==> o.config.enabled)
          && o.run <= s.runs && o.date <= s.lastDate)
    && (forall i, j | 0 <= i < j < |s.log| && s.log[i].Ordered? && s.log[j].Ordered? ::
          s.log[i].run != s.log[j].run && (s.log[j].automatic ==> s.log[i].date < s.log[j].date))
    && (s.run.Checked? || s.run.Noted? ==> forall i | 0 <= i < |s.log| && s.log[i].Ordered? ::
          s.log[i].run < s.runs && s.log[i].date <= s.run.date && (s.run.automatic ==> s.log[i].date < s.run.date))
    && (s.run.Checked? || s.run.Noted? ==> (s.run.automatic ==> s.run.config.enabled))
    && (s.run.Checked? ==> s.lastDate <= s.run.date <= s.today && (s.run.automatic ==> s.lastDate < s.run.date))
    && (s.run.Noted? ==>
      s.lastDate == s.run.date
        && Proper(s.run.config, s.run.points, s.run.price, Quantity(s.run.config, s.run.points, s.run.price)))
  }

  /** Between two orders there is a definite result or a resolution. */
  ghost predicate Separated(log: seq<Entry>) {
    forall i, j | 0 <= i < j < |log| && log[i].Ordered? && log[j].Ordered? :: exists k :: i < k < j && !log[k].Ordered?
  }

  predicate Open(log: seq<Entry>) {
    |log| > 0 && log[|log| - 1].Ordered?
  }

  /** An order without a result is what the table calls pending, and no run is past the check while there is one. */
  ghost predicate Guarded(s: State) {
    && Separated(s.log)
    && (Open(s.log) ==> s.status == Pending)
    && (s.run.Checked? ==> s.status != Pending)
    && (s.run.Noted? ==> s.status == Pending && !Open(s.log))
  }

  /** The one step that breaks it: a resolution while the order is noted but not yet placed. */
  predicate Premature(s: State, e: Event) {
    e.Resolve? && s.run.Noted?
  }

  predicate Careful(s: State, events: seq<Event>)
    requires Lawful(s, events)
    decreases |events|
  {
    events == [] || (!Premature(s, events[0]) && Careful(Next(s, events[0]), events[1..]))
  }

  lemma StepSound(s: State, e: Event)
    requires Sound(s) && Possible(s, e)
    ensures Sound(Next(s, e))
  {
    if e.Note? {
      if !(s.run.config.cost > 0 && e.price != s.run.config.cost) {
        QuantityIsProper(s.run.config, e.points, e.price);
      }
    }
  }

  lemma AppendSeparated(log: seq<Entry>, entry: Entry)
    requires Separated(log) && (entry.Ordered? ==> !Open(log))
    ensures Separated(log + [entry])
  {
    var longer := log + [entry];
    forall i, j | 0 <= i < j < |longer| && longer[i].Ordered? && longer[j].Ordered?
      ensures exists k :: i < k < j && !longer[k].Ordered?
    {
      if j < |log| {
        var k :| i < k < j && !log[k].Ordered?;
        assert longer[k] == log[k];
      } else {
        assert !longer[j - 1].Ordered?;
      }
    }
  }

  lemma StepGuarded(s: State, e: Event)
    requires Guarded(s) && Possible(s, e) && !Premature(s, e)
    ensures Guarded(Next(s, e))
  {
    var t := Next(s, e);
    if t.log != s.log {
      AppendSeparated(s.log, t.log[|s.log|]);
    }
  }

  /** Over every run: each order is affordable, within its cap and at the configured price, an automatic one is enabled,
      no run places two, and an automatic order is dated after all earlier ones, so no date has two. */
  lemma {:induction false} EveryOrderProper(s: State, events: seq<Event>)
    requires Sound(s) && Lawful(s, events)
    ensures Sound(After(s, events))
    ensures
      var log := After(s, events).log;
      && (forall i | 0 <= i < |log| && log[i].Ordered? ::
            && 1 <= log[i].times && log[i].times * log[i].price <= log[i].points
            && (log[i].automatic ==> log[i].config.enabled)
            && (log[i].config.autoMax || log[i].times <= log[i].config.maxTimes)
            && (log[i].config.cost > 0 ==> log[i].price == log[i].config.cost))
      && (forall i, j | 0 <= i < j < |log| && log[i].Ordered? && log[j].Ordered? ::
            log[i].run != log[j].run && (log[j].automatic ==> log[i].date < log[j].date))
    decreases |events|
  {
    if events != [] {
      StepSound(s, events[0]);
      EveryOrderProper(Next(s, events[0]), events[1..]);
    }
  }

  /** Over every run in which nobody resolves an order that is noted but not yet placed, an order whose result is
      uncertain is never followed by another before a definite result or a resolution. */
  lemma {:induction false} NeverResubmitted(s: State, events: seq<Event>)
    requires Guarded(s) && Lawful(s, events) && Careful(s, events)
    ensures Guarded(After(s, events))
    decreases |events|
  {
    if events != [] {
      StepGuarded(s, events[0]);
      NeverResubmitted(Next(s, events[0]), events[1..]);
    }
  }

  /** After risk control has disabled automatic redemption no automatic order is placed, until somebody configures it
      anew. */
  lemma RiskControlStops(s: State, events: seq<Event>)
    requires Possible(s, Disable) && Lawful(Next(s, Disable), events)
    requires forall config :: Configure(config) !in events
    ensures
      var log := After(Next(s, Disable), events).log;
      s.log <= log && forall i | |s.log| <= i < |log| && log[i].Ordered? :: !log[i].automatic
  {
    DisabledStops(Next(s, Disable), events);
  }

  lemma {:induction false} DisabledStops(s: State, events: seq<Event>)
    requires Lawful(s, events) && !s.config.enabled && (s.run.Checked? || s.run.Noted? ==> !s.run.automatic)
    requires forall config :: Configure(config) !in events
    ensures s.log <= After(s, events).log
    ensures forall i | |s.log| <= i < |After(s, events).log| && After(s, events).log[i].Ordered? ::
      !After(s, events).log[i].automatic
    decreases |events|
  {
    if events != [] {
      assert forall config :: events[0] != Configure(config);
      DisabledStops(Next(s, events[0]), events[1..]);
    }
  }

  lemma WholeHistory(s: State, events: seq<Event>)
    requires Lawful(s, events)
    ensures Sound(s) ==> Sound(After(s, events))
    ensures Guarded(s) && Careful(s, events) ==> Guarded(After(s, events))
  {
    if Sound(s) {
      EveryOrderProper(s, events);
    }
    if Guarded(s) && Careful(s, events) {
      NeverResubmitted(s, events);
    }
  }

  /** When is it harmful to resolve a pending order? Exactly when its run has not placed it yet. */
  lemma ResolveHarmsIff(s: State, succeeded: bool)
    requires Guarded(s) && s.status == Pending
    ensures s.run.Noted? <==>
      exists events :: Lawful(s, [Resolve(succeeded)] + events) && Careful(Next(s, Resolve(succeeded)), events)
                       && !Separated(After(s, [Resolve(succeeded)] + events).log)
  {
    var resolved := Next(s, Resolve(succeeded));
    if s.run.Noted? {
      Resubmission(s, succeeded);
    } else {
      StepGuarded(s, Resolve(succeeded));
      forall events | Lawful(s, [Resolve(succeeded)] + events) && Careful(resolved, events)
        ensures Separated(After(s, [Resolve(succeeded)] + events).log)
      {
        assert ([Resolve(succeeded)] + events)[1..] == events;
        NeverResubmitted(resolved, events);
      }
    }
  }

  lemma {:induction false} Prepend(s: State, e: Event, rest: seq<Event>)
    requires Possible(s, e) && Lawful(Next(s, e), rest)
    ensures Lawful(s, [e] + rest) && After(s, [e] + rest) == After(Next(s, e), rest)
    ensures !Premature(s, e) && Careful(Next(s, e), rest) ==> Careful(s, [e] + rest)
  {
    assert ([e] + rest)[1..] == rest;
  }

  /** The order is placed with an unclear result, the service stops before recording it, and the next run orders
      again. */
  lemma Resubmission(s: State, succeeded: bool)
    requires s.status == Pending && s.run.Noted?
    ensures exists events :: Lawful(s, [Resolve(succeeded)] + events) && Careful(Next(s, Resolve(succeeded)), events)
                             && !Separated(After(s, [Resolve(succeeded)] + events).log)
  {
    var any := Config(false, true, 1, 0);
    var s1 := Next(s, Resolve(succeeded));
    var s2 := Next(s1, Order(Unclear));
    var s3 := Next(s2, Crash);
    var s4 := Next(s3, Configure(any));
    var s5 := Next(s4, Begin(false));
    assert s5.run == Checked(false, s.today, any);
    var s6 := Next(s5, Note(1, 1));
    assert Quantity(any, 1, 1) == 1;
    var s7 := Next(s6, Order(Unclear));
    var n := |s1.log|;
    assert s7.log == s1.log + [s2.log[n]] + [s7.log[n + 1]];
    assert s7.log[n].Ordered? && s7.log[n + 1].Ordered?;
    assert !Separated(s7.log);
    Prepend(s6, Order(Unclear), []);
    Prepend(s5, Note(1, 1), [Order(Unclear)]);
    Prepend(s4, Begin(false), [Note(1, 1)] + [Order(Unclear)]);
    Prepend(s3, Configure(any), [Begin(false)] + ([Note(1, 1)] + [Order(Unclear)]));
    var tail := [Configure(any)] + ([Begin(false)] + ([Note(1, 1)] + [Order(Unclear)]));
    Prepend(s2, Crash, tail);
    Prepend(s1, Order(Unclear), [Crash] + tail);
    Prepend(s, Resolve(succeeded), [Order(Unclear)] + ([Crash] + tail));
  }

  // ---- The program ----

  lemma {:induction false} Append(s: State, events: seq<Event>, e: Event)
    requires Lawful(s, events) && Possible(After(s, events), e)
    ensures Lawful(s, events + [e]) && After(s, events + [e]) == Next(After(s, events), e)
    decreases |events|
  {
    if events == [] {
      assert [] + [e] == [e];
      Prepend(s, e, []);
    } else {
      Append(Next(s, events[0]), events[1..], e);
      assert events + [e] == [events[0]] + (events[1..] + [e]);
      Prepend(s, events[0], events[1..] + [e]);
    }
  }

  /** An order with what its run has read. */
  predicate OrderedBy(entry: Entry, run: Run, runs: nat, points: int, price: int)
    requires entry.Ordered? && (run.Checked? || run.Noted?)
  {
    && entry.run == runs && entry.automatic == run.automatic && entry.date == run.date && entry.config == run.config
    && entry.points == points && entry.price == price
  }

  /** The tables and the platform as one account sees them. */
  class Account {
    var s: State
    ghost var first: State
    ghost var history: seq<Event>

    ghost predicate Valid()
      reads this
    {
      Lawful(first, history) && s == After(first, history)
    }

    constructor (s: State)
      ensures Valid() && first == this.s == s && history == []
    {
      this.s, first, history := s, s, [];
    }

    method Become(next: State, ghost e: Event)
      requires Valid() && Possible(s, e) && next == Next(s, e)
      modifies this
      ensures Valid() && first == old(first) && s == next && history == old(history) + [e]
    {
      Append(first, history, e);
      s := next;
      history := history + [e];
    }

    method ResolveRedeem(succeeded: bool) returns (ok: bool)
      requires Valid()
      modifies this
      ensures Valid() && first == old(first) && s == Next(old(s), Resolve(succeeded))
        && ok == (old(s).status == Pending)
      ensures s == if !ok then old(s)
        else old(s).(status := if succeeded then Success else Failed, log := old(s).log + [Resolved])
    {
      ok := s.status == Pending;
      Become(if ok then s.(status := if succeeded then Success else Failed, log := s.log + [Resolved])
        else s, Resolve(succeeded));
    }

    /** Time passes: the clock moves on, somebody changes the configuration or resolves the order, or the process
        dies. */
    method Meanwhile() returns (alive: bool)
      requires Valid()
      modifies this
      ensures Valid() && first == old(first) && s.runs == old(s).runs
      ensures s.run == if alive then old(s).run else Idle
      ensures old(s).log <= s.log && forall i | |old(s).log| <= i < |s.log| :: s.log[i] == Resolved
    {
      var n: nat :| true;
      for i := 0 to n
        invariant Valid() && first == old(first) && s.runs == old(s).runs && s.run == old(s).run
        invariant old(s).log <= s.log && forall i | |old(s).log| <= i < |s.log| :: s.log[i] == Resolved
      {
        if * {
          var later: int :| later >= s.today;
          Become(s.(today := later), Day(later));
        } else if * {
          var config: Config :| true;
          Become(s.(config := config), Configure(config));
        } else {
          var succeeded := *;
          var _ := ResolveRedeem(succeeded);
        }
      }
      alive := *;
      if !alive {
        Become(s.(run := Idle), Crash);
      }
    }

    /** The first look at the tables. */
    method Check(automatic: bool) returns (ok: bool)
      requires Valid() && s.run.Idle?
      modifies this
      ensures Valid() && first == old(first) && s == Next(old(s), Begin(automatic))
      ensures ok <==>
        old(s).status != Pending && (automatic ==> old(s).config.enabled && old(s).lastDate != old(s).today)
      ensures s == old(s).(runs := old(s).runs + 1, run := s.run)
      ensures s.run == if ok then Checked(automatic, old(s).today, old(s).config) else Idle
    {
      ok := false;
      if automatic && !s.config.enabled {
        Become(s.(runs := s.runs + 1), Begin(automatic));
      } else if s.status == Pending {
        Become(s.(runs := s.runs + 1), Begin(automatic));
      } else if automatic && s.lastDate == s.today {
        Become(s.(runs := s.runs + 1), Begin(automatic));
      } else {
        Become(s.(runs := s.runs + 1, run := Checked(automatic, s.today, s.config)), Begin(automatic));
        ok := true;
      }
    }

    /** The row of the account is written before the order. */
    method WritePending(points: int, price: int) returns (ok: bool)
      requires Valid() && s.run.Checked?
      modifies this
      ensures Valid() && first == old(first) && s == Next(old(s), Note(points, price))
      ensures
        var run := old(s).run;
        && (ok <==>
          && (run.config.cost > 0 ==> price == run.config.cost) && 0 < price <= points
          && (run.config.autoMax || 1 <= run.config.maxTimes))
        && s == if !ok then old(s).(run := Idle)
          else old(s).(status := Pending, lastDate := run.date,
                       run := Noted(run.automatic, run.date, run.config, points, price))
    {
      hide Quantity, Proper;
      var run := s.run;
      if run.config.cost <= 0 || price == run.config.cost {
        QuantityIsProper(run.config, points, price);
      }
      ok := (run.config.cost <= 0 || price == run.config.cost) && Quantity(run.config, points, price) >= 1;
      if ok {
        Become(s.(status := Pending, lastDate := run.date, run :=
          Noted(run.automatic, run.date, run.config, points, price)), Note(points, price));
      } else {
        Become(s.(run := Idle), Note(points, price));
      }
    }

    method PlaceOrder() returns (outcome: Outcome)
      requires Valid() && s.run.Noted?
      modifies this
      ensures Valid() && first == old(first) && s == Next(old(s), Order(outcome))
      ensures s == old(s).(run := Answered(outcome), log := s.log)
      ensures if outcome.NotSent? then s.log == old(s).log else
        var run := old(s).run;
        |s.log| == |old(s).log| + 1 && s.log == old(s).log +
          [Ordered(old(s).runs, run.automatic, run.date, s.log[|old(s).log|].times, run.price, run.points, run.config)]
    {
      outcome :| true;
      Become(Next(s, Order(outcome)), Order(outcome));
    }

    /** Risk control ends automatic redemption, unless the write fails. */
    method DisableRedeem() returns (ok: bool)
      requires Valid() && s.run == Answered(Rejected(true))
      modifies this
      ensures Valid() && first == old(first)
      ensures s == old(s).(config := if ok then old(s).config.(enabled := false) else old(s).config)
    {
      ok := *;
      if ok {
        Become(s.(config := s.config.(enabled := false)), Disable);
      }
    }

    /** The result is written over the row, whatever it says by then. */
    method WriteResult() returns (ok: bool)
      requires Valid() && s.run.Answered?
      modifies this
      ensures Valid() && first == old(first) && s == Next(old(s), Record(ok))
      ensures
        var outcome := old(s).run.outcome;
        && s == old(s).(run := Idle, status := s.status, log := s.log)
        && s.status == (if !ok then old(s).status
                        else if outcome.Accepted? then Success else if outcome.Rejected? then Failed else Pending)
        && s.log == old(s).log + if ok && (outcome.Accepted? || outcome.Rejected?) then [Settled] else []
    {
      ok := *;
      var status := StatusAfter(s.run.outcome);
      if !ok {
        Become(s.(run := Idle), Record(ok));
      } else if status == Pending {
        Become(s.(run := Idle, status := status), Record(ok));
      } else {
        Become(s.(run := Idle, status := status, log := s.log + [Settled]), Record(ok));
      }
    }

    /** The order and its result; returns when the process dies or the run ends. */
    method OrderAndRecord()
      requires Valid() && s.run.Noted?
      modifies this
      ensures Valid() && first == old(first) && s.run.Idle? && s.runs == old(s).runs && old(s).log <= s.log
      ensures forall i, j | |old(s).log| <= i < j < |s.log| && s.log[i].Ordered? :: !s.log[j].Ordered?
      ensures forall i | |old(s).log| <= i < |s.log| && s.log[i].Ordered? ::
        OrderedBy(s.log[i], old(s).run, old(s).runs, old(s).run.points, old(s).run.price)
    {
      var alive := Meanwhile();
      if !alive {
        return;
      }
      var outcome := PlaceOrder();
      alive := Meanwhile();
      if !alive {
        return;
      }
      if outcome == Rejected(true) {
        var _ := DisableRedeem();
      }
      var _ := WriteResult();
    }

    /** Everything after the first look. */
    method Proceed(points: int, price: int)
      requires Valid() && s.run.Checked?
      modifies this
      ensures Valid() && first == old(first) && s.run.Idle? && s.runs == old(s).runs && old(s).log <= s.log
      ensures forall i, j | |old(s).log| <= i < j < |s.log| && s.log[i].Ordered? :: !s.log[j].Ordered?
      ensures forall i | |old(s).log| <= i < |s.log| && s.log[i].Ordered? ::
        OrderedBy(s.log[i], old(s).run, old(s).runs, points, price)
    {
      var alive := Meanwhile();
      if !alive {
        return;
      }
      if * {
        Become(s.(run := Idle), GiveUp); // The catalogue, the points or the desktops cannot be read, or do not fit.
        return;
      }
      var ok := WritePending(points, price);
      if ok {
        OrderAndRecord();
      }
    }

    /** One run, cut short anywhere: it places at most one order, under the configuration that it began with, and what
        it leaves is sound. */
    method Redeem(automatic: bool, points: int, price: int)
      requires Valid() && s.run.Idle?
      modifies this
      ensures Valid() && first == old(first) && s.run.Idle? && s.runs == old(s).runs + 1 && old(s).log <= s.log
      ensures forall i, j | |old(s).log| <= i < j < |s.log| && s.log[i].Ordered? :: !s.log[j].Ordered?
      ensures old(s).status == Pending || (automatic && (!old(s).config.enabled || old(s).lastDate == old(s).today)) ==>
        s == old(s).(runs := old(s).runs + 1)
      ensures forall i | |old(s).log| <= i < |s.log| && s.log[i].Ordered? ::
        var o := s.log[i];
        && o.config == old(s).config && o.automatic == automatic && o.run == old(s).runs + 1 && o.date == old(s).today
        && o.points == points && o.price == price && (automatic ==> old(s).config.enabled)
      ensures Sound(first) ==> Sound(s)
      ensures Guarded(first) && Careful(first, history) ==> Guarded(s)
    {
      var ok := Check(automatic);
      if ok {
        Proceed(points, price);
      }
      WholeHistory(first, history);
    }
  }
}
