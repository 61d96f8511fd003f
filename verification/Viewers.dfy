/** The sessions of desktop pages and the resumption of a desktop's automatic connection after its last page has gone.
    Everything that adds or refreshes a session holds one lock, and so does the lifecycle loop from its look at the
    sessions to its last resumption. Times are in nanoseconds. */
module Viewers {
  import opened Options

  datatype Target = Target(account: int, desktop: string)

  datatype Session = Session(target: Target, key: string, entryKey: string, expires: int, lastSeen: int,
    closedAt: Option<int>, instance: nat)

  const SECOND := 1_000_000_000
  const CLOSE_GRACE := 15 * SECOND
  const HEARTBEAT_GRACE := 150 * SECOND
  const LIFETIME := 3600 * SECOND
  const LIMIT := 16

  /** Whether the loop is inside its locked part, and which targets it still has to resume. */
  datatype Loop = Waiting | Resuming(rest: seq<Target>)

  /** `tokens` counts the page instances drawn so far. */
  datatype State = State(viewers: map<nat, Session>, resumes: set<Target>, loop: Loop, tokens: nat)

  datatype Event =
    | Open(now: int, target: Target, valid: bool, id: nat, key: string, entryKey: string)
    | UseEntry(id: nat, entryKey: string)
    | Refresh(now: int, id: nat)
    | Pulse(now: int, id: nat, key: string, instance: nat, closing: bool)
    | Collect(now: int, list: seq<Target>)
    | Resume(ok: bool)
    | Leave

  predicate Known(t: Target) {
    t.account > 0 && t.desktop != ""
  }

  predicate Ended(v: Session, now: int) {
    now >= v.expires || (v.closedAt.Some? && now - v.closedAt.value >= CLOSE_GRACE)
      || now - v.lastSeen >= HEARTBEAT_GRACE
  }

  function EndedIds(viewers: map<nat, Session>, now: int): set<nat> {
    set id | id in viewers && Ended(viewers[id], now)
  }

  function ExpiredIds(viewers: map<nat, Session>, now: int): set<nat> {
    set id | id in viewers && now > viewers[id].expires
  }

  function KnownTargets(viewers: map<nat, Session>, ids: set<nat>): set<Target>
    requires ids <= viewers.Keys
  {
    set id | id in ids && Known(viewers[id].target) :: viewers[id].target
  }

  /** The sessions `ids` go, and their targets are queued. */
  function Dropped(s: State, ids: set<nat>): State
    requires ids <= s.viewers.Keys
  {
    s.(viewers := s.viewers - ids, resumes := s.resumes + KnownTargets(s.viewers, ids))
  }

  predicate HasPage(viewers: map<nat, Session>, t: Target) {
    exists id | id in viewers :: viewers[id].target == t
  }

  /** A list of exactly the queued targets without a session, in any order. */
  ghost predicate Lists(list: seq<Target>, s: State) {
    && (forall i, j | 0 <= i < j < |list| :: list[i] != list[j])
    && (forall t :: t in list <==> t in s.resumes && !HasPage(s.viewers, t))
  }

  // ---- Steps ----

  ghost predicate Possible(s: State, e: Event) {
    match e
    case Open(_, _, _, id, _, _) => s.loop.Waiting? && id !in s.viewers
    case Refresh(_, _) => s.loop.Waiting?
    case Pulse(_, _, _, _, _) => s.loop.Waiting?
    case Collect(now, list) => s.loop.Waiting? && Lists(list, Dropped(s, EndedIds(s.viewers, now)))
    case Resume(_) => s.loop.Resuming? && s.loop.rest != []
    case Leave => s.loop == Resuming([])
    case UseEntry(_, _) => true
  }

  /** Whether a pulse is let in: the session exists, has not expired, the key is its own and so is the page instance,
      and a heartbeat does not come after a close. */
  predicate Admitted(s: State, now: int, id: nat, key: string, instance: nat, closing: bool) {
    && id in s.viewers && now <= s.viewers[id].expires && s.viewers[id].key == key
    && s.viewers[id].instance == instance && (closing || s.viewers[id].closedAt.None?)
  }

  function Next(s: State, e: Event): State
    requires Possible(s, e)
  {
    match e
    case Open(now, target, valid, id, key, entryKey) =>
      if !valid then s
      else
        var kept := Dropped(s, ExpiredIds(s.viewers, now));
        if |kept.viewers| >= LIMIT then kept
        else
          var v := Session(target, key, entryKey, now + LIFETIME, now, None, s.tokens);
          kept.(viewers := kept.viewers[id := v], tokens := s.tokens + 1)
    case UseEntry(id, entryKey) =>
      if id in s.viewers && s.viewers[id].entryKey != "" && s.viewers[id].entryKey == entryKey
      then s.(viewers := s.viewers[id := s.viewers[id].(entryKey := "")]) else s
    case Refresh(now, id) =>
      if id in s.viewers
      then s.(viewers :=
        s.viewers[id := s.viewers[id].(lastSeen := now, closedAt := None, instance := s.tokens)], tokens :=
          s.tokens + 1)
      else s
    case Pulse(now, id, key, instance, closing) =>
      if !Admitted(s, now, id, key, instance, closing) then s
      else if closing then s.(viewers := s.viewers[id := s.viewers[id].(closedAt := Some(now))])
      else s.(viewers := s.viewers[id := s.viewers[id].(lastSeen := now, closedAt := None)])
    case Collect(now, list) => Dropped(s, EndedIds(s.viewers, now)).(loop := Resuming(list))
    case Resume(ok) =>
      s.(resumes := if ok then s.resumes - {s.loop.rest[0]} else s.resumes, loop := Resuming(s.loop.rest[1..]))
    case Leave => s.(loop := Waiting)
  }

  ghost predicate Run(states: seq<State>, events: seq<Event>) {
    && |states| == |events| + 1
    && forall i | 0 <= i < |events| :: Possible(states[i], events[i]) && states[i + 1] == Next(states[i], events[i])
  }

  // ---- What always holds ----

  /** What the loop still has to resume is queued, listed once and without a page; page instances are old tokens. */
  ghost predicate Inv(s: State) {
    && (forall id | id in s.viewers :: s.viewers[id].instance < s.tokens)
    && (s.loop.Resuming? ==>
          && (forall i, j | 0 <= i < j < |s.loop.rest| :: s.loop.rest[i] != s.loop.rest[j])
          && (forall t | t in s.loop.rest :: t in s.resumes && !HasPage(s.viewers, t)))
  }

  lemma StepKeeps(s: State, e: Event)
    requires Inv(s) && Possible(s, e)
    ensures Inv(Next(s, e))
  {
    var t := Next(s, e);
    if e.Resume? {
      assert forall u | u in t.loop.rest :: u in s.loop.rest;
      assert forall i | 0 <= i < |t.loop.rest| :: t.loop.rest[i] == s.loop.rest[i + 1];
    } else if e.UseEntry? {
      assert forall u :: HasPage(t.viewers, u) ==> HasPage(s.viewers, u);
    }
  }

  lemma {:induction false} RunKeeps(states: seq<State>, events: seq<Event>, i: nat)
    requires Run(states, events) && Inv(states[0]) && i < |states|
    ensures Inv(states[i])
  {
    if i > 0 {
      RunKeeps(states, events, i - 1);
      StepKeeps(states[i - 1], events[i - 1]);
    }
  }

  /** The loop never resumes a target that has a page, whatever happened since it collected its list. */
  lemma NeverResumesOpenPage(states: seq<State>, events: seq<Event>, i: nat)
    requires Run(states, events) && Inv(states[0]) && i < |events| && events[i].Resume?
    ensures forall id | id in states[i].viewers :: states[i].viewers[id].target != states[i].loop.rest[0]
  {
    RunKeeps(states, events, i);
    assert states[i].loop.rest[0] in states[i].loop.rest && !HasPage(states[i].viewers, states[i].loop.rest[0]);
  }

  predicate ResumesTarget(s: State, e: Event, t: Target) {
    e == Resume(true) && s.loop.Resuming? && s.loop.rest != [] && s.loop.rest[0] == t
  }

  /** A session that is gone after a step has its target queued. */
  lemma RemovalQueues(s: State, e: Event, id: nat)
    requires Possible(s, e) && id in s.viewers && id !in Next(s, e).viewers
    ensures s.viewers[id].target.account > 0 && s.viewers[id].target.desktop != "" ==>
      s.viewers[id].target in Next(s, e).resumes
    ensures e.Collect? || e.Open?
  {
  }

  lemma StepKeepsTarget(s: State, e: Event, id: nat)
    requires Possible(s, e) && id in s.viewers && id in Next(s, e).viewers
    ensures Next(s, e).viewers[id].target == s.viewers[id].target
  {
  }

  lemma QueuedUntilResumed(s: State, e: Event, t: Target)
    requires Possible(s, e) && t in s.resumes && t !in Next(s, e).resumes
    ensures ResumesTarget(s, e, t)
  {
  }

  predicate Remembered(s: State, id: nat, t: Target) {
    (id in s.viewers && s.viewers[id].target == t) || t in s.resumes
  }

  lemma RememberedStep(s: State, e: Event, id: nat, t: Target)
    requires Possible(s, e) && Known(t) && Remembered(s, id, t)
    ensures Remembered(Next(s, e), id, t) || ResumesTarget(s, e, t)
  {
    if t in s.resumes {
      if t !in Next(s, e).resumes {
        QueuedUntilResumed(s, e, t);
      }
    } else if id in Next(s, e).viewers {
      StepKeepsTarget(s, e, id);
    } else {
      RemovalQueues(s, e, id);
    }
  }

  /** Once a target has a session, it stays remembered, by the session or in the queue, until the loop resumes it
      successfully. */
  lemma {:induction false} RememberedUntilResumed(states: seq<State>, events: seq<Event>, i: nat, j: nat, id: nat,
                                                  t: Target)
    requires Run(states, events) && i <= j < |states| && Known(t) && Remembered(states[i], id, t)
    ensures Remembered(states[j], id, t) || exists k :: i <= k < j && ResumesTarget(states[k], events[k], t)
  {
    hide Possible, Next, Remembered, ResumesTarget, Known;
    if i < j {
      RememberedUntilResumed(states, events, i, j - 1, id, t);
      if Remembered(states[j - 1], id, t) {
        assert states[j - 1 + 1] == Next(states[j - 1], events[j - 1]);
        RememberedStep(states[j - 1], events[j - 1], id, t);
      }
    }
  }

  /** A look of the loop leaves exactly the sessions that have not ended, and lists every queued target without one. */
  lemma CollectIsExact(s: State, now: int, list: seq<Target>)
    requires Possible(s, Collect(now, list))
    ensures forall id :: id in Next(s, Collect(now, list)).viewers <==>
      && id in s.viewers && now < s.viewers[id].expires && now - s.viewers[id].lastSeen < 150 * SECOND
      && (s.viewers[id].closedAt.Some? ==> now - s.viewers[id].closedAt.value < 15 * SECOND)
    ensures forall id | id in s.viewers && Ended(s.viewers[id], now) && Known(s.viewers[id].target) ::
      var t := s.viewers[id].target;
      t in list || exists other :: other in s.viewers && s.viewers[other].target == t && !Ended(s.viewers[other], now)
  {
    var kept := Dropped(s, EndedIds(s.viewers, now));
    forall id | id in s.viewers && Ended(s.viewers[id], now) && Known(s.viewers[id].target)
      ensures var t := s.viewers[id].target;
              t in list || exists other ::
                other in s.viewers && s.viewers[other].target == t && !Ended(s.viewers[other], now)
    {
      var t := s.viewers[id].target;
      assert t in kept.resumes;
      if t !in list {
        var other :| other in kept.viewers && kept.viewers[other].target == t;
        assert other in s.viewers && !Ended(s.viewers[other], now);
      }
    }
  }

  lemma InstanceStep(s: State, e: Event, id: nat)
    requires Inv(s) && Possible(s, e) && id in s.viewers && id in Next(s, e).viewers
    ensures s.viewers[id].instance <= Next(s, e).viewers[id].instance
  {
  }

  /** The page instance of a session only grows. */
  lemma {:induction false} InstanceGrows(states: seq<State>, events: seq<Event>, i: nat, j: nat, id: nat)
    requires Run(states, events) && Inv(states[0]) && i <= j < |states|
    requires forall k | i <= k <= j :: id in states[k].viewers
    ensures states[i].viewers[id].instance <= states[j].viewers[id].instance
  {
    hide Possible, Next, Inv;
    if i < j {
      InstanceGrows(states, events, i, j - 1, id);
      RunKeeps(states, events, j - 1);
      assert states[j - 1 + 1] == Next(states[j - 1], events[j - 1]);
      InstanceStep(states[j - 1], events[j - 1], id);
    }
  }

  lemma NeverOlderStep(s: State, e: Event, id: nat, floor: nat)
    requires Possible(s, e) && floor <= s.tokens && (id in s.viewers ==> floor <= s.viewers[id].instance)
    ensures floor <= Next(s, e).tokens && (id in Next(s, e).viewers ==> floor <= Next(s, e).viewers[id].instance)
  {
  }

  /** Whether the session stays, goes or is opened again: its page instance does not fall below what has been drawn. */
  lemma {:induction false} NeverOlder(states: seq<State>, events: seq<Event>, i: nat, j: nat, id: nat, floor: nat)
    requires Run(states, events) && i <= j < |states|
    requires floor <= states[i].tokens && (id in states[i].viewers ==> floor <= states[i].viewers[id].instance)
    ensures floor <= states[j].tokens && (id in states[j].viewers ==> floor <= states[j].viewers[id].instance)
  {
    hide Possible, Next;
    if i < j {
      NeverOlder(states, events, i, j - 1, id, floor);
      assert states[j - 1 + 1] == Next(states[j - 1], events[j - 1]);
      NeverOlderStep(states[j - 1], events[j - 1], id, floor);
    }
  }

  /** Once a page has been loaded again, no pulse of an earlier instance of it changes anything, ever. */
  lemma OldInstanceIsMute(states: seq<State>, events: seq<Event>, i: nat, j: nat)
    requires Run(states, events) && Inv(states[0]) && i < j < |events|
    requires events[i].Refresh? && events[i].id in states[i].viewers
    requires events[j].Pulse? && events[j].id == events[i].id
      && events[j].instance <= states[i].viewers[events[i].id].instance
    ensures states[j + 1] == states[j]
  {
    var id := events[i].id;
    RunKeeps(states, events, i);
    assert states[i + 1].viewers[id].instance == states[i].tokens;
    NeverOlder(states, events, i + 1, j, id, states[i].tokens);
  }

  /** The key of an entry link opens its page once. */
  lemma EntryUsedOnce(s: State, id: nat, entryKey: string)
    requires entryKey != "" && id in s.viewers
    ensures
      var used := Next(s, UseEntry(id, entryKey));
      && (used != s <==> s.viewers[id].entryKey == entryKey)
      && used.viewers[id] == s.viewers[id].(entryKey := used.viewers[id].entryKey)
      && Next(used, UseEntry(id, entryKey)) == used
  {
    assert s.viewers[id].entryKey == entryKey ==>
      Next(s, UseEntry(id, entryKey)).viewers[id].entryKey == "";
  }

  /** A closed page stays closed until it is loaded again: no heartbeat revives it. */
  lemma ClosedStaysClosed(s: State, e: Event, id: nat)
    requires Possible(s, e) && id in s.viewers && s.viewers[id].closedAt.Some? && id in Next(s, e).viewers
    requires !(e.Refresh? && e.id == id)
    ensures Next(s, e).viewers[id].closedAt.Some?
  {
  }

  // ---- The program ----

  /** What a pulse is answered with. */
  datatype Answer = Done | InvalidSession | OtherWindow

  class Server {
    var s: State

    constructor ()
      ensures s == State(map[], {}, Waiting, 0) && Inv(s)
    {
      s := State(map[], {}, Waiting, 0);
    }

    method Queue(t: Target)
      modifies this
      ensures s == old(s).(resumes := old(s).resumes + if Known(t) then {t} else {})
    {
      if t.account <= 0 || t.desktop == "" {
        return;
      }
      s := s.(resumes := s.resumes + {t});
    }

    /** Queues the target of a session and removes the session. */
    method Drop(id: nat)
      requires id in s.viewers
      modifies this
      ensures s == Dropped(old(s), {id})
    {
      var t := s.viewers[id].target;
      Queue(t);
      s := s.(viewers := s.viewers - {id});
      assert KnownTargets(old(s).viewers, {id}) == if Known(t) then {t} else {};
    }

    method DropEnded(now: int)
      modifies this
      ensures s == Dropped(old(s), EndedIds(old(s).viewers, now))
    {
      var ids := s.viewers.Keys;
      ghost var gone: set<nat> := {};
      DropNone(s);
      while ids != {}
        invariant ids <= s.viewers.Keys && gone <= old(s).viewers.Keys && s == Dropped(old(s), gone)
        invariant gone == EndedIds(old(s).viewers, now) - ids
        decreases |ids|
      {
        var id :| id in ids;
        ids := ids - {id};
        if Ended(s.viewers[id], now) {
          Drop(id);
          DropMore(old(s), gone, id);
          gone := gone + {id};
        }
      }
    }

    method DropExpired(now: int)
      modifies this
      ensures s == Dropped(old(s), ExpiredIds(old(s).viewers, now))
    {
      var ids := s.viewers.Keys;
      ghost var gone: set<nat> := {};
      DropNone(s);
      while ids != {}
        invariant ids <= s.viewers.Keys && gone <= old(s).viewers.Keys && s == Dropped(old(s), gone)
        invariant gone == ExpiredIds(old(s).viewers, now) - ids
        decreases |ids|
      {
        var id :| id in ids;
        ids := ids - {id};
        if now > s.viewers[id].expires {
          Drop(id);
          DropMore(old(s), gone, id);
          gone := gone + {id};
        }
      }
    }

    method CreateDesktopViewer(now: int, target: Target, valid: bool, id: nat, key: string, entryKey: string)
      returns (ok: bool)
      requires Inv(s) && Possible(s, Open(now, target, valid, id, key, entryKey))
      modifies this
      ensures Inv(s) && s == Next(old(s), Open(now, target, valid, id, key, entryKey))
      ensures ok ==>
        |s.viewers| <= 16 && id in s.viewers
        && s.viewers[id] == Session(target, key, entryKey, now + 3600 * SECOND, now, None, old(s).tokens)
      ensures valid ==> forall other | other != id :: other in s.viewers <==>
        other in old(s).viewers && now <= old(s).viewers[other].expires
      ensures valid && !ok ==> |s.viewers| >= 16
      ensures forall other | other in s.viewers && other != id ::
        other in old(s).viewers && s.viewers[other] == old(s).viewers[other]
      ensures !valid ==> !ok && s == old(s)
    {
      StepKeeps(s, Open(now, target, valid, id, key, entryKey));
      if !valid {
        return false;
      }
      DropExpired(now);
      if |s.viewers| >= LIMIT {
        return false;
      }
      s := s.(viewers :=
        s.viewers[id := Session(target, key, entryKey, now + LIFETIME, now, None, s.tokens)], tokens := s.tokens + 1);
      ok := true;
    }

    method OpenPage(now: int, id: nat) returns (found: bool)
      requires Inv(s) && Possible(s, Refresh(now, id))
      modifies this
      ensures Inv(s) && s == Next(old(s), Refresh(now, id)) && found == (id in old(s).viewers)
      ensures !found ==> s == old(s)
      ensures found ==>
        && s == old(s).(viewers := s.viewers, tokens := old(s).tokens + 1)
        && s.viewers == old(s).viewers[id := s.viewers[id]]
        && s.viewers[id] == old(s).viewers[id].(lastSeen := now, closedAt := None, instance := old(s).tokens)
    {
      StepKeeps(s, Refresh(now, id));
      found := id in s.viewers;
      if found {
        var current := s.viewers[id].(lastSeen := now, closedAt := None, instance := s.tokens);
        s := s.(viewers := s.viewers[id := current], tokens := s.tokens + 1);
      }
    }

    method DesktopViewerPulse(now: int, id: nat, key: string, instance: nat, closing: bool) returns (answer: Answer)
      requires Inv(s) && Possible(s, Pulse(now, id, key, instance, closing))
      modifies this
      ensures Inv(s) && s == Next(old(s), Pulse(now, id, key, instance, closing))
      ensures answer == InvalidSession <==>
        id !in old(s).viewers || now > old(s).viewers[id].expires || old(s).viewers[id].key != key
      ensures answer == OtherWindow <==> answer != InvalidSession && !closing && old(s).viewers[id].instance != instance
      ensures answer != Done || old(s).viewers[id].instance != instance ==> s == old(s)
      ensures answer == Done && old(s).viewers[id].instance == instance ==>
        var v := old(s).viewers[id];
        && s == old(s).(viewers := s.viewers) && s.viewers == old(s).viewers[id := s.viewers[id]]
        && s.viewers[id] ==
          if closing then v.(closedAt := Some(now)) else if v.closedAt.None? then v.(lastSeen := now) else v
    {
      StepKeeps(s, Pulse(now, id, key, instance, closing));
      answer := Done;
      if id !in s.viewers || now > s.viewers[id].expires || s.viewers[id].key != key {
        return InvalidSession;
      }
      var v := s.viewers[id];
      if v.instance != instance {
        return if closing then Done else OtherWindow;
      }
      if !closing && v.closedAt.Some? {
        return;
      }
      v := if closing then v.(closedAt := Some(now)) else v.(lastSeen := now, closedAt := None);
      s := s.(viewers := s.viewers[id := v]);
    }

    method CollectViewerResumes(now: int) returns (list: seq<Target>)
      requires Inv(s) && s.loop.Waiting?
      modifies this
      ensures Lists(list, s) && s == Dropped(old(s), EndedIds(old(s).viewers, now))
    {
      DropEnded(now);
      list := [];
      var targets := s.resumes;
      while targets != {}
        invariant targets <= s.resumes
        invariant forall i, j | 0 <= i < j < |list| :: list[i] != list[j]
        invariant forall t :: t in list <==> t in s.resumes - targets && !HasPage(s.viewers, t)
        decreases |targets|
      {
        var target :| target in targets;
        targets := targets - {target};
        var active := HasPage(s.viewers, target);
        if !active {
          list := list + [target];
        }
      }
    }

    /** One tick of the loop. `succeeds` tells which resumptions succeed; entry keys may be used between any two. */
    method Tick(now: int, succeeds: Target -> bool) returns (resumed: set<Target>)
      requires Inv(s) && s.loop.Waiting?
      modifies this
      ensures Inv(s) && s.loop.Waiting?
      ensures var kept := Dropped(old(s), EndedIds(old(s).viewers, now));
              && s.viewers.Keys == kept.viewers.Keys && s.resumes == kept.resumes - resumed
              && (forall id :: id in kept.viewers <==> id in old(s).viewers && !Ended(old(s).viewers[id], now))
              && (forall t :: t in resumed <==>
                    && t in kept.resumes && succeeds(t)
                    && forall id | id in kept.viewers :: kept.viewers[id].target != t)
              && forall t :: t in kept.resumes <==>
                || t in old(s).resumes
                || (t.account > 0 && t.desktop != ""
                    && exists id | id in old(s).viewers && Ended(old(s).viewers[id], now) ::
                      old(s).viewers[id].target == t)
    {
      ghost var before := s;
      var list := CollectViewerResumes(now);
      ghost var kept := s;
      StepKeeps(before, Collect(now, list));
      s := s.(loop := Resuming(list));
      resumed := {};
      while s.loop.rest != []
        invariant s.loop.Resuming? && Inv(s) && SamePages(s.viewers, kept.viewers)
        invariant s.resumes == kept.resumes - resumed
        invariant forall t :: t in resumed <==> t in list && t !in s.loop.rest && succeeds(t)
        decreases |s.loop.rest|
      {
        UseSomeEntry(kept.viewers);
        var target := s.loop.rest[0];
        assert target in s.loop.rest && !HasPage(kept.viewers, target);
        var ok := succeeds(target);
        StepKeeps(s, Resume(ok));
        if ok {
          s := s.(resumes := s.resumes - {target});
          resumed := resumed + {target};
        }
        s := s.(loop := Resuming(s.loop.rest[1..]));
      }
      s := s.(loop := Waiting);
    }

    method UseSomeEntry(ghost pages: map<nat, Session>)
      requires Inv(s) && SamePages(s.viewers, pages)
      modifies this
      ensures Inv(s) && SamePages(s.viewers, pages) && s == old(s).(viewers := s.viewers)
    {
      if id: nat :| id in s.viewers {
        var entryKey := s.viewers[id].entryKey;
        StepKeeps(s, UseEntry(id, entryKey));
        if entryKey != "" {
          s := s.(viewers := s.viewers[id := s.viewers[id].(entryKey := "")]);
        }
      }
    }
  }

  /** The same sessions with the same targets. */
  ghost predicate SamePages(a: map<nat, Session>, b: map<nat, Session>) {
    a.Keys == b.Keys && forall id | id in a :: a[id].target == b[id].target
  }

  lemma DropNone(s: State)
    ensures Dropped(s, {}) == s
  {
  }

  lemma DropMore(s: State, ids: set<nat>, id: nat)
    requires ids <= s.viewers.Keys && id in s.viewers && id !in ids
    ensures id in Dropped(s, ids).viewers && Dropped(Dropped(s, ids), {id}) == Dropped(s, ids + {id})
  {
    var part := Dropped(s, ids);
    assert part.viewers - {id} == s.viewers - (ids + {id});
    assert part.resumes + KnownTargets(part.viewers, {id}) == s.resumes + KnownTargets(s.viewers, ids + {id});
  }
}
