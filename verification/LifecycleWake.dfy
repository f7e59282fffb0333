/** The revision and wake-up protocol of ACPSession (src/acp/session.py): waiters that decided
    on a revision fall asleep on a shared event, and whoever changes the lifecycle first
    moves the revision and afterwards, outside the lock, wakes the event it then finds. */
module LifecycleWake {
  import opened Wrappers

  type Id = nat
  type EventId = nat
  type Loop = nat

  datatype Waiter =
    | Decided(revision: nat)
    | Asleep(event: EventId, revision: nat)
    | Awake

  /** A thread between moving the revision and asking the loop to set the event. */
  datatype Waker = Moved | Looked(event: EventId)

  datatype State = State(
    revision: nat,
    closing: bool,
    registered: Option<(EventId, Loop)>,   // _lifecycle_event and its loop
    created: nat,
    raised: set<EventId>,                  // events whose flag is set
    scheduled: multiset<EventId>,          // event.set calls the loop still has to run
    waiters: map<Id, Waiter>,
    wakers: map<Id, Waker>)

  const INITIAL := State(0, false, None, 0, {}, multiset{}, map[], map[])

  datatype Label =
    | Decide(w: Id)                  // read the revision under the lock and decide to wait
    | Enter(w: Id, loop: Loop)       // the locked part of _wait_for_lifecycle_change, then event.wait
    | Move(t: Id, close: bool)       // change the lifecycle under the lock
    | Look(t: Id)                    // read the registered event
    | Schedule(t: Id)                // event.set on its own loop, or call_soon_threadsafe
    | Set(e: EventId)                // the loop runs event.set

  predicate CanStep(s: State, l: Label) {
    match l
    case Decide(w) => w in s.waiters ==> s.waiters[w].Awake?
    case Enter(w, _) => w in s.waiters && s.waiters[w].Decided?
    case Move(t, _) => t !in s.wakers
    case Look(t) => t in s.wakers && s.wakers[t].Moved?
    case Schedule(t) => t in s.wakers && s.wakers[t].Looked?
    case Set(e) => e in s.scheduled
  }

  function Step(s: State, l: Label): State
    requires CanStep(s, l)
  {
    match l
    case Decide(w) => s.(waiters := s.waiters[w := Decided(s.revision)])
    case Enter(w, loop) => Entered(s, w, loop)
    case Move(t, close) => s.(revision := s.revision + 1, closing := s.closing || close, wakers := s.wakers[t := Moved])
    case Look(t) =>
      if s.registered.None? then s.(wakers := s.wakers - {t}) else s.(wakers := s.wakers[t := Looked(s.registered.value.0)])
    case Schedule(t) => s.(wakers := s.wakers - {t}, scheduled := s.scheduled + multiset{s.wakers[t].event})
    case Set(e) =>
      s.(raised := s.raised + {e}, scheduled := s.scheduled - multiset{e},
         waiters := map w | w in s.waiters :: if s.waiters[w].Asleep? && s.waiters[w].event == e then Awake else s.waiters[w])
  }

  /** A waiter whose revision is out of date does not sleep; one on a new loop registers a
      new event; the shared event is cleared before the wait. */
  function Entered(s: State, w: Id, loop: Loop): State
    requires w in s.waiters && s.waiters[w].Decided?
  {
    var r := s.waiters[w].revision;
    if s.closing || r != s.revision then s.(waiters := s.waiters[w := Awake])
    else if s.registered.None? || s.registered.value.1 != loop then
      Waits(s.(registered := Some((s.created, loop)), created := s.created + 1), w, s.created, r)
    else
      var e := s.registered.value.0;
      Waits(s.(raised := s.raised - {e}), w, e, r)
  }

  /** `event.wait` returns at once when the flag is set. */
  function Waits(s: State, w: Id, e: EventId, r: nat): State {
    s.(waiters := s.waiters[w := if e in s.raised then Awake else Asleep(e, r)])
  }

  function Run(s: State, labels: seq<Label>): Option<State>
    decreases |labels|
  {
    if labels == [] then Some(s)
    else
      var before := Run(s, labels[..|labels| - 1]);
      if before.Some? && CanStep(before.value, labels[|labels| - 1]) then Some(Step(before.value, labels[|labels| - 1])) else None
  }

  /** Somebody is about to set event e: the loop has it in its queue, or a thread that has
      moved the revision will find it. */
  ghost predicate WakePending(s: State, e: EventId) {
    || e in s.scheduled
    || (exists t :: t in s.wakers && s.wakers[t] == Looked(e))
    || (s.registered.Some? && s.registered.value.0 == e && exists t :: t in s.wakers && s.wakers[t].Moved?)
  }

  predicate Stale(s: State, w: Id) {
    w in s.waiters && s.waiters[w].Asleep? && s.waiters[w].revision != s.revision
  }

  predicate Registered(s: State, e: EventId) {
    s.registered.Some? && s.registered.value.0 == e
  }

  ghost predicate WaiterOk(s: State, w: Id)
    requires w in s.waiters
  {
    s.waiters[w].Asleep? ==>
      && s.waiters[w].event < s.created
      && (Stale(s, w) && Registered(s, s.waiters[w].event) ==> WakePending(s, s.waiters[w].event))
  }

  ghost predicate Inv(s: State) {
    && (s.registered.Some? ==> s.registered.value.0 < s.created)
    && (forall e :: e in s.raised || e in s.scheduled ==> e < s.created)
    && (forall t :: t in s.wakers && s.wakers[t].Looked? ==> s.wakers[t].event < s.created)
    && forall w :: w in s.waiters ==> WaiterOk(s, w)
  }

  lemma StepKeepsWaiter(s: State, l: Label, w: Id)
    requires Inv(s) && CanStep(s, l) && w in Step(s, l).waiters
    ensures WaiterOk(Step(s, l), w)
  {
    var e := Step(s, l);
    if w in s.waiters { assert WaiterOk(s, w); }
    if Stale(e, w) && Registered(e, e.waiters[w].event) {
      match l
      case Move(t, _) => assert e.wakers[t].Moved?;
      case Look(t) => PendingSurvivesLook(s, t, e.waiters[w].event);
      case Schedule(t) => PendingSurvivesSchedule(s, t, e.waiters[w].event);
      case _ =>
    }
  }

  lemma PendingSurvivesLook(s: State, t: Id, e: EventId)
    requires CanStep(s, Look(t)) && WakePending(s, e) && Registered(s, e)
    ensures WakePending(Step(s, Look(t)), e)
  {
    assert Step(s, Look(t)).wakers[t] == Looked(e);
  }

  lemma PendingSurvivesSchedule(s: State, t: Id, e: EventId)
    requires CanStep(s, Schedule(t)) && WakePending(s, e)
    ensures WakePending(Step(s, Schedule(t)), e)
  {
    var after := Step(s, Schedule(t));
    if e !in s.scheduled && s.wakers[t] != Looked(e) {
      if u :| u in s.wakers && s.wakers[u] == Looked(e) { assert after.wakers[u] == Looked(e); }
      else {
        var v :| v in s.wakers && s.wakers[v].Moved?;
        assert after.wakers[v].Moved?;
      }
    }
  }

  lemma StepKeepsInv(s: State, l: Label)
    requires Inv(s) && CanStep(s, l)
    ensures Inv(Step(s, l))
  {
    forall w | w in Step(s, l).waiters ensures WaiterOk(Step(s, l), w) { StepKeepsWaiter(s, l, w); }
  }

  lemma {:induction false} RunKeepsInv(labels: seq<Label>)
    requires Run(INITIAL, labels).Some?
    ensures Inv(Run(INITIAL, labels).value)
    decreases |labels|
  {
    hide CanStep, Step;
    if labels != [] {
      RunKeepsInv(labels[..|labels| - 1]);
      StepKeepsInv(Run(INITIAL, labels[..|labels| - 1]).value, labels[|labels| - 1]);
    }
  }

  /** A waiter sleeps exactly when nothing changed since its decision: an event that is still
      set from an earlier wake does not make it spin. */
  lemma SleepsExactlyWhenCurrent(labels: seq<Label>, w: Id, loop: Loop)
    requires Run(INITIAL, labels).Some? && CanStep(Run(INITIAL, labels).value, Enter(w, loop))
    ensures var s := Run(INITIAL, labels).value;
            Step(s, Enter(w, loop)).waiters[w].Asleep? <==> !s.closing && s.waiters[w].revision == s.revision
  {
    RunKeepsInv(labels);
  }

  /** How often the lifecycle changed, and whether the session was closed, in a run. */
  function Moves(labels: seq<Label>): nat {
    if labels == [] then 0 else Moves(labels[..|labels| - 1]) + (if labels[|labels| - 1].Move? then 1 else 0)
  }

  predicate ClosedIn(labels: seq<Label>) {
    exists i :: 0 <= i < |labels| && labels[i].Move? && labels[i].close
  }

  lemma {:induction false} HistoryIsKept(labels: seq<Label>)
    requires Run(INITIAL, labels).Some?
    ensures Run(INITIAL, labels).value.revision == Moves(labels)
    ensures Run(INITIAL, labels).value.closing <==> ClosedIn(labels)
    decreases |labels|
  {
    if labels != [] {
      var n := |labels| - 1;
      HistoryIsKept(labels[..n]);
      assert ClosedIn(labels) <==> ClosedIn(labels[..n]) || (labels[n].Move? && labels[n].close) by {
        if ClosedIn(labels[..n]) {
          var i :| 0 <= i < n && labels[..n][i].Move? && labels[..n][i].close;
          assert labels[i].Move?;
        }
        if i :| 0 <= i < |labels| && labels[i].Move? && labels[i].close { assert i < n ==> labels[..n][i].Move?; }
      }
    }
  }

  /** In terms of the run alone: a waiter that decided at some point and enters now falls asleep
      exactly if nothing moved since it decided and nobody ever closed the session. */
  lemma SleepsExactly(labels: seq<Label>, more: seq<Label>, w: Id, loop: Loop)
    requires Run(INITIAL, labels).Some? && CanStep(Run(INITIAL, labels).value, Decide(w))
    requires Run(INITIAL, labels + [Decide(w)] + more).Some?
    requires forall i :: 0 <= i < |more| ==> !(more[i].Decide? && more[i].w == w) && !(more[i].Enter? && more[i].w == w)
    ensures CanStep(Run(INITIAL, labels + [Decide(w)] + more).value, Enter(w, loop))
    ensures Step(Run(INITIAL, labels + [Decide(w)] + more).value, Enter(w, loop)).waiters[w].Asleep? <==>
            Moves(labels + [Decide(w)] + more) == Moves(labels) && !ClosedIn(labels + [Decide(w)] + more)
  {
    StaysDecided(labels, more, w);
    HistoryIsKept(labels);
    HistoryIsKept(labels + [Decide(w)] + more);
    SleepsExactlyWhenCurrent(labels + [Decide(w)] + more, w, loop);
  }

  lemma {:induction false} StaysDecided(labels: seq<Label>, more: seq<Label>, w: Id)
    requires Run(INITIAL, labels).Some? && CanStep(Run(INITIAL, labels).value, Decide(w))
    requires Run(INITIAL, labels + [Decide(w)] + more).Some?
    requires forall i :: 0 <= i < |more| ==> !(more[i].Decide? && more[i].w == w) && !(more[i].Enter? && more[i].w == w)
    ensures var s := Run(INITIAL, labels + [Decide(w)] + more).value;
            w in s.waiters && s.waiters[w] == Decided(Run(INITIAL, labels).value.revision)
    decreases |more|
  {
    var all := labels + [Decide(w)] + more;
    if more == [] {
      assert all == labels + [Decide(w)] && all[..|labels|] == labels;
    } else {
      var n := |more| - 1;
      assert all[..|all| - 1] == labels + [Decide(w)] + more[..n] && all[|all| - 1] == more[n];
      StaysDecided(labels, more[..n], w);
    }
  }

  // ---- One event loop ----

  predicate OneLoop(labels: seq<Label>, loop: Loop) {
    forall i :: 0 <= i < |labels| && labels[i].Enter? ==> labels[i].loop == loop
  }

  ghost predicate OnLoop(s: State, loop: Loop) {
    && (s.registered.Some? ==> s.registered.value.1 == loop)
    && forall w :: w in s.waiters && s.waiters[w].Asleep? ==> Registered(s, s.waiters[w].event)
  }

  lemma {:induction false} OneLoopOneEvent(labels: seq<Label>, loop: Loop)
    requires Run(INITIAL, labels).Some? && OneLoop(labels, loop)
    ensures OnLoop(Run(INITIAL, labels).value, loop)
    decreases |labels|
  {
    if labels != [] {
      var l := labels[|labels| - 1];
      assert OneLoop(labels[..|labels| - 1], loop);
      OneLoopOneEvent(labels[..|labels| - 1], loop);
      OnLoopStep(Run(INITIAL, labels[..|labels| - 1]).value, l, loop);
    }
  }

  lemma OnLoopStep(s: State, l: Label, loop: Loop)
    requires OnLoop(s, loop) && CanStep(s, l) && (l.Enter? ==> l.loop == loop)
    ensures OnLoop(Step(s, l), loop)
  {
  }

  /** No lost wake-up on one loop: in every interleaving, with any number of waiters sharing
      the event, a waiter asleep on a revision that has moved on has a wake pending. */
  lemma NoLostWake(labels: seq<Label>, loop: Loop, w: Id)
    requires Run(INITIAL, labels).Some? && OneLoop(labels, loop) && Stale(Run(INITIAL, labels).value, w)
    ensures WakePending(Run(INITIAL, labels).value, Run(INITIAL, labels).value.waiters[w].event)
  {
    RunKeepsInv(labels);
    OneLoopOneEvent(labels, loop);
    assert WaiterOk(Run(INITIAL, labels).value, w);
  }

  /** On several loops a stale waiter can be left without a wake only if another loop's event
      has replaced its own. */
  lemma LostOnlyWhenReplaced(labels: seq<Label>, w: Id)
    requires Run(INITIAL, labels).Some? && Stale(Run(INITIAL, labels).value, w)
    requires !WakePending(Run(INITIAL, labels).value, Run(INITIAL, labels).value.waiters[w].event)
    ensures !Registered(Run(INITIAL, labels).value, Run(INITIAL, labels).value.waiters[w].event)
    ensures forall loop :: !OneLoop(labels, loop)
  {
    RunKeepsInv(labels);
    var s := Run(INITIAL, labels).value;
    assert WaiterOk(s, w);
    forall loop ensures !OneLoop(labels, loop) { if OneLoop(labels, loop) { NoLostWake(labels, loop, w); } }
  }

  /** Everybody asleep on e in s is awake in after. */
  predicate Woken(s: State, e: EventId, after: State) {
    forall w :: w in s.waiters && s.waiters[w].Asleep? && s.waiters[w].event == e ==> w in after.waiters && after.waiters[w].Awake?
  }

  predicate ByWaker(labels: seq<Label>) {
    forall i :: 0 <= i < |labels| ==> labels[i].Look? || labels[i].Schedule? || labels[i].Set?
  }

  lemma SetWakes(s: State, labels: seq<Label>, before: State, e: EventId) returns (more: seq<Label>)
    requires Run(s, labels) == Some(before) && before.waiters == s.waiters && e in before.scheduled && ByWaker(labels)
    ensures |more| == |labels| + 1 && Run(s, more).Some? && Woken(s, e, Run(s, more).value) && ByWaker(more)
  {
    hide Run;
    more := Then(s, labels, before, Set(e));
  }

  lemma ScheduleWakes(s: State, labels: seq<Label>, before: State, t: Id) returns (more: seq<Label>)
    requires Run(s, labels) == Some(before) && before.waiters == s.waiters && t in before.wakers && before.wakers[t].Looked? && ByWaker(labels)
    ensures |more| == |labels| + 2 && Run(s, more).Some? && Woken(s, before.wakers[t].event, Run(s, more).value) && ByWaker(more)
  {
    hide Run, Woken;
    more := Then(s, labels, before, Schedule(t));
    more := SetWakes(s, more, Step(before, Schedule(t)), before.wakers[t].event);
  }

  /** A pending wake needs no waiter: at most three steps of its waker and of the loop, all
      possible now, wake everybody asleep on the event. */
  lemma PendingWakes(s: State, e: EventId) returns (labels: seq<Label>)
    requires WakePending(s, e)
    ensures |labels| <= 3 && Run(s, labels).Some? && ByWaker(labels) && Woken(s, e, Run(s, labels).value)
  {
    hide Run, Woken;
    RunNothing(s);
    if e in s.scheduled {
      labels := SetWakes(s, [], s, e);
    } else if t :| t in s.wakers && s.wakers[t] == Looked(e) {
      labels := ScheduleWakes(s, [], s, t);
    } else {
      var t :| t in s.wakers && s.wakers[t].Moved?;
      labels := Then(s, [], s, Look(t));
      labels := ScheduleWakes(s, labels, Step(s, Look(t)), t);
    }
  }

  lemma RunNothing(s: State)
    ensures Run(s, []) == Some(s)
  {
  }

  lemma Then(s: State, labels: seq<Label>, before: State, l: Label) returns (more: seq<Label>)
    requires Run(s, labels) == Some(before) && CanStep(before, l)
    ensures more == labels + [l] && Run(s, more) == Some(Step(before, l))
  {
    hide CanStep, Step;
    more := labels + [l];
    assert more[..|labels|] == labels;
  }

  // ---- Two event loops ----

  /** Two loops do lose wake-ups: from every state with a waiter asleep on the registered
      event and nothing in flight, a second waiter on another loop and one change of the
      lifecycle leave the first asleep, out of date, with no wake pending. */
  lemma TwoLoopsLose(s: State, a: Id, b: Id, t: Id, loop: Loop) returns (labels: seq<Label>)
    requires Inv(s) && a in s.waiters && s.waiters[a].Asleep? && s.waiters[a].revision == s.revision && !s.closing
    requires Registered(s, s.waiters[a].event) && s.registered.value.1 != loop
    requires s.scheduled == multiset{} && s.wakers == map[] && b !in s.waiters
    ensures Run(s, labels).Some? && Stale(Run(s, labels).value, a)
    ensures !WakePending(Run(s, labels).value, Run(s, labels).value.waiters[a].event)
  {
    hide Run;
    assert WaiterOk(s, a);
    RunNothing(s);
    labels := Then(s, [], s, Decide(b));
    labels := Then(s, labels, Step(s, Decide(b)), Enter(b, loop));
    var s2 := s.(registered := Some((s.created, loop)), created := s.created + 1, waiters := s.waiters[b := Asleep(s.created, s.revision)]);
    assert Step(Step(s, Decide(b)), Enter(b, loop)) == s2 by {
      assert s.waiters[b := Decided(s.revision)][b := Asleep(s.created, s.revision)] == s2.waiters;
    }
    labels := Then(s, labels, s2, Move(t, false));
    var s3 := s2.(revision := s.revision + 1, wakers := map[t := Moved]);
    assert Step(s2, Move(t, false)) == s3;
    labels := Then(s, labels, s3, Look(t));
    var s4 := s3.(wakers := map[t := Looked(s.created)]);
    assert Step(s3, Look(t)) == s4;
    labels := Then(s, labels, s4, Schedule(t));
    var s5 := s4.(wakers := map[], scheduled := multiset{s.created});
    assert Step(s4, Schedule(t)) == s5;
    labels := Then(s, labels, s5, Set(s.created));
    assert Step(s5, Set(s.created)).wakers == map[] && Step(s5, Set(s.created)).scheduled == multiset{};
  }

  /** There is such a quiet state: one waiter that went to sleep. */
  lemma OneSleeper(a: Id, loop: Loop) returns (labels: seq<Label>, s: State)
    ensures Run(INITIAL, labels) == Some(s) && Inv(s) && !s.closing && s.scheduled == multiset{} && s.wakers == map[]
    ensures s.waiters == map[a := Asleep(0, 0)] && s.revision == 0 && s.registered == Some((0, loop))
  {
    hide Run;
    RunNothing(INITIAL);
    labels := Then(INITIAL, [], INITIAL, Decide(a));
    var s1 := Step(INITIAL, Decide(a));
    labels := Then(INITIAL, labels, s1, Enter(a, loop));
    s := Step(s1, Enter(a, loop));
    RunKeepsInv(labels);
  }

  // ---- Exactly who can still be woken ----

  /** Some set of e is under way: queued on the loop, or about to be. */
  ghost predicate InFlight(s: State, e: EventId) {
    e in s.scheduled || exists t :: t in s.wakers && s.wakers[t] == Looked(e)
  }

  predicate SleepsOn(s: State, w: Id, e: EventId) {
    w in s.waiters && s.waiters[w].Asleep? && s.waiters[w].event == e
  }

  ghost predicate Abandoned(s: State, w: Id, e: EventId) {
    SleepsOn(s, w, e) && e < s.created && !Registered(s, e) && !InFlight(s, e)
  }

  lemma AbandonedStays(s: State, l: Label, w: Id, e: EventId)
    requires Abandoned(s, w, e) && CanStep(s, l)
    ensures Abandoned(Step(s, l), w, e)
  {
    var after := Step(s, l);
    forall t | t in after.wakers ensures after.wakers[t] != Looked(e) {
      if t in s.wakers { assert s.wakers[t] != Looked(e); }
    }
  }

  lemma {:induction false} AbandonedForever(s: State, labels: seq<Label>, w: Id, e: EventId)
    requires Abandoned(s, w, e) && Run(s, labels).Some?
    ensures Abandoned(Run(s, labels).value, w, e)
    decreases |labels|
  {
    hide CanStep, Step, Abandoned;
    if labels != [] {
      AbandonedForever(s, labels[..|labels| - 1], w, e);
      AbandonedStays(Run(s, labels[..|labels| - 1]).value, labels[|labels| - 1], w, e);
    }
  }

  lemma {:induction false} SomeFreeId(m: map<Id, Waker>) returns (t: Id)
    ensures forall u :: u in m ==> u < t
    decreases |m|
  {
    if m == map[] { return 0; }
    var u :| u in m;
    t := SomeFreeId(m - {u});
    if t <= u { t := u + 1; }
    forall v | v in m ensures v < t { if v != u { assert v in m - {u}; } }
  }

  /** On any number of loops: a sleeper can ever be woken again exactly if its event is the
      registered one or a set of it is under way. Losing the event to another loop is final. */
  lemma WokenExactly(labels: seq<Label>, w: Id, e: EventId)
    requires Run(INITIAL, labels).Some? && SleepsOn(Run(INITIAL, labels).value, w, e)
    ensures var s := Run(INITIAL, labels).value;
            (exists more :: Run(s, more).Some? && !SleepsOn(Run(s, more).value, w, e)) <==> Registered(s, e) || InFlight(s, e)
  {
    hide Run;
    RunKeepsInv(labels);
    var s := Run(INITIAL, labels).value;
    assert WaiterOk(s, w);
    if Registered(s, e) || InFlight(s, e) {
      var more := WakeUp(s, e);
      assert !SleepsOn(Run(s, more).value, w, e);
    } else {
      forall more | Run(s, more).Some? ensures SleepsOn(Run(s, more).value, w, e) { AbandonedForever(s, more, w, e); }
    }
  }

  lemma WakeUp(s: State, e: EventId) returns (labels: seq<Label>)
    requires Registered(s, e) || InFlight(s, e)
    ensures Run(s, labels).Some? && Woken(s, e, Run(s, labels).value)
  {
    hide Run, Woken;
    if WakePending(s, e) {
      labels := PendingWakes(s, e);
    } else {
      var t := SomeFreeId(s.wakers);
      RunNothing(s);
      labels := Then(s, [], s, Move(t, false));
      var s1 := Step(s, Move(t, false));
      labels := Then(s, labels, s1, Look(t));
      var s2 := Step(s1, Look(t));
      labels := Then(s, labels, s2, Schedule(t));
      labels := Then(s, labels, Step(s2, Schedule(t)), Set(e));
      SetWakesAll(s, Step(s2, Schedule(t)), e);
    }
  }

  lemma SetWakesAll(s: State, before: State, e: EventId)
    requires before.waiters == s.waiters && e in before.scheduled
    ensures Woken(s, e, Step(before, Set(e)))
  {
  }
}
