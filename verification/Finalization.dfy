/** src/acp/finalization.py: one prompt with a reserved finalization turn.  Sessions, the
    clock and every callback belong to the environment and answer arbitrarily; what the run
    itself does is recorded in a log. */
module Finalization {
  import opened Wrappers
  import opened Strings
  import opened Outcome

  // ---- Budget arithmetic ----

  const MIN_PRIMARY := 60.0
  const CLEANUP_HEADROOM := 27.0

  datatype Split = InvalidBudget | Whole | Parts(primary: real, reserve: real)

  function Min(a: real, b: real): real { if a <= b then a else b }

  /** A reserve that was asked for, is at most a third, and leaves the primary its minimum. */
  predicate Fits(total: real, requested: real, reserve: real) {
    reserve <= requested && 3.0 * reserve <= total && total - reserve >= MIN_PRIMARY
  }

  function SplitTimeout(total: real, requested: real): (s: Split)
    ensures s.Parts? ==>
              && s.primary + s.reserve == total && s.primary >= MIN_PRIMARY
              && s.reserve > 0.0
    ensures s.Parts? ==> Fits(total, requested, s.reserve) && forall r: real :: Fits(total, requested, r) ==> r <= s.reserve
    ensures s.InvalidBudget? <==> total <= 0.0 || requested < 0.0
    ensures s.Parts? <==> total > MIN_PRIMARY && requested > 0.0
  {
    if total <= 0.0 || requested < 0.0 then InvalidBudget
    else if total <= MIN_PRIMARY || requested <= 0.0 then Whole
    else
      var reserve := Min(requested, Min(total / 3.0, total - MIN_PRIMARY));
      if reserve <= 0.0 then Whole else Parts(total - reserve, reserve)
  }

  /** The prompt of an unsplit turn leaves room to retire the session. */
  function PrimaryTimeout(total: real): (p: real)
    ensures p >= 0.001
    ensures total >= 0.002 ==> p + Min(CLEANUP_HEADROOM, total / 2.0) == total
  {
    var primary := total - Min(CLEANUP_HEADROOM, total / 2.0);
    if primary < 0.001 then 0.001 else primary
  }

  // ---- The environment ----

  class Session {
    var forceDead: bool

    constructor ()
    {
      forceDead := *;
    }
  }

  datatype Kind = Initial | PlanTurn | Reconciliation | Final

  /** A prompt sent at time `at`, `left` before the turn's deadline, and whether its session is
      marked dead when it is answered; or a session marked dead and retired, if that succeeds. */
  datatype Event =
    | Sent(session: Session, kind: Kind, timeout: real, at: real, left: real, reply: Reply, dead: bool)
    | Poisoned(session: Session, retired: bool)

  /** Calls into the environment that a turn makes between its prompts. */
  datatype Question = Announce | GoalControl | GoalReadable | GoalActive | GoalPausable | GoalPaused

  datatype Call = Asked(question: Question, yes: bool) | Replaced(substitute: Option<Session>)

  datatype Reply = Answered(result: PromptResult) | TimedOut | Failed

  datatype Exit = Returned(result: PromptResult) | Raised

  predicate StoppedByTimeout(r: PromptResult) { Norm(r.stopReason) == "timeout" }

  /** The reply counts as a timeout, by exception or by stop reason. */
  predicate Expired(r: Reply) { r.TimedOut? || (r.Answered? && StoppedByTimeout(r.result)) }

  function Count(log: seq<Event>, kind: Kind): (n: nat)
    ensures n <= |log|
  {
    if log == [] then 0
    else Count(log[..|log| - 1], kind) + (if log[|log| - 1].Sent? && log[|log| - 1].kind == kind then 1 else 0)
  }

  lemma {:induction false} CountConcat(a: seq<Event>, b: seq<Event>, kind: Kind)
    ensures Count(a + b, kind) == Count(a, kind) + Count(b, kind)
  {
    if b == [] {
      assert a + b == a;
    } else {
      CountConcat(a, b[..|b| - 1], kind);
      assert (a + b)[..|a + b| - 1] == a + b[..|b| - 1];
    }
  }

  /** Once a session has been poisoned, no prompt is sent to any session. */
  ghost predicate SilentAfterPoison(log: seq<Event>) {
    forall i, j :: 0 <= i < j < |log| && log[i].Poisoned? ==> !log[j].Sent?
  }

  ghost predicate NoPoison(log: seq<Event>) {
    forall i :: 0 <= i < |log| ==> !log[i].Poisoned?
  }

  lemma SilentConcat(a: seq<Event>, b: seq<Event>)
    requires NoPoison(a) && SilentAfterPoison(b)
    ensures SilentAfterPoison(a + b)
    ensures NoPoison(b) ==> NoPoison(a + b)
  {
  }

  /** Prompt n is answered by answers(n), whatever it asks; everything else the environment does
      is arbitrary, unless it is smooth: then nothing but a prompt takes time, a prompt takes
      no more than its timeout, no callback fails and no session dies by itself. */
  class World {
    const answers: nat -> Reply
    const smooth: bool
    var now: real
    var sent: nat
    var log: seq<Event>
    var calls: seq<Call>

    constructor (answers: nat -> Reply, smooth: bool)
      ensures log == [] && calls == [] && sent == 0 && this.answers == answers && this.smooth == smooth
    {
      this.answers, this.smooth := answers, smooth;
      now, sent, log, calls := *, 0, [], [];
    }

    method Pass()
      modifies this`now
      ensures now >= old(now) && (smooth ==> now == old(now))
    {
      var d: real := *;
      if d > 0.0 && !smooth { now := now + d; }
    }

    /** Sends one prompt; the session may declare itself dead. */
    method Send(session: Session, kind: Kind, timeout: real, deadline: real) returns (reply: Reply)
      modifies this`now, this`sent, this`log, session
      ensures reply == answers(old(sent)) && sent == old(sent) + 1
      ensures log == old(log) + [Sent(session, kind, timeout, old(now), deadline - old(now), reply, session.forceDead)]
      ensures now >= old(now)
      ensures smooth && timeout >= 0.0 ==> now <= old(now) + timeout && session.forceDead == old(session.forceDead)
    {
      var at := now;
      reply := answers(sent);
      sent := sent + 1;
      var d: real := *;
      if d > 0.0 && (smooth ==> d <= timeout) { now := now + d; }
      if !smooth { session.forceDead := *; }
      log := log + [Sent(session, kind, timeout, at, deadline - at, reply, session.forceDead)];
    }

    /** `_poison_and_retire`: dead first, then the retirement callback, which may raise. */
    method PoisonAndRetire(session: Session) returns (retired: bool)
      modifies this`now, this`log, session
      ensures session.forceDead && (smooth ==> retired)
      ensures log == old(log) + [Poisoned(session, retired)] && now >= old(now)
    {
      session.forceDead := true;
      Pass();
      retired := *;
      if smooth { retired := true; }
      log := log + [Poisoned(session, retired)];
    }

    /** A callback of the environment that may succeed or not. */
    method Ask(question: Question) returns (yes: bool)
      modifies this`now, this`calls
      ensures now >= old(now) && (smooth ==> yes && now == old(now))
      ensures calls == old(calls) + [Asked(question, yes)]
    {
      Pass();
      yes := *;
      if smooth { yes := true; }
      calls := calls + [Asked(question, yes)];
    }

    /** `replace_dead_session`: raises, or hands out a session. */
    method Replace(dead: Session) returns (substitute: Option<Session>)
      modifies this`now, this`calls
      ensures now >= old(now) && (smooth ==> substitute.Some? && fresh(substitute.value) && now == old(now))
      ensures substitute.Some? ==> substitute.value == dead || fresh(substitute.value)
      ensures calls == old(calls) + [Replaced(substitute)]
    {
      Pass();
      substitute := None;
      var raises: bool, same: bool := *, *;
      if smooth || !raises {
        if !smooth && same {
          substitute := Some(dead);
        } else {
          var other := new Session();
          substitute := Some(other);
        }
      }
      calls := calls + [Replaced(substitute)];
    }
  }

  // ---- One turn ----

  /** The prompts of one turn: its own, then at most one finalization prompt whose timeout
      fits the reserve and leaves the cleanup headroom; every poisoning comes last. */
  ghost predicate TurnLog(log: seq<Event>, session: Session, kind: Kind, reserve: real) {
    && |log| <= 3 && SilentAfterPoison(log)
    && (log != [] ==> log[0].Sent? && log[0].session == session && log[0].kind == kind)
    && (forall i :: 1 <= i < |log| && log[i].Sent? ==>
          i == 1 && log[i].kind == Final && 0.0 < log[i].timeout == Min(reserve, log[i].left - CLEANUP_HEADROOM))
  }

  /** The answer a turn returns is that of the last prompt it sent. */
  ghost predicate ReturnsLastAnswer(log: seq<Event>, exit: Exit) {
    exit.Returned? ==> exists i :: 0 <= i < |log| && log[i].Sent? && log[i].reply == Answered(exit.result)
                                   && forall j :: i < j < |log| ==> !log[j].Sent?
  }

  function ReserveOf(total: real, requested: real): real {
    var split := SplitTimeout(total, requested);
    if split.Parts? then split.reserve else 0.0
  }

  /** The answers by which nothing of the provider's own can run beside the finalization prompt:
      there is no goal control, no active goal, or the active goal was paused. */
  predicate GoalQuiet(calls: seq<Call>) {
    || calls == [Asked(GoalControl, false)]
    || calls == [Asked(GoalControl, true), Asked(GoalReadable, true), Asked(GoalActive, false)]
    || calls == [Asked(GoalControl, true), Asked(GoalReadable, true), Asked(GoalActive, true), Asked(GoalPausable, true), Asked(GoalPaused, true)]
  }

  /** `_pause_active_goal_before_finalization`: on any failure the session is poisoned. */
  method PauseGoal(w: World, session: Session, deadline: real) returns (ok: bool)
    modifies w, session
    ensures ok ==> w.log == old(w.log) && w.sent == old(w.sent)
    ensures w.smooth && deadline - old(w.now) > CLEANUP_HEADROOM ==> ok && w.now == old(w.now)
    ensures !ok ==> session.forceDead && (exists retired :: w.log == old(w.log) + [Poisoned(session, retired)])
    ensures old(w.calls) <= w.calls && (ok <==> GoalQuiet(w.calls[|old(w.calls)|..]))
    ensures w.now >= old(w.now)
  {
    ghost var before := w.calls;
    var supported := w.Ask(GoalControl);
    if !supported {
      assert w.calls[|before|..] == [Asked(GoalControl, false)];
      return true;
    }
    var budget := deadline - w.now - CLEANUP_HEADROOM;
    if budget > 0.0 {
      var readable := w.Ask(GoalReadable);
      if readable {
        var active := w.Ask(GoalActive);
        if !active {
          assert w.calls[|before|..] == [Asked(GoalControl, true), Asked(GoalReadable, true), Asked(GoalActive, false)];
          return true;
        }
        var pausable := w.Ask(GoalPausable);
        budget := deadline - w.now - CLEANUP_HEADROOM;
        if pausable && budget > 0.0 {
          var paused := w.Ask(GoalPaused);
          assert w.calls[|before|..] ==
                 [Asked(GoalControl, true), Asked(GoalReadable, true), Asked(GoalActive, true), Asked(GoalPausable, true), Asked(GoalPaused, paused)];
          if paused { return true; }
        }
      }
    }
    var _ := w.PoisonAndRetire(session);
    return false;
  }

  /** The timeout of a turn's own prompt, `left` before its deadline. */
  function OwnTimeout(kind: Kind, left: real, requested: real): real {
    var split := SplitTimeout(left, requested);
    if kind != Reconciliation && split.Parts? then split.primary else PrimaryTimeout(left)
  }

  /** Every prompt is sent before the deadline with the timeout due to what is left then; a
      finalization prompt leaves the cleanup headroom. No prompt outlives the deadline by more
      than a millisecond. */
  ghost predicate OnTime(log: seq<Event>, deadline: real, requested: real) {
    forall i :: 0 <= i < |log| && log[i].Sent? ==>
      && log[i].at + log[i].left == deadline && (log[i].timeout <= log[i].left || log[i].timeout == 0.001)
      && (if log[i].kind == Final then log[i].timeout <= log[i].left - CLEANUP_HEADROOM
          else log[i].timeout == OwnTimeout(log[i].kind, log[i].left, requested))
  }

  /** The turn without a reserve: on a timeout the session is poisoned and retired. */
  method RunWhole(w: World, session: Session, kind: Kind, timeout: real, requested: real, deadline: real)
    returns (exit: Exit, entered: bool)
    requires kind != Final && deadline == w.now + timeout && SplitTimeout(timeout, requested).Whole?
    modifies w, session
    ensures old(w.log) <= w.log && old(w.calls) <= w.calls && OnTime(w.log[|old(w.log)|..], deadline, requested)
    ensures TurnLog(w.log[|old(w.log)|..], session, kind, 0.0) && |w.log| > |old(w.log)|
    ensures !entered ==> NoPoison(w.log[|old(w.log)|..]) && (exit.Returned? ==> !StoppedByTimeout(exit.result))
    ensures entered ==> session.forceDead
    ensures entered <==> Expired(w.log[|old(w.log)|].reply)
    ensures forall i :: |old(w.log)| <= i < |w.log| ==> w.log[i].session == session
    ensures Count(w.log[|old(w.log)|..], Final) == 0 && |w.log| <= |old(w.log)| + 2
    ensures ReturnsLastAnswer(w.log[|old(w.log)|..], exit)
    ensures w.log[|old(w.log)|].timeout == PrimaryTimeout(timeout) && w.log[|old(w.log)|].reply == w.answers(old(w.sent))
    ensures !entered ==> (exit.Returned? <==> w.log[|old(w.log)|].reply.Answered?)
  {
    var reply := w.Send(session, kind, PrimaryTimeout(timeout), deadline);
    ghost var first := w.log[|old(w.log)|];
    if Expired(reply) {
      entered := true;
      var _ := w.Ask(Announce);
      var retired := w.PoisonAndRetire(session);
      exit := if reply.Answered? && retired then Returned(reply.result) else Raised;
      assert w.log[|old(w.log)|..] == [first, Poisoned(session, retired)];
      assert [first, Poisoned(session, retired)][..1] == [first];
      assert [first][..0] == [];
      assert Count([first], Final) == 0;
    } else {
      entered := false;
      exit := if reply.Answered? then Returned(reply.result) else Raised;
      assert w.log[|old(w.log)|..] == [first];
      assert [first][..0] == [];
    }
  }

  /** Perhaps one finalization prompt that fits, then the poisoning, all on one session; the
      prompt's answer is returned if there is one and the session could be retired. */
  ghost predicate FinalLog(news: seq<Event>, session: Session, reserve: real, exit: Exit) {
    || (|news| == 1 && news[0].Poisoned? && news[0].session == session && exit.Raised?)
    || (|news| == 2 && news[0].Sent? && news[0].session == session && news[0].kind == Final
        && 0.0 < news[0].timeout == Min(reserve, news[0].left - CLEANUP_HEADROOM)
        && news[1].Poisoned? && news[1].session == session
        && exit == if news[0].reply.Answered? && news[1].retired then Returned(news[0].reply.result) else Raised)
  }

  /** The finalization prompt is sent exactly when no goal can run beside it, unless it is too late. */
  predicate SentWhenQuiet(news: seq<Event>, goal: seq<Call>, late: bool) {
    && (|news| == 2 ==> GoalQuiet(goal))
    && (|news| != 2 ==> !GoalQuiet(goal) || late)
  }

  /** Too late for anything but retiring the session. */
  predicate Late(w: World, deadline: real)
    reads w
  {
    w.now >= deadline - CLEANUP_HEADROOM
  }

  /** Sends the finalization prompt to the chosen session and poisons it on every way out. */
  method Finalize(w: World, session: Session, reserve: real, deadline: real) returns (exit: Exit)
    requires reserve > 0.0
    modifies w, session
    ensures session.forceDead
    ensures old(w.log) <= w.log && FinalLog(w.log[|old(w.log)|..], session, reserve, exit)
    ensures old(w.calls) <= w.calls
    ensures SentWhenQuiet(w.log[|old(w.log)|..], w.calls[|old(w.calls)|..], Late(w, deadline))
    ensures w.smooth && deadline - old(w.now) > CLEANUP_HEADROOM ==>
              |w.log| == |old(w.log)| + 2 && w.log[|old(w.log)|].reply == w.answers(old(w.sent)) && w.log[|old(w.log)| + 1].retired
    ensures |w.log| == |old(w.log)| + 2 ==> w.log[|old(w.log)|].at + w.log[|old(w.log)|].left == deadline
  {
    ghost var before := w.log;
    var paused := PauseGoal(w, session, deadline);
    if !paused {
      assert |w.log| == |before| + 1 && w.log[|before|].Poisoned?;
      return Raised;
    }
    var timeout := Min(reserve, deadline - w.now - CLEANUP_HEADROOM);
    if timeout <= 0.0 {
      var _ := w.PoisonAndRetire(session);
      return Raised;
    }
    var reply := w.Send(session, Final, timeout, deadline);
    var retired := w.PoisonAndRetire(session);
    exit := if reply.Answered? && retired then Returned(reply.result) else Raised;
  }

  /** What happens after the turn's own prompt timed out. A live session gets the finalization
      prompt; a dead one is replaced, and the replacement gets it; without a replacement
      callback nothing further is sent; a failed replacement, or one too late, only retires it. */
  ghost predicate Recovers(news: seq<Event>, calls: seq<Call>, session: Session, last: Session, dead: bool, canReplace: bool,
                           reserve: real, late: bool, exit: Exit) {
    && calls != [] && calls[0].Asked? && calls[0].question == Announce
    && if !dead then last == session && FinalLog(news, last, reserve, exit) && SentWhenQuiet(news, calls[1..], late)
       else if !canReplace then last == session && news == [] && |calls| == 1 && exit.Raised?
       else if |calls| > 1 && calls[1] == Replaced(Some(last)) then FinalLog(news, last, reserve, exit) && SentWhenQuiet(news, calls[2..], late)
       else
         && last == session && |news| == 1 && news[0].Poisoned? && news[0].session == session && exit.Raised?
         && (late || calls[1..] == [Replaced(None)])
  }

  /** The rest of a turn whose own prompt timed out: replace a dead session or give up, then finalize. */
  method AfterTimeout(w: World, session: Session, reserve: real, deadline: real, canReplace: bool)
    returns (exit: Exit, last: Session)
    requires reserve > 0.0
    modifies w, session
    ensures old(w.log) <= w.log && old(w.calls) <= w.calls
    ensures Recovers(w.log[|old(w.log)|..], w.calls[|old(w.calls)|..], session, last, old(session.forceDead), canReplace,
              reserve, Late(w, deadline), exit)
    ensures w.smooth && deadline - old(w.now) > CLEANUP_HEADROOM && (!old(session.forceDead) || canReplace) ==>
              && |w.log| == |old(w.log)| + 2 && w.log[|old(w.log)|].reply == w.answers(old(w.sent)) && w.log[|old(w.log)| + 1].retired
              && (if old(session.forceDead) then fresh(last) else last == session)
    ensures session.forceDead && last.forceDead && (last == session || fresh(last))
    ensures |w.log| == |old(w.log)| + 2 ==> w.log[|old(w.log)|].Sent? && w.log[|old(w.log)|].at + w.log[|old(w.log)|].left == deadline
  {
    hide GoalQuiet;
    ghost var before := w.calls;
    last := session;
    var _ := w.Ask(Announce);
    ghost var asked := w.calls;
    if session.forceDead {
      if !canReplace { return Raised, session; }
      var substitute: Option<Session> := None;
      if deadline - w.now - CLEANUP_HEADROOM > 0.0 { substitute := w.Replace(session); }
      if substitute.None? {
        var _ := w.PoisonAndRetire(session);
        return Raised, session;
      }
      last := substitute.value;
      asked := w.calls;
    }
    exit := Finalize(w, last, reserve, deadline);
    assert w.calls[|before|..] == asked[|before|..] + w.calls[|asked|..];
  }

  /** Nothing of the environment can keep a timed-out turn from its finalization prompt. */
  ghost predicate FinalIsSure(w: World, total: real, requested: real) {
    w.smooth && SplitTimeout(total, requested).Parts? && SplitTimeout(total, requested).reserve > CLEANUP_HEADROOM
  }

  /** `run_prompt_with_finalization`.  `last` is the session used last; once the turn's own
      prompt timed out, it and every session the turn used are marked dead on every way
      out, return or raise alike. */
  method RunWithFinalization(w: World, session: Session, kind: Kind, timeout: real, requested: real, canReplace: bool)
    returns (exit: Exit, entered: bool, last: Session)
    requires kind == Initial || kind == PlanTurn
    modifies w, session
    ensures old(w.log) <= w.log && old(w.calls) <= w.calls
    ensures TurnLog(w.log[|old(w.log)|..], session, kind, ReserveOf(timeout, requested))
    ensures OnTime(w.log[|old(w.log)|..], old(w.now) + timeout, requested)
    ensures ReturnsLastAnswer(w.log[|old(w.log)|..], exit)
    ensures |w.log| > |old(w.log)| ==>
              var split := SplitTimeout(timeout, requested);
              w.log[|old(w.log)|].timeout == if split.Parts? then split.primary else PrimaryTimeout(timeout)
    ensures w.smooth && SplitTimeout(timeout, requested).Parts? ==> |w.log| > |old(w.log)| && w.log[|old(w.log)|].dead == old(session.forceDead)
    ensures entered && SplitTimeout(timeout, requested).Parts? ==>
              |w.log| > |old(w.log)| && Recovers(w.log[|old(w.log)| + 1..], w.calls[|old(w.calls)|..], session, last, w.log[|old(w.log)|].dead, canReplace,
                ReserveOf(timeout, requested), Late(w, old(w.now) + timeout), exit)
    ensures !entered && |w.log| > |old(w.log)| ==> (exit.Returned? <==> w.log[|old(w.log)|].reply.Answered?)
    ensures |w.log| > |old(w.log)| ==> w.log[|old(w.log)|].reply == w.answers(old(w.sent))
    ensures entered && FinalIsSure(w, timeout, requested) && (!old(session.forceDead) || canReplace) ==>
              && |w.log| == |old(w.log)| + 3 && w.log[|old(w.log)| + 1].Sent?
              && w.log[|old(w.log)| + 1].reply == w.answers(old(w.sent) + 1)
              && (exit.Returned? <==> w.answers(old(w.sent) + 1).Answered?)
              && (if old(session.forceDead) then fresh(last) else last == session)
    ensures last == session || fresh(last)
    ensures entered <==> |w.log| > |old(w.log)| && Expired(w.log[|old(w.log)|].reply)
    ensures entered ==> last.forceDead
    ensures entered ==> forall i :: |old(w.log)| <= i < |w.log| ==> w.log[i].session.forceDead
    ensures |w.log| == |old(w.log)| <==> SplitTimeout(timeout, requested).InvalidBudget?
    ensures |w.log| == |old(w.log)| ==> exit.Raised?
    ensures !entered ==> NoPoison(w.log[|old(w.log)|..]) && |w.log| <= |old(w.log)| + 1
    ensures !entered && exit.Returned? ==> !StoppedByTimeout(exit.result)
  {
    last, entered := session, false;
    var deadline := w.now + timeout;
    var split := SplitTimeout(timeout, requested);
    if split.InvalidBudget? {
      assert w.log[|old(w.log)|..] == [];
      return Raised, false, session;
    }
    hide Recovers, OnTime, TurnLog, ReturnsLastAnswer, NoPoison, StoppedByTimeout;
    if split.Whole? {
      exit, entered := RunWhole(w, session, kind, timeout, requested, deadline);
    } else {
      exit, entered, last := RunSplit(w, session, kind, split.primary, split.reserve, requested, deadline, canReplace);
    }
  }

  /** The turn with a reserve. */
  method RunSplit(w: World, session: Session, kind: Kind, primary: real, reserve: real, requested: real, deadline: real, canReplace: bool)
    returns (exit: Exit, entered: bool, last: Session)
    requires (kind == Initial || kind == PlanTurn) && primary > 0.0 && deadline == w.now + primary + reserve
    requires SplitTimeout(primary + reserve, requested) == Parts(primary, reserve)
    modifies w, session
    ensures old(w.log) < w.log && old(w.calls) <= w.calls
    ensures TurnLog(w.log[|old(w.log)|..], session, kind, reserve) && OnTime(w.log[|old(w.log)|..], deadline, requested)
    ensures ReturnsLastAnswer(w.log[|old(w.log)|..], exit)
    ensures w.log[|old(w.log)|].timeout == primary && w.log[|old(w.log)|].reply == w.answers(old(w.sent))
    ensures entered <==> Expired(w.log[|old(w.log)|].reply)
    ensures w.smooth ==> w.log[|old(w.log)|].dead == old(session.forceDead)
    ensures entered ==>
              Recovers(w.log[|old(w.log)| + 1..], w.calls[|old(w.calls)|..], session, last, w.log[|old(w.log)|].dead, canReplace,
                reserve, Late(w, deadline), exit)
    ensures !entered ==> |w.log| == |old(w.log)| + 1 && NoPoison(w.log[|old(w.log)|..])
    ensures !entered ==> (exit.Returned? <==> w.log[|old(w.log)|].reply.Answered?) && (exit.Returned? ==> !StoppedByTimeout(exit.result))
    ensures entered && w.smooth && reserve > CLEANUP_HEADROOM && (!old(session.forceDead) || canReplace) ==>
              && |w.log| == |old(w.log)| + 3 && w.log[|old(w.log)| + 1].Sent?
              && w.log[|old(w.log)| + 1].reply == w.answers(old(w.sent) + 1)
              && (exit.Returned? <==> w.answers(old(w.sent) + 1).Answered?)
              && (if old(session.forceDead) then fresh(last) else last == session)
    ensures last == session || fresh(last)
    ensures entered ==> session.forceDead && last.forceDead
    ensures entered ==> forall i :: |old(w.log)| <= i < |w.log| ==> w.log[i].session.forceDead
  {
    last, entered := session, false;
    var reply := w.Send(session, kind, primary, deadline);
    ghost var first, sofar := w.log[|old(w.log)|], w.log;
    assert w.log[|old(w.log)|..] == [first];
    if !Expired(reply) {
      exit := if reply.Answered? then Returned(reply.result) else Raised;
      return;
    }
    entered := true;
    hide FinalLog, SentWhenQuiet, Recovers, TurnLog, ReturnsLastAnswer, OnTime;
    exit, last := AfterTimeout(w, session, reserve, deadline, canReplace);
    ghost var rest := w.log[|sofar|..];
    TurnOfTwo(first, rest, w.calls[|old(w.calls)|..], session, last, first.dead, canReplace, reserve, requested, deadline, Late(w, deadline), exit, kind);
    assert w.log[|old(w.log)|..] == [first] + rest;
    forall i | |old(w.log)| <= i < |w.log| ensures w.log[i].session.forceDead {
      if i >= |sofar| { assert w.log[i] == rest[i - |sofar|]; }
    }
  }

  /** The log of a turn that recovers from its timeout. */
  lemma TurnOfTwo(first: Event, rest: seq<Event>, calls: seq<Call>, session: Session, last: Session, dead: bool, canReplace: bool,
                  reserve: real, requested: real, deadline: real, late: bool, exit: Exit, kind: Kind)
    requires first.Sent? && first.session == session && first.kind == kind
    requires first.at + first.left == deadline && first.timeout <= first.left
    requires kind != Final && first.timeout == OwnTimeout(kind, first.left, requested)
    requires |rest| == 2 ==> rest[0].Sent? && rest[0].at + rest[0].left == deadline
    requires Recovers(rest, calls, session, last, dead, canReplace, reserve, late, exit)
    ensures TurnLog([first] + rest, session, kind, reserve) && ReturnsLastAnswer([first] + rest, exit) && OnTime([first] + rest, deadline, requested)
    ensures |rest| == 2 ==> rest[1].Poisoned? && exit == if rest[0].reply.Answered? && rest[1].retired then Returned(rest[0].reply.result) else Raised
    ensures forall i :: 0 <= i < |rest| ==> rest[i].session == last || rest[i].session == session
  {
    hide GoalQuiet;
    var log := [first] + rest;
    if exit.Returned? { assert log[1] == rest[0] && log[2] == rest[1]; }
  }
}
