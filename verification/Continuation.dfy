/** src/acp/continuation.py: a prompt run with at most one plan continuation, one child
    reconciliation and one finalization prompt. */
module Continuation {
  import opened Wrappers
  import opened Strings
  import opened ChildModel
  import opened Collaboration
  import opened Outcome
  import opened Finalization
  import opened TurnAnswers
  import opened SlotFold

  const MAX_PLAN := 1
  const MAX_RECONCILIATIONS := 1

  function MergePromptResults(previous: PromptResult, current: PromptResult): PromptResult {
    current.(
      toolCalls := MergeTurns(previous.toolCalls, current.toolCalls),
      plan := if current.plan.Some? then current.plan else previous.plan)
  }

  datatype Next = Stop | PlanNext | ReconcileNext

  /** `_continuation_kind`; `asks` recognizes an answer that waits for the user. */
  function NextKind(r: PromptResult, a: Assessment, entered: bool, asks: string -> bool): Next {
    if entered || a.outcome != INCOMPLETE || a.stopReason != "end_turn" || asks(r.text) then Stop
    else if r.goal.None? && a.pendingPlan > 0 && a.incompleteTools == 0 then PlanNext
    else if (r.goal.None? || Norm(r.goal.value) == "completed") && a.pendingPlan == 0 && a.incompleteTools > 0
            && a.incompleteOuter == 0 && a.incompleteTools == a.unresolvedChildren then ReconcileNext
    else Stop
  }

  /** The turn ended by itself, without finalization and without a question to the user. */
  predicate MayContinue(r: PromptResult, entered: bool, asks: string -> bool) {
    !entered && Norm(r.stopReason) == "end_turn" && !asks(r.text)
  }

  ghost predicate PlanDone(r: PromptResult) {
    forall e :: e in PlanEntries(r) ==> Norm(e) == "completed"
  }

  ghost predicate OuterDone(tools: seq<ToolCall>) {
    forall i :: 0 <= i < |tools| ==> OuterTerminal(tools[i])
  }

  /** A plan continuation is sent exactly for an unfinished plan with settled tools and no
      goal, and a reconciliation exactly when child evidence is all that stands against
      completion. */
  lemma NextKindMeaning(r: PromptResult, entered: bool, asks: string -> bool)
    ensures NextKind(r, Classify(r), entered, asks) == PlanNext <==>
              MayContinue(r, entered, asks) && r.goal.None? && EvidenceSettled(r.toolCalls) && !PlanDone(r)
    ensures NextKind(r, Classify(r), entered, asks) == ReconcileNext <==>
              && MayContinue(r, entered, asks) && (r.goal.Some? ==> Norm(r.goal.value) == "completed")
              && PlanDone(r) && OuterDone(r.toolCalls) && !EvidenceSettled(r.toolCalls)
  {
    hide IncompleteOuter, UnresolvedIndexes, EvidenceSettled, OuterDone, Norm, PlanEntries;
    var tools := r.toolCalls;
    IncompleteToolsMeaning(tools);
    OuterDoneMeaning(tools);
    assert |IncompleteTools(tools)| == 0 <==> IncompleteTools(tools) == {};
    if IncompleteOuter(tools) == {} { assert IncompleteTools(tools) == UnresolvedIndexes(tools); }
  }

  lemma OuterDoneMeaning(tools: seq<ToolCall>)
    ensures |IncompleteOuter(tools)| == 0 <==> OuterDone(tools)
    ensures |IncompleteOuter(tools)| == 0 <==> IncompleteOuter(tools) == {}
  {
    hide OuterTerminal;
    var none := IncompleteOuter(tools);
    if none == {} {
      forall i: nat | i < |tools| ensures OuterTerminal(tools[i]) { assert i !in none; }
    }
  }

  datatype Final = Finished(result: PromptResult, assessment: Assessment, continuations: nat, entered: bool) | Aborted

  /** How often each kind of prompt was sent, and nothing sent after a poisoning. */
  ghost predicate Bounded(log: seq<Event>, plans: nat, reconciliations: nat, finals: nat) {
    && Count(log, Initial) <= 1 && Count(log, PlanTurn) == plans && Count(log, Reconciliation) == reconciliations
    && Count(log, Kind.Final) <= finals
    && SilentAfterPoison(log)
  }

  lemma {:induction false} OneEvent(e: Event, k: Kind)
    ensures Count([e], k) == if e.Sent? && e.kind == k then 1 else 0
  {
    assert [e][..0] == [];
    assert Count([e][..0], k) == 0;
  }

  lemma TurnCounts(log: seq<Event>, session: Session, kind: Kind, reserve: real, k: Kind)
    requires TurnLog(log, session, kind, reserve) && kind != Kind.Final
    ensures k == kind ==> Count(log, k) == if log == [] then 0 else 1
    ensures k != kind ==> Count(log, k) <= if k == Kind.Final && |log| > 1 then 1 else 0
  {
    if |log| >= 1 {
      OneEvent(log[0], k);
      var t := log[1..];
      assert log == [log[0]] + t;
      CountConcat([log[0]], t, k);
      if |log| == 1 {
        assert t == [];
      } else if |log| == 2 {
        assert t == [log[1]];
        OneEvent(log[1], k);
      } else {
        assert t == [log[1]] + [log[2]];
        CountConcat([log[1]], [log[2]], k);
        OneEvent(log[1], k);
        OneEvent(log[2], k);
      }
    }
  }

  /** One more turn on a run that poisoned nothing so far. */
  lemma BoundedConcat(a: seq<Event>, b: seq<Event>, session: Session, kind: Kind, reserve: real, plans: nat, reconciliations: nat)
    requires Bounded(a, plans, reconciliations, 0) && NoPoison(a)
    requires TurnLog(b, session, kind, reserve) && (kind == PlanTurn || kind == Reconciliation || (kind == Initial && a == []))
    ensures Bounded(a + b,
              plans + (if kind == PlanTurn && b != [] then 1 else 0),
              reconciliations + (if kind == Reconciliation && b != [] then 1 else 0),
              if |b| <= 1 then 0 else 1)
    ensures NoPoison(b) ==> NoPoison(a + b)
  {
    hide TurnLog, SilentAfterPoison, NoPoison;
    CountConcat(a, b, Initial);
    CountConcat(a, b, PlanTurn);
    CountConcat(a, b, Reconciliation);
    CountConcat(a, b, Kind.Final);
    TurnCounts(b, session, kind, reserve, Initial);
    TurnCounts(b, session, kind, reserve, PlanTurn);
    TurnCounts(b, session, kind, reserve, Reconciliation);
    TurnCounts(b, session, kind, reserve, Kind.Final);
    TurnIsSilent(b, session, kind, reserve);
    SilentConcat(a, b);
  }

  lemma TurnIsSilent(b: seq<Event>, session: Session, kind: Kind, reserve: real)
    requires TurnLog(b, session, kind, reserve)
    ensures SilentAfterPoison(b)
  {
  }

  lemma OnTimeConcat(a: seq<Event>, b: seq<Event>, deadline: real, requested: real)
    requires OnTime(a, deadline, requested) && OnTime(b, deadline, requested)
    ensures OnTime(a + b, deadline, requested)
  {
  }

  /** The number of prompts sent, of whatever kind. */
  function Prompts(log: seq<Event>): nat {
    if log == [] then 0 else Prompts(log[..|log| - 1]) + (if log[|log| - 1].Sent? then 1 else 0)
  }

  lemma {:induction false} PromptsByKind(log: seq<Event>)
    ensures Prompts(log) == Count(log, Initial) + Count(log, PlanTurn) + Count(log, Reconciliation) + Count(log, Kind.Final)
  {
    if log != [] { PromptsByKind(log[..|log| - 1]); }
  }

  /** Recovered rollout evidence, if any, is folded in; nothing else of the result changes. */
  function Enriched(r: PromptResult, evidence: Option<ToolCall>): PromptResult {
    if evidence.None? then r else r.(toolCalls := MergeSequence(r.toolCalls + [evidence.value], None))
  }

  lemma GoingOnMeansNoTimeout(r: PromptResult, entered: bool, asks: string -> bool)
    requires NextKind(r, Classify(r), entered, asks) != Stop
    ensures !entered && !StoppedByTimeout(r)
  {
  }

  lemma MergedKeepsMalformed(previous: PromptResult, current: PromptResult, evidence: Option<ToolCall>)
    requires SomeMalformed(previous.toolCalls) || SomeMalformed(current.toolCalls)
    ensures SomeMalformed(Enriched(MergePromptResults(previous, current), evidence).toolCalls)
  {
    hide Malformed, SomeMalformed;
    SomeMalformedConcat(previous.toolCalls, current.toolCalls);
    MergeSequenceKeepsMalformed(previous.toolCalls + current.toolCalls, Some(|previous.toolCalls|));
    if evidence.Some? {
      var m := MergePromptResults(previous, current).toolCalls;
      SomeMalformedConcat(m, [evidence.value]);
      MergeSequenceKeepsMalformed(m + [evidence.value], None);
    }
  }

  lemma MalformedResult(r: PromptResult)
    requires SomeMalformed(r.toolCalls)
    ensures Classify(r).outcome != COMPLETED
  {
    hide Malformed, InvalidEvidence, Judge;
    var i :| 0 <= i < |r.toolCalls| && Malformed(r.toolCalls[i]);
    MalformedIsInvalid(r.toolCalls[i]);
    CompletedExactlyWhen(r);
  }

  // ---- Follow-up turns ----

  datatype Followed = Merged(result: PromptResult, turn: PromptResult, evidence: Option<ToolCall>, entered: bool) | Broken

  function PromptKind(next: Next): Kind { if next == PlanNext then PlanTurn else Reconciliation }

  /** What every follow-up guarantees: the bounds of one turn, and a poisoning or a second
      prompt only together with finalization or a timed-out result. */
  ghost predicate FollowUpDone(news: seq<Event>, session: Session, next: Next, budget: real, deadline: real, reserve: real, previous: PromptResult, f: Followed) {
    && TurnLog(news, session, PromptKind(next), ReserveOf(budget, reserve)) && OnTime(news, deadline, reserve)
    && (f.Merged? ==> !FinalAt(news, 0) && Answers(news) == [f.turn])
    && (f.Merged? ==> news != [] && f.result == Enriched(MergePromptResults(previous, f.turn), f.evidence))
    && (f.Merged? && !f.entered && !StoppedByTimeout(f.result) ==> |news| == 1 && NoPoison(news))
    && (f.Merged? && (SomeMalformed(previous.toolCalls) || SomeMalformed(f.turn.toolCalls)) ==> SomeMalformed(f.result.toolCalls))
  }

  /** The first prompt of the turn times out, and its finalization is sure and answered. */
  ghost predicate EndsInFinal(w: World, total: real, requested: real, stuck: bool, sent: nat) {
    FinalIsSure(w, total, requested) && !stuck && Expired(w.answers(sent)) && w.answers(sent + 1).Answered?
  }

  predicate AsksFirst(log: seq<Event>, reply: Reply) {
    |log| > 0 && log[0].Sent? && log[0].reply == reply
  }

  /** `run_turn`: one turn with its finalization; what it returns is its only answer that counts. */
  method RunTurn(w: World, session: Session, kind: Kind, timeout: real, reserve: real, canReplace: bool)
    returns (exit: Exit, entered: bool)
    requires kind == Initial || kind == PlanTurn
    modifies w, session
    ensures old(w.log) <= w.log
    ensures TurnLog(w.log[|old(w.log)|..], session, kind, ReserveOf(timeout, reserve))
    ensures OnTime(w.log[|old(w.log)|..], old(w.now) + timeout, reserve)
    ensures exit.Returned? ==>
              w.log[|old(w.log)|..] != [] && !FinalAt(w.log[|old(w.log)|..], 0) && Answers(w.log[|old(w.log)|..]) == [exit.result]
    ensures exit.Returned? && !entered ==>
              |w.log[|old(w.log)|..]| == 1 && NoPoison(w.log[|old(w.log)|..]) && !StoppedByTimeout(exit.result)
    ensures EndsInFinal(w, timeout, reserve, old(session.forceDead) && !canReplace, old(w.sent)) ==>
              entered && exit.Returned? && w.answers(old(w.sent) + 1) == Answered(exit.result) && AsksFirst(w.log[|old(w.log)|..], w.answers(old(w.sent)))
  {
    hide Answers, StoppedByTimeout;
    var last: Session;
    exit, entered, last := RunWithFinalization(w, session, kind, timeout, reserve, canReplace);
    ghost var news := w.log[|old(w.log)|..];
    if exit.Returned? { OneAnswer(news, session, kind, ReserveOf(timeout, reserve), exit.result); }
  }

  method PlanFollowUp(w: World, session: Session, previous: PromptResult, budget: real, reserve: real, canReplace: bool)
    returns (f: Followed)
    modifies w, session
    ensures old(w.log) <= w.log
    ensures FollowUpDone(w.log[|old(w.log)|..], session, PlanNext, budget, old(w.now) + budget, reserve, previous, f)
  {
    hide SomeMalformed, TurnLog, StoppedByTimeout, MergeTurns, Answers, FinalAt, NoPoison, EndsInFinal;
    var exit, entered := RunTurn(w, session, PlanTurn, budget, reserve, canReplace);
    if exit.Raised? { return Broken; }
    f := Merged(MergePromptResults(previous, exit.result), exit.result, None, entered);
    if SomeMalformed(previous.toolCalls) || SomeMalformed(exit.result.toolCalls) {
      MergedKeepsMalformed(previous, exit.result, None);
    }
  }

  /** The reconciliation turn: one prompt and no finalization; a timeout poisons the session. */
  method ReconcileFollowUp(w: World, session: Session, previous: PromptResult, budget: real, deadline: real, reserve: real)
    returns (f: Followed)
    requires deadline == w.now + budget
    modifies w, session
    ensures old(w.log) <= w.log
    ensures FollowUpDone(w.log[|old(w.log)|..], session, ReconcileNext, budget, deadline, reserve, previous, f)
    ensures |w.log| > |old(w.log)| && (Expired(w.log[|old(w.log)|].reply) ==> session.forceDead)
  {
    hide SomeMalformed, MergeTurns, MergeSequence;
    var reply := w.Send(session, Reconciliation, PrimaryTimeout(budget), deadline);
    ghost var first := w.log[|old(w.log)|];
    var retired := true;
    if Expired(reply) {
      retired := w.PoisonAndRetire(session);
      assert w.log[|old(w.log)|..] == [first, Poisoned(session, retired)];
    } else {
      assert w.log[|old(w.log)|..] == [first];
    }
    if !reply.Answered? || !retired { return Broken; }
    assert w.log[|old(w.log)|..][0].reply == Answered(reply.result);
    OneAnswer(w.log[|old(w.log)|..], session, Reconciliation, ReserveOf(budget, reserve), reply.result);
    var evidence: Option<ToolCall> := *;
    f := Merged(Enriched(MergePromptResults(previous, reply.result), evidence), reply.result, evidence, false);
    if SomeMalformed(previous.toolCalls) || SomeMalformed(reply.result.toolCalls) {
      MergedKeepsMalformed(previous, reply.result, evidence);
    }
  }

  /** The limits of a whole run: at most one prompt of each kind, so at most four, and none
      after a poisoning. */
  ghost predicate WithinLimits(log: seq<Event>) {
    && Count(log, Initial) <= 1 && Count(log, PlanTurn) <= MAX_PLAN && Count(log, Reconciliation) <= MAX_RECONCILIATIONS
    && Count(log, Kind.Final) <= 1 && Prompts(log) <= 4 && SilentAfterPoison(log)
  }

  lemma BoundedGives(log: seq<Event>, plans: nat, reconciliations: nat, finals: nat)
    requires Bounded(log, plans, reconciliations, finals)
    requires plans <= MAX_PLAN && reconciliations <= MAX_RECONCILIATIONS && finals <= 1
    ensures WithinLimits(log) && Count(log, PlanTurn) == plans && Count(log, Reconciliation) == reconciliations
    ensures Bounded(log, plans, reconciliations, 1)
  {
    PromptsByKind(log);
  }

  function PlansAfter(kind: Next, plans: nat): nat { if kind == PlanNext then plans + 1 else plans }

  function ReconciliationsAfter(kind: Next, reconciliations: nat): nat {
    if kind == PlanNext then reconciliations else reconciliations + 1
  }

  method FollowUp(w: World, session: Session, kind: Next, previous: PromptResult, budget: real, deadline: real,
                  reserve: real, canReplace: bool, ghost start: nat, ghost plans: nat, ghost reconciliations: nat)
    returns (f: Followed)
    requires kind != Stop && start <= |w.log| && deadline == w.now + budget
    requires Bounded(w.log[start..], plans, reconciliations, 0) && NoPoison(w.log[start..])
    requires PlansAfter(kind, plans) <= MAX_PLAN && ReconciliationsAfter(kind, reconciliations) <= MAX_RECONCILIATIONS
    modifies w, session
    ensures old(w.log) <= w.log
    ensures WithinLimits(w.log[start..]) && OnTime(w.log[|old(w.log)|..], deadline, reserve)
    ensures f.Merged? ==> Bounded(w.log[start..], PlansAfter(kind, plans), ReconciliationsAfter(kind, reconciliations), 1)
    ensures f.Merged? && !f.entered && !StoppedByTimeout(f.result) ==>
              && NoPoison(w.log[start..])
              && Bounded(w.log[start..], PlansAfter(kind, plans), ReconciliationsAfter(kind, reconciliations), 0)
    ensures f.Merged? ==> f.result == Enriched(MergePromptResults(previous, f.turn), f.evidence)
    ensures f.Merged? ==> !FinalAt(w.log[|old(w.log)|..], 0) && Answers(w.log[|old(w.log)|..]) == [f.turn]
    ensures f.Merged? && (SomeMalformed(previous.toolCalls) || SomeMalformed(f.turn.toolCalls)) ==> SomeMalformed(f.result.toolCalls)
  {
    hide TurnLog, StoppedByTimeout, SomeMalformed, NoPoison, Bounded, WithinLimits, Enriched, MergePromptResults, Answers, OnTime;
    ghost var before := w.log;
    if kind == PlanNext {
      f := PlanFollowUp(w, session, previous, budget, reserve, canReplace);
    } else {
      f := ReconcileFollowUp(w, session, previous, budget, deadline, reserve);
    }
    ghost var news := w.log[|before|..];
    assert w.log[start..] == before[start..] + news;
    BoundedConcat(before[start..], news, session, PromptKind(kind), ReserveOf(budget, reserve), plans, reconciliations);
    BoundedGives(w.log[start..],
      plans + (if PromptKind(kind) == PlanTurn && news != [] then 1 else 0),
      reconciliations + (if PromptKind(kind) == Reconciliation && news != [] then 1 else 0),
      if |news| <= 1 then 0 else 1);
  }

  /** The result a run has after its turns: each later turn merged onto what was known, and the
      rollout evidence recovered after it, if any, folded in. */
  function Carried(turns: seq<PromptResult>, evidence: seq<Option<ToolCall>>): PromptResult
    requires |turns| == |evidence| + 1
  {
    if evidence == [] then turns[0]
    else
      var n := |evidence| - 1;
      Enriched(MergePromptResults(Carried(turns[..n + 1], evidence[..n]), turns[n + 1]), evidence[n])
  }

  lemma CarriedExtends(turns: seq<PromptResult>, evidence: seq<Option<ToolCall>>, turn: PromptResult, e: Option<ToolCall>)
    requires |turns| == |evidence| + 1
    ensures Carried(turns + [turn], evidence + [e]) == Enriched(MergePromptResults(Carried(turns, evidence), turn), e)
  {
    hide Enriched, MergePromptResults;
    assert (turns + [turn])[..|turns|] == turns && (evidence + [e])[..|evidence|] == evidence;
  }

  /** The last turn that reports a plan decides the plan. */
  ghost predicate PlanIsLast(plan: Option<seq<string>>, turns: seq<PromptResult>) {
    || (plan == None && forall i :: 0 <= i < |turns| ==> turns[i].plan.None?)
    || (exists i :: 0 <= i < |turns| && turns[i].plan.Some? && plan == turns[i].plan && forall j :: i < j < |turns| ==> turns[j].plan.None?)
  }

  lemma PlanExtends(plan: Option<seq<string>>, turns: seq<PromptResult>, turn: PromptResult)
    requires PlanIsLast(plan, turns)
    ensures PlanIsLast(if turn.plan.Some? then turn.plan else plan, turns + [turn])
  {
    var all := turns + [turn];
    if turn.plan.Some? {
      assert all[|turns|].plan == turn.plan;
    } else if i :| 0 <= i < |turns| && turns[i].plan.Some? && plan == turns[i].plan && forall j :: i < j < |turns| ==> turns[j].plan.None? {
      assert all[i].plan == plan;
    }
  }

  /** Stop reason, text and goal of a run are those of its last turn; its plan is that of the
      last turn that reports one. */
  lemma {:induction false} LastTurnDecides(turns: seq<PromptResult>, evidence: seq<Option<ToolCall>>)
    requires |turns| == |evidence| + 1
    ensures var r, last := Carried(turns, evidence), turns[|turns| - 1];
            && r.stopReason == last.stopReason && r.text == last.text && r.goal == last.goal
            && PlanIsLast(r.plan, turns)
    decreases |evidence|
  {
    hide MergeTurns, MergeSequence;
    var n := |evidence|;
    if n == 0 {
      assert Carried(turns, evidence) == turns[0];
    } else {
      LastTurnDecides(turns[..n], evidence[..n - 1]);
      var before := Carried(turns[..n], evidence[..n - 1]);
      PlanExtends(before.plan, turns[..n], turns[n]);
      assert turns[..n] + [turns[n]] == turns;
    }
  }

  /** merged holds one call per slot of calls, slots in the order of their first snapshot, each
      the in-order merge of the snapshots placed there. */
  ghost predicate Folds(merged: seq<ToolCall>, calls: seq<ToolCall>, boundary: Option<nat>) {
    var keys := KeysInOrder(calls, boundary);
    && |merged| == |keys|
    && forall j :: 0 <= j < |keys| ==>
         var members := Members(calls, boundary, keys[j]);
         members != [] && merged[j] == MergeAll(members)
  }

  /** One follow-up: its calls are folded behind a boundary onto those known, and recovered
      evidence, if any, is folded in as one more call. */
  ghost predicate FollowsUp(before: seq<ToolCall>, turn: seq<ToolCall>, e: Option<ToolCall>, after: seq<ToolCall>) {
    exists mid: seq<ToolCall> ::
      && Folds(mid, before + turn, Some(|before|))
      && if e.None? then after == mid else Folds(after, mid + [e.value], None)
  }

  lemma MergeFolds(calls: seq<ToolCall>, boundary: Option<nat>)
    ensures Folds(MergeSequence(calls, boundary), calls, boundary)
  {
    hide MergeSequence, KeysInOrder, Members, MergeAll;
    SequenceMeaning(calls, boundary);
  }

  /** The tool calls of a run: its first turn's, followed up once per later turn. */
  lemma {:induction false} ToolCallsFold(turns: seq<PromptResult>, evidence: seq<Option<ToolCall>>) returns (calls: seq<seq<ToolCall>>)
    requires |turns| == |evidence| + 1
    ensures |calls| == |turns| && calls[0] == turns[0].toolCalls && calls[|evidence|] == Carried(turns, evidence).toolCalls
    ensures forall i :: 0 <= i < |evidence| ==> FollowsUp(calls[i], turns[i + 1].toolCalls, evidence[i], calls[i + 1])
    decreases |evidence|
  {
    hide MergeSequence, Folds;
    var n := |evidence|;
    if n == 0 {
      calls := [turns[0].toolCalls];
      assert Carried(turns, evidence) == turns[0];
    } else {
      var shorter := ToolCallsFold(turns[..n], evidence[..n - 1]);
      var before := Carried(turns[..n], evidence[..n - 1]).toolCalls;
      var mid := MergeSequence(before + turns[n].toolCalls, Some(|before|));
      MergeFolds(before + turns[n].toolCalls, Some(|before|));
      if evidence[n - 1].Some? { MergeFolds(mid + [evidence[n - 1].value], None); }
      var after := Carried(turns, evidence).toolCalls;
      assert FollowsUp(before, turns[n].toolCalls, evidence[n - 1], after);
      calls := shorter + [after];
    }
  }

  function CountNext(kinds: seq<Next>, kind: Next): nat {
    if kinds == [] then 0 else CountNext(kinds[..|kinds| - 1], kind) + (if kinds[|kinds| - 1] == kind then 1 else 0)
  }

  /** Every follow-up was of the kind the result before it asked for. */
  ghost predicate Justified(kinds: seq<Next>, turns: seq<PromptResult>, evidence: seq<Option<ToolCall>>, asks: string -> bool)
    requires |turns| == |evidence| + 1 && |kinds| == |evidence|
  {
    forall i :: 0 <= i < |kinds| ==>
      var before := Carried(turns[..i + 1], evidence[..i]);
      kinds[i] != Stop && kinds[i] == NextKind(before, Classify(before), false, asks)
  }

  lemma JustifiedExtends(kinds: seq<Next>, turns: seq<PromptResult>, evidence: seq<Option<ToolCall>>, asks: string -> bool,
                         kind: Next, turn: PromptResult, e: Option<ToolCall>)
    requires |turns| == |evidence| + 1 && |kinds| == |evidence| && Justified(kinds, turns, evidence, asks)
    requires kind != Stop && kind == NextKind(Carried(turns, evidence), Classify(Carried(turns, evidence)), false, asks)
    ensures Justified(kinds + [kind], turns + [turn], evidence + [e], asks)
  {
    hide NextKind, Carried, Classify;
    var n := |evidence|;
    forall i | 0 <= i <= n
      ensures var before := Carried((turns + [turn])[..i + 1], (evidence + [e])[..i]);
              (kinds + [kind])[i] != Stop && (kinds + [kind])[i] == NextKind(before, Classify(before), false, asks)
    {
      assert (turns + [turn])[..i + 1] == turns[..i + 1] && (evidence + [e])[..i] == evidence[..i];
      if i == n { assert turns[..i + 1] == turns && evidence[..i] == evidence; }
    }
  }

  lemma CountNextExtends(kinds: seq<Next>, kind: Next)
    requires kind != Stop
    ensures CountNext(kinds + [kind], PlanNext) == PlansAfter(kind, CountNext(kinds, PlanNext))
    ensures CountNext(kinds + [kind], ReconcileNext) == ReconciliationsAfter(kind, CountNext(kinds, ReconcileNext))
  {
    assert (kinds + [kind])[..|kinds|] == kinds;
  }

  /** The turns so far, the evidence recovered after each follow-up, and their kinds explain the result. */
  ghost predicate Explains(turns: seq<PromptResult>, evidence: seq<Option<ToolCall>>, kinds: seq<Next>, asks: string -> bool,
                           result: PromptResult, plans: nat, reconciliations: nat) {
    && |turns| == |evidence| + 1 && |kinds| == |evidence| == plans + reconciliations
    && result == Carried(turns, evidence) && Justified(kinds, turns, evidence, asks)
    && plans == CountNext(kinds, PlanNext) && reconciliations == CountNext(kinds, ReconcileNext)
  }

  lemma ExplainsExtends(turns: seq<PromptResult>, evidence: seq<Option<ToolCall>>, kinds: seq<Next>, asks: string -> bool,
                        result: PromptResult, plans: nat, reconciliations: nat, kind: Next, turn: PromptResult, e: Option<ToolCall>)
    requires Explains(turns, evidence, kinds, asks, result, plans, reconciliations)
    requires kind != Stop && kind == NextKind(result, Classify(result), false, asks)
    ensures Explains(turns + [turn], evidence + [e], kinds + [kind], asks, Enriched(MergePromptResults(result, turn), e),
              PlansAfter(kind, plans), ReconciliationsAfter(kind, reconciliations))
  {
    hide NextKind, Carried, Classify, Enriched, MergePromptResults, Justified, CountNext;
    CarriedExtends(turns, evidence, turn, e);
    JustifiedExtends(kinds, turns, evidence, asks, kind, turn, e);
    CountNextExtends(kinds, kind);
  }

  lemma ExplainsCounts(turns: seq<PromptResult>, evidence: seq<Option<ToolCall>>, kinds: seq<Next>, asks: string -> bool,
                       result: PromptResult, plans: nat, reconciliations: nat)
    requires Explains(turns, evidence, kinds, asks, result, plans, reconciliations)
    ensures |kinds| == plans + reconciliations && plans == CountNext(kinds, PlanNext) && reconciliations == CountNext(kinds, ReconcileNext)
  {
  }

  lemma FirstExplains(r: PromptResult, asks: string -> bool)
    ensures Explains([r], [], [], asks, r, 0, 0)
  {
  }

  /** The log so far: its answers are the turns, and no prompt outlives the deadline. */
  ghost predicate LogFits(log: seq<Event>, turns: seq<PromptResult>, deadline: real, requested: real) {
    turns == Answers(log) && OnTime(log, deadline, requested)
  }

  lemma LogFitsMore(a: seq<Event>, b: seq<Event>, turns: seq<PromptResult>, turn: PromptResult, deadline: real, requested: real)
    requires LogFits(a, turns, deadline, requested) && OnTime(b, deadline, requested) && !FinalAt(b, 0) && Answers(b) == [turn]
    ensures LogFits(a + b, turns + [turn], deadline, requested)
  {
    hide Answers, OnTime, FinalAt;
    AnswersConcat(a, b);
    OnTimeConcat(a, b, deadline, requested);
  }

  /** Nothing more to ask for, or no allowance or time left to ask for it. */
  ghost predicate RightlyStopped(next: Next, kinds: seq<Next>, late: bool) {
    || next == Stop || late
    || (next == PlanNext && CountNext(kinds, PlanNext) == MAX_PLAN)
    || (next == ReconcileNext && CountNext(kinds, ReconcileNext) == MAX_RECONCILIATIONS)
  }

  /** `run_prompt_with_continuation`.  Every run ends; it sends at most four prompts, of each
      kind at most one; after poisoning a session it sends nothing more; every follow-up is
      the one the evidence so far asks for, and it stops only when none is asked for, allowed
      or in time; and if any turn returned malformed child evidence the run is not assessed
      as COMPLETED. */
  method RunWithContinuation(w: World, session: Session, timeout: real, reserve: real, canReplace: bool, asks: string -> bool)
    returns (final: Final, ghost turns: seq<PromptResult>, ghost evidence: seq<Option<ToolCall>>, ghost kinds: seq<Next>)
    modifies w, session
    ensures old(w.log) <= w.log
    ensures var news := w.log[|old(w.log)|..];
            && WithinLimits(news) && OnTime(news, old(w.now) + timeout, reserve)
            && (final.Finished? ==>
                  && Count(news, PlanTurn) == CountNext(kinds, PlanNext) && Count(news, Reconciliation) == CountNext(kinds, ReconcileNext)
                  && turns == Answers(news))
            && (final.Finished? && MalformedAnswer(news) ==> final.assessment.outcome != COMPLETED)
    ensures final.Finished? ==>
              Explains(turns, evidence, kinds, asks, final.result, CountNext(kinds, PlanNext), CountNext(kinds, ReconcileNext))
              && final.continuations == |kinds|
    ensures final.Finished? ==>
              RightlyStopped(NextKind(final.result, final.assessment, final.entered, asks), kinds, w.now >= old(w.now) + timeout)
    ensures final.Finished? ==> final.assessment == Classify(final.result)
    ensures EndsInFinal(w, timeout, reserve, old(session.forceDead) && !canReplace, old(w.sent)) ==>
              && final.Finished? && w.answers(old(w.sent) + 1) == Answered(final.result)
              && AsksFirst(w.log[|old(w.log)|..], w.answers(old(w.sent)))
  {
    hide Classify, NextKind, StoppedByTimeout, SomeMalformed, AnyMalformed, NoPoison, Count, Bounded, WithinLimits, Enriched, MergePromptResults, Explains, CountNext, Answers, FinalAt, MalformedAnswer, EndsInFinal, OnTime;
    ghost var start := |w.log|;
    var deadline := w.now + timeout;
    ghost var sure := EndsInFinal(w, timeout, reserve, session.forceDead && !canReplace, w.sent);
    ghost var asked, answer := w.answers(w.sent), w.answers(w.sent + 1);
    var exit, entered := FirstTurn(w, session, timeout, reserve, canReplace);
    BoundedGives(w.log[start..], 0, 0, 1);
    if exit.Raised? { return Aborted, [], [], []; }
    var result := exit.result;
    turns, evidence, kinds := [result], [], [];
    OnlyTurn(result);
    FirstExplains(result, asks);
    var assessment := Classify(result);
    var planned: nat, reconciled: nat := 0, 0;
    var kind := NextKind(result, assessment, entered, asks);
    if kind != Stop { GoingOnMeansNoTimeout(result, entered, asks); }
    while kind != Stop
      invariant planned <= MAX_PLAN && reconciled <= MAX_RECONCILIATIONS
      invariant old(w.log) <= w.log
      invariant Bounded(w.log[start..], planned, reconciled, 1)
      invariant kind != Stop ==> NoPoison(w.log[start..]) && Bounded(w.log[start..], planned, reconciled, 0)
      invariant assessment == Classify(result)
      invariant Explains(turns, evidence, kinds, asks, result, planned, reconciled)
      invariant kind == NextKind(result, assessment, entered, asks) && (kind != Stop ==> !entered)
      invariant LogFits(w.log[start..], turns, deadline, reserve)
      invariant sure ==> kind == Stop && answer == Answered(result) && AsksFirst(w.log[start..], asked)
      invariant AnyMalformed(turns) ==> SomeMalformed(result.toolCalls)
      decreases 2 - planned - reconciled, kind != Stop
    {
      if (kind == PlanNext && planned >= MAX_PLAN) || (kind == ReconcileNext && reconciled >= MAX_RECONCILIATIONS) { break; }
      var _ := w.Ask(Announce);
      var budget := deadline - w.now;
      if budget <= 0.0 { break; }
      ghost var before := w.log;
      assert w.log[start..] == before[start..];
      var f := FollowUp(w, session, kind, result, budget, deadline, reserve, canReplace, start, planned, reconciled);
      assert w.log[start..] == before[start..] + w.log[|before|..];
      if f.Broken? {
        OnTimeConcat(before[start..], w.log[|before|..], deadline, reserve);
        return Aborted, turns, evidence, kinds;
      }
      ExplainsExtends(turns, evidence, kinds, asks, result, planned, reconciled, kind, f.turn, f.evidence);
      if kind == PlanNext { planned := planned + 1; } else { reconciled := reconciled + 1; }
      entered := f.entered;
      AnyMalformedExtends(turns, f.turn);
      LogFitsMore(before[start..], w.log[|before|..], turns, f.turn, deadline, reserve);
      kinds := kinds + [kind];
      turns, evidence := turns + [f.turn], evidence + [f.evidence];
      result := f.result;
      assessment := Classify(result);
      kind := NextKind(result, assessment, entered, asks);
      if kind != Stop { GoingOnMeansNoTimeout(result, entered, asks); }
    }
    ExplainsCounts(turns, evidence, kinds, asks, result, planned, reconciled);
    MalformedAnswerIsTurn(w.log[start..]);
    if SomeMalformed(result.toolCalls) { MalformedResult(result); }
    BoundedGives(w.log[start..], planned, reconciled, 1);
    final := Finished(result, assessment, planned + reconciled, entered);
  }

  lemma OnlyTurn(r: PromptResult)
    ensures AnyMalformed([r]) <==> SomeMalformed(r.toolCalls)
  {
    hide SomeMalformed;
    assert [r][0] == r;
  }

  method FirstTurn(w: World, session: Session, timeout: real, reserve: real, canReplace: bool)
    returns (exit: Exit, entered: bool)
    modifies w, session
    ensures old(w.log) <= w.log
    ensures OnTime(w.log[|old(w.log)|..], old(w.now) + timeout, reserve)
    ensures Bounded(w.log[|old(w.log)|..], 0, 0, 1) && (exit.Returned? ==> Answers(w.log[|old(w.log)|..]) == [exit.result])
    ensures exit.Returned? && !entered && !StoppedByTimeout(exit.result) ==>
              NoPoison(w.log[|old(w.log)|..]) && Bounded(w.log[|old(w.log)|..], 0, 0, 0)
    ensures EndsInFinal(w, timeout, reserve, old(session.forceDead) && !canReplace, old(w.sent)) ==>
              entered && exit.Returned? && w.answers(old(w.sent) + 1) == Answered(exit.result) && AsksFirst(w.log[|old(w.log)|..], w.answers(old(w.sent)))
  {
    hide TurnLog, Answers, FinalAt, StoppedByTimeout, EndsInFinal, AsksFirst;
    exit, entered := RunTurn(w, session, Initial, timeout, reserve, canReplace);
    ghost var news := w.log[|old(w.log)|..];
    BoundedConcat([], news, session, Initial, ReserveOf(timeout, reserve), 0, 0);
    assert [] + news == news;
  }

  // ---- The one way to lose evidence ----

  /** An answer that expired and whose finalization prompt was answered is the only kind that
      does not count, and it really is dropped: whatever malformed evidence the timed-out
      first prompt returned, the run is COMPLETED when the finalization answer by itself is. */
  method SupersededAnswerIsDropped(bad: PromptResult, good: PromptResult) returns (final: Final, w: World)
    requires StoppedByTimeout(bad) && SomeMalformed(bad.toolCalls) && Classify(good).outcome == COMPLETED
    ensures fresh(w) && AsksFirst(w.log, Answered(bad))
    ensures final.Finished? && final.result == good && final.assessment.outcome == COMPLETED
  {
    hide Classify, StoppedByTimeout, SomeMalformed, Answers, WithinLimits, Count, Justified;
    w := new World(n => if n == 0 then Answered(bad) else Answered(good), true);
    var session := new Session();
    assert SplitTimeout(300.0, 100.0) == Parts(200.0, 100.0);
    ghost var turns, evidence, kinds;
    final, turns, evidence, kinds := RunWithContinuation(w, session, 300.0, 100.0, true, _ => false);
    assert w.log[0..] == w.log;
  }

  /** There are such answers. */
  lemma SupersededExample() returns (bad: PromptResult, good: PromptResult)
    ensures StoppedByTimeout(bad) && SomeMalformed(bad.toolCalls) && Classify(good).outcome == COMPLETED
  {
    var call := ToolCall("i", "", "completed", Absent, Absent, Absent, Absent, ReceiverList([]), StateList([]), true);
    bad := PromptResult("timeout", "", [call], None, None);
    good := PromptResult("end_turn", "", [], None, None);
    NormOfPlain("timeout");
    NormOfPlain("end_turn");
    assert Malformed(bad.toolCalls[0]);
    CompletedExactlyWhen(good);
  }
}
