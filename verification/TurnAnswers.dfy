/** Which answers of a run become its turns (src/acp/finalization.py, src/acp/continuation.py):
    all of them but the answer of a timed-out prompt whose finalization prompt was answered. */
module TurnAnswers {
  import opened Wrappers
  import opened Collaboration
  import opened Outcome
  import opened Finalization

  predicate AnsweredAt(log: seq<Event>, i: nat) {
    i < |log| && log[i].Sent? && log[i].reply.Answered?
  }

  predicate FinalAt(log: seq<Event>, i: nat) {
    i < |log| && log[i].Sent? && log[i].kind == Final
  }

  /** The answer at i expired, and the finalization prompt sent for it was answered. */
  predicate Superseded(log: seq<Event>, i: nat) {
    AnsweredAt(log, i) && Expired(log[i].reply) && FinalAt(log, i + 1) && AnsweredAt(log, i + 1)
  }

  predicate Counts(log: seq<Event>, i: nat) {
    AnsweredAt(log, i) && !Superseded(log, i)
  }

  /** The answers that count from position n on, in the order of their prompts. */
  function AnswersFrom(log: seq<Event>, n: nat): seq<PromptResult>
    decreases |log| - n
  {
    if n >= |log| then []
    else (if Counts(log, n) then [log[n].reply.result] else []) + AnswersFrom(log, n + 1)
  }

  function Answers(log: seq<Event>): seq<PromptResult> {
    AnswersFrom(log, 0)
  }

  function PositionsFrom(log: seq<Event>, n: nat): (at: seq<nat>)
    ensures forall k :: 0 <= k < |at| ==> n <= at[k] && Counts(log, at[k])
    ensures forall k, m :: 0 <= k < m < |at| ==> at[k] < at[m]
    decreases |log| - n
  {
    if n >= |log| then []
    else (if Counts(log, n) then [n] else []) + PositionsFrom(log, n + 1)
  }

  /** Answers lists exactly the answers that count, each once and in order. */
  lemma {:induction false} AnswersExactly(log: seq<Event>, n: nat)
    ensures |PositionsFrom(log, n)| == |AnswersFrom(log, n)|
    ensures forall k :: 0 <= k < |PositionsFrom(log, n)| ==> AnswersFrom(log, n)[k] == log[PositionsFrom(log, n)[k]].reply.result
    ensures forall i: nat :: n <= i && Counts(log, i) ==> i in PositionsFrom(log, n)
    decreases |log| - n
  {
    hide Superseded;
    if n < |log| { AnswersExactly(log, n + 1); }
  }

  lemma CountsShift(a: seq<Event>, b: seq<Event>, n: nat)
    ensures Counts(a + b, |a| + n) <==> Counts(b, n)
  {
    hide Expired;
    assert n < |b| ==> (a + b)[|a| + n] == b[n];
    assert n + 1 < |b| ==> (a + b)[|a| + n + 1] == b[n + 1];
  }

  lemma {:induction false} AnswersShift(a: seq<Event>, b: seq<Event>, n: nat)
    ensures AnswersFrom(a + b, |a| + n) == AnswersFrom(b, n)
    decreases |b| - n
  {
    hide Superseded;
    if n < |b| {
      AnswersShift(a, b, n + 1);
      CountsShift(a, b, n);
      assert (a + b)[|a| + n] == b[n];
    }
  }

  lemma CountsPrefix(a: seq<Event>, b: seq<Event>, n: nat)
    requires !FinalAt(b, 0) && n < |a|
    ensures Counts(a + b, n) <==> Counts(a, n)
  {
    hide Expired;
    assert n + 1 < |a| ==> (a + b)[n + 1] == a[n + 1];
    assert n + 1 == |a| && b != [] ==> (a + b)[n + 1] == b[0];
  }

  lemma {:induction false} AnswersPrefix(a: seq<Event>, b: seq<Event>, n: nat)
    requires !FinalAt(b, 0) && n <= |a|
    ensures AnswersFrom(a + b, n) == AnswersFrom(a, n) + AnswersFrom(a + b, |a|)
    decreases |a| - n
  {
    hide Superseded;
    if n < |a| {
      AnswersPrefix(a, b, n + 1);
      CountsPrefix(a, b, n);
      assert (a + b)[n] == a[n];
    }
  }

  lemma AnswersConcat(a: seq<Event>, b: seq<Event>)
    requires !FinalAt(b, 0)
    ensures Answers(a + b) == Answers(a) + Answers(b)
  {
    AnswersPrefix(a, b, 0);
    AnswersShift(a, b, 0);
  }

  /** A turn that returns has one answer that counts: the one it returns. */
  lemma OneAnswer(log: seq<Event>, session: Session, kind: Kind, reserve: real, result: PromptResult)
    requires TurnLog(log, session, kind, reserve) && kind != Final && ReturnsLastAnswer(log, Returned(result))
    requires |log| > 1 && log[1].Sent? ==> Expired(log[0].reply)
    ensures log != [] && !FinalAt(log, 0) && Answers(log) == [result]
  {
    hide Expired;
    assert forall i :: 2 <= i < |log| ==> !log[i].Sent?;
    assert log != [];
    if |log| > 1 && log[1].Sent? {
      NoMoreAnswers(log, 2);
      assert log[1].reply == Answered(result);
      assert Answers(log) == AnswersFrom(log, 1) == [result];
    } else {
      NoMoreAnswers(log, 1);
    }
  }

  lemma {:induction false} NoMoreAnswers(log: seq<Event>, n: nat)
    requires n <= |log| && forall i :: n <= i < |log| ==> !log[i].Sent?
    ensures AnswersFrom(log, n) == []
    decreases |log| - n
  {
    if n < |log| { NoMoreAnswers(log, n + 1); }
  }

  // ---- Malformed answers ----

  ghost predicate AnyMalformed(turns: seq<PromptResult>) {
    exists i :: 0 <= i < |turns| && SomeMalformed(turns[i].toolCalls)
  }

  /** Some answer that counts carries malformed child evidence. */
  ghost predicate MalformedAnswer(log: seq<Event>) {
    exists i: nat :: Counts(log, i) && SomeMalformed(log[i].reply.result.toolCalls)
  }

  lemma MalformedAnswerIsTurn(log: seq<Event>)
    ensures MalformedAnswer(log) <==> AnyMalformed(Answers(log))
  {
    hide SomeMalformed, Superseded, PositionsFrom;
    AnswersExactly(log, 0);
    var at := PositionsFrom(log, 0);
    if i: nat :| Counts(log, i) && SomeMalformed(log[i].reply.result.toolCalls) {
      var k :| 0 <= k < |at| && at[k] == i;
      assert SomeMalformed(Answers(log)[k].toolCalls);
    }
    if AnyMalformed(Answers(log)) {
      var k :| 0 <= k < |Answers(log)| && SomeMalformed(Answers(log)[k].toolCalls);
      assert Counts(log, at[k]);
    }
  }

  lemma AnyMalformedExtends(turns: seq<PromptResult>, turn: PromptResult)
    ensures AnyMalformed(turns + [turn]) <==> AnyMalformed(turns) || SomeMalformed(turn.toolCalls)
  {
    hide SomeMalformed;
    var all := turns + [turn];
    assert all[|turns|] == turn;
    if AnyMalformed(turns) {
      var i :| 0 <= i < |turns| && SomeMalformed(turns[i].toolCalls);
      assert all[i] == turns[i];
    }
  }
}
