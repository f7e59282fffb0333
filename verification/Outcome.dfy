/** src/acp/outcome.py: folding child lifecycles and classifying a prompt result. */
module Outcome {
  import opened Wrappers
  import opened Strings
  import opened ChildModel
  import opened Collaboration

  // ---- What one tool call says about children ----

  datatype Observation = Observation(source: string, status: ChildStatus)

  /** One tool call, read once: is it invalid, whom does it observe, whose generation does
      it reopen beforehand, and whom does it force back to running afterwards. */
  datatype Reading = Reading(
    invalid: bool,
    observations: seq<Observation>,
    resets: set<string>,
    forced: Option<string>)

  function ListedStates(s: States): seq<StateItem> {
    if s.StateList? then s.items else []
  }

  function StateObservations(items: seq<Item>): seq<Observation> {
    if items == [] then []
    else
      var rest := StateObservations(items[..|items| - 1]);
      var x := items[|items| - 1];
      if x.valid then rest + [Observation(x.source, x.status)] else rest
  }

  function Represented(items: seq<Item>): set<string> {
    set x | x in items && x.valid :: x.source
  }

  function ReceiverObservations(items: seq<Field>, represented: set<string>): seq<Observation> {
    if items == [] then []
    else
      var rest := ReceiverObservations(items[..|items| - 1], represented);
      var s := StrictSourceId(items[|items| - 1]);
      if s.Some? && s.value !in represented then rest + [Observation(s.value, Pending)] else rest
  }

  function ActivitySource(t: ToolCall): Option<string> {
    if Blank(t.source) && Blank(t.activity) then None else StrictSourceId(t.source)
  }

  predicate OuterCompleted(t: ToolCall) { Norm(t.status) == "completed" }

  function ActivityObservations(t: ToolCall, represented: set<string>): seq<Observation> {
    var s := ActivitySource(t);
    var a := NormField(t.activity);
    if s.Some? && KnownActivity(a) && s.value !in represented then
      [Observation(s.value, if a == "interrupted" && OuterCompleted(t) then Cancelled else Running)]
    else []
  }

  function LifecycleTool(t: ToolCall): string {
    var tool := NormField(t.tool);
    if tool != "" then tool else if KnownAction(Norm(t.title)) then Norm(t.title) else ""
  }

  function Observations(t: ToolCall): seq<Observation> {
    var items := DecodeAll(ListedStates(t.states));
    var represented := Represented(items);
    StateObservations(items) + ReceiverObservations(ReceiverItems(t.receivers), represented)
    + ActivityObservations(t, represented)
  }

  predicate InvalidEvidence(t: ToolCall) {
    || t.malformed || !t.states.StateList? || t.tool.Other? || BadReceivers(t) || BadActivity(t)
    || (exists x :: x in ListedStates(t.states) && BadState(x))
    || (GenerationAction(LifecycleTool(t)) && OuterCompleted(t) && Observations(t) == [])
  }

  function TransientSources(obs: seq<Observation>): set<string> {
    set o | o in obs && Transient(o.status) :: o.source
  }

  function ObservedSources(obs: seq<Observation>): set<string> {
    set o | o in obs :: o.source
  }

  function Resets(t: ToolCall): set<string> {
    var obs := Observations(t);
    var tool := LifecycleTool(t);
    if GenerationAction(tool) then
      if OuterCompleted(t) then
        (set f | f in ReceiverItems(t.receivers) && StrictSourceId(f).Some? :: StrictSourceId(f).value) + ObservedSources(obs)
      else TransientSources(obs)
    else if ActivityIsTransient(t) && ActivitySource(t).Some? then {ActivitySource(t).value}
    else if tool != "" && !PassiveAction(tool) then TransientSources(obs)
    else {}
  }

  function Forced(t: ToolCall): Option<string> {
    if GenerationAction(LifecycleTool(t)) && !OuterCompleted(t) && KnownActivity(NormField(t.activity))
    then ActivitySource(t) else None
  }

  function Read(t: ToolCall): Reading {
    Reading(InvalidEvidence(t), Observations(t), Resets(t), Forced(t))
  }

  function ReadAll(tools: seq<ToolCall>): (rs: seq<Reading>)
    ensures |rs| == |tools|
    ensures forall i :: 0 <= i < |rs| ==> rs[i] == Read(tools[i])
  {
    seq(|tools|, i requires 0 <= i < |tools| => Read(tools[i]))
  }

  // ---- The reading in terms of the call's fields ----

  /** A well-formed state entry gives child s the status st. */
  ghost predicate Lists(t: ToolCall, s: string, st: ChildStatus) {
    exists x :: x in ListedStates(t.states) && EntrySays(x, s, st)
  }

  predicate EntrySays(x: StateItem, s: string, st: ChildStatus) {
    x.Entry? && StrictSourceId(x.source) == Some(s) && StrictChildStatus(x.status) == Some(st)
  }

  ghost predicate ListsSome(t: ToolCall, s: string) {
    exists st :: Lists(t, s, st)
  }

  ghost predicate Receives(t: ToolCall, s: string) {
    exists f :: f in ReceiverItems(t.receivers) && StrictSourceId(f) == Some(s)
  }

  /** What a reported activity says about its own source. */
  predicate ActivitySays(t: ToolCall, s: string, st: ChildStatus) {
    && StrictSourceId(t.source) == Some(s)
    && var a := NormField(t.activity);
       if a == "started" || a == "interacted" then st == Running
       else a == "interrupted" && st == (if Norm(t.status) == "completed" then Cancelled else Running)
  }

  lemma {:induction false} StateObservationsAre(items: seq<Item>, o: Observation)
    ensures o in StateObservations(items) <==> exists x :: x in items && x.valid && x.source == o.source && x.status == o.status
  {
    if items != [] {
      var rest, last := items[..|items| - 1], items[|items| - 1];
      StateObservationsAre(rest, o);
      assert items == rest + [last];
    }
  }

  lemma {:induction false} ReceiverObservationsAre(items: seq<Field>, represented: set<string>, o: Observation)
    ensures o in ReceiverObservations(items, represented) <==>
            o.status == Pending && o.source !in represented && exists f :: f in items && StrictSourceId(f) == Some(o.source)
  {
    hide StrictSourceId;
    if items != [] {
      var rest, last := items[..|items| - 1], items[|items| - 1];
      ReceiverObservationsAre(rest, represented, o);
      assert items == rest + [last];
    }
  }

  lemma DecodedSays(x: StateItem, s: string, st: ChildStatus)
    ensures EntrySays(x, s, st) <==> Decode(x).valid && Decode(x).source == s && Decode(x).status == st
  {
    hide StrictSourceId, StrictChildStatus;
  }

  lemma ListedAre(t: ToolCall, s: string, st: ChildStatus)
    ensures Observation(s, st) in StateObservations(DecodeAll(ListedStates(t.states))) <==> Lists(t, s, st)
  {
    hide Decode, EntrySays, ListedStates;
    var raws := ListedStates(t.states);
    var items := DecodeAll(raws);
    StateObservationsAre(items, Observation(s, st));
    if x :| x in raws && EntrySays(x, s, st) {
      var i :| 0 <= i < |raws| && raws[i] == x;
      DecodedSays(x, s, st);
      assert items[i] in items;
    }
    if x :| x in items && x.valid && x.source == s && x.status == st {
      var i :| 0 <= i < |items| && items[i] == x;
      DecodedSays(raws[i], s, st);
    }
  }

  lemma RepresentedAre(t: ToolCall, s: string)
    ensures s in Represented(DecodeAll(ListedStates(t.states))) <==> ListsSome(t, s)
  {
    hide Decode, ListedStates, Lists;
    var items := DecodeAll(ListedStates(t.states));
    forall st ensures Lists(t, s, st) <==> exists x :: x in items && x.valid && x.source == s && x.status == st {
      ListedAre(t, s, st);
      StateObservationsAre(items, Observation(s, st));
    }
    if x :| x in items && x.valid && x.source == s { assert Lists(t, s, x.status); }
  }

  /** A call observes child s in status st exactly if a state entry lists it so, or nothing
      lists s and it is a receiver (pending) or the activity's source (running, or cancelled
      when interrupted by a completed call). */
  lemma ObservedExactly(t: ToolCall, s: string, st: ChildStatus)
    ensures Observation(s, st) in Observations(t) <==>
            || Lists(t, s, st)
            || (!ListsSome(t, s) && ((st == Pending && Receives(t, s)) || ActivitySays(t, s, st)))
  {
    hide StrictSourceId, Decode, Norm, Represented, StateObservations, ReceiverObservations, Lists, ListsSome, ListedStates, Blank;
    var represented := Represented(DecodeAll(ListedStates(t.states)));
    ListedAre(t, s, st);
    RepresentedAre(t, s);
    ReceiverObservationsAre(ReceiverItems(t.receivers), represented, Observation(s, st));
    SourceIsNotBlank(t.source);
  }

  lemma SourceIsNotBlank(f: Field)
    ensures StrictSourceId(f).Some? ==> !Blank(f)
  {
  }

  /** Somebody is seen at all, or seen pending or running. */
  ghost predicate Sees(t: ToolCall, s: string) {
    exists st :: Observation(s, st) in Observations(t)
  }

  ghost predicate SeesTransient(t: ToolCall, s: string) {
    Observation(s, Pending) in Observations(t) || Observation(s, Running) in Observations(t)
  }

  /** The action a call declares: its tool, or else a title that is a known action. */
  predicate Declares(t: ToolCall, action: string) {
    action != "" && (NormField(t.tool) == action || (NormField(t.tool) == "" && KnownAction(action) && Norm(t.title) == action))
  }

  ghost predicate StartsGeneration(t: ToolCall) {
    Declares(t, "spawn_agent") || Declares(t, "followup_task")
  }

  predicate BusyActivity(t: ToolCall) {
    var a := NormField(t.activity);
    a == "started" || a == "interacted" || (a == "interrupted" && Norm(t.status) != "completed")
  }

  /** An action that is neither a generation action nor a passive one. */
  ghost predicate StrangeAction(t: ToolCall) {
    exists a :: Declares(t, a) && !GenerationAction(a) && !PassiveAction(a)
  }

  /** The generation of s is reopened exactly by: a completed spawn or follow-up that receives
      or sees s; an unfinished one that sees it pending or running; otherwise a busy activity
      of s; otherwise an unknown action that sees it pending or running. */
  lemma ResetExactly(t: ToolCall, s: string)
    ensures s in Resets(t) <==>
            if StartsGeneration(t) then
              if Norm(t.status) == "completed" then Receives(t, s) || Sees(t, s) else SeesTransient(t, s)
            else if BusyActivity(t) && StrictSourceId(t.source).Some? then StrictSourceId(t.source) == Some(s)
            else StrangeAction(t) && SeesTransient(t, s)
  {
    hide Observations, StrictSourceId, Norm, Blank;
    SourceIsNotBlank(t.source);
    ActionIs(t);
    var obs := Observations(t);
    assert s in TransientSources(obs) <==> SeesTransient(t, s) by { TransientAre(obs, s); }
    assert s in ObservedSources(obs) <==> Sees(t, s) by { ObservedAre(obs, s); }
  }

  lemma TransientAre(obs: seq<Observation>, s: string)
    ensures s in TransientSources(obs) <==> Observation(s, Pending) in obs || Observation(s, Running) in obs
  {
    if o :| o in obs && Transient(o.status) && o.source == s { assert o == Observation(s, o.status); }
  }

  lemma ObservedAre(obs: seq<Observation>, s: string)
    ensures s in ObservedSources(obs) <==> exists st :: Observation(s, st) in obs
  {
    if o :| o in obs && o.source == s { assert o == Observation(s, o.status); }
  }

  lemma ActionIs(t: ToolCall)
    ensures forall a :: Declares(t, a) <==> a != "" && LifecycleTool(t) == a
    ensures StartsGeneration(t) <==> GenerationAction(LifecycleTool(t))
    ensures StrangeAction(t) <==> LifecycleTool(t) != "" && !GenerationAction(LifecycleTool(t)) && !PassiveAction(LifecycleTool(t))
  {
    hide Norm;
    forall a ensures Declares(t, a) <==> a != "" && LifecycleTool(t) == a {
      assert KnownAction(a) ==> a != "";
    }
  }

  /** s is put back to running exactly by an unfinished spawn or follow-up that reports a known
      activity of s, whatever else the call says about s. */
  lemma ForcedExactly(t: ToolCall, s: string)
    ensures Forced(t) == Some(s) <==>
            && StartsGeneration(t) && Norm(t.status) != "completed" && StrictSourceId(t.source) == Some(s)
            && (NormField(t.activity) == "started" || NormField(t.activity) == "interacted" || NormField(t.activity) == "interrupted")
  {
    hide StrictSourceId, Norm, Blank, LifecycleTool, Declares;
    SourceIsNotBlank(t.source);
    ActionIs(t);
  }

  /** Evidence is invalid exactly if it is malformed, or a completed spawn or follow-up sees nobody. */
  lemma InvalidExactly(t: ToolCall)
    ensures InvalidEvidence(t) <==>
            Malformed(t) || (StartsGeneration(t) && Norm(t.status) == "completed" && forall s :: !Sees(t, s))
  {
    hide StrictSourceId, Norm, Observations, BadReceivers, BadActivity, Decode, LifecycleTool, Declares, StartsGeneration;
    ActionIs(t);
    var obs := Observations(t);
    if obs != [] { assert obs[0] == Observation(obs[0].source, obs[0].status) && Sees(t, obs[0].source); }
    BareStatesAreBad(t.states);
  }

  lemma BareStatesAreBad(states: States)
    ensures (exists x :: x in StateItems(states) && BadState(x)) <==>
            !states.StateList? || exists x :: x in ListedStates(states) && BadState(x)
  {
    if !states.StateList? {
      var bad := Entry(Text(""), Text("malformed"), Text(""));
      assert Strip("") == "";
      assert BadState(bad) && bad in StateItems(states);
    }
  }

  // ---- The one-pass fold ----

  datatype Life = Life(status: ChildStatus, index: nat)

  function Observe(m: map<string, Life>, o: Observation, index: nat): map<string, Life> {
    if Transient(o.status) && o.source in m && Terminal(m[o.source].status) then m
    else m[o.source := Life(o.status, index)]
  }

  function ObserveAll(m: map<string, Life>, obs: seq<Observation>, index: nat): map<string, Life> {
    if obs == [] then m
    else Observe(ObserveAll(m, obs[..|obs| - 1], index), obs[|obs| - 1], index)
  }

  function Step(m: map<string, Life>, r: Reading, index: nat): map<string, Life> {
    var observed := ObserveAll(m - r.resets, r.observations, index);
    if r.forced.Some? then observed[r.forced.value := Life(Running, index)] else observed
  }

  function Lives(rs: seq<Reading>): map<string, Life> {
    if rs == [] then map[] else Step(Lives(rs[..|rs| - 1]), rs[|rs| - 1], |rs| - 1)
  }

  // ---- The declarative rule ----

  predicate ReopensAt(r: Reading, s: string) { s in r.resets || r.forced == Some(s) }

  predicate ObservesAt(r: Reading, s: string) {
    r.forced == Some(s) || Mentions(r.observations, s)
  }

  predicate SettlesAt(r: Reading, s: string) {
    r.forced != Some(s) && MentionsTerminal(r.observations, s)
  }

  /** No tool call after i reopened child s, so i belongs to its current generation. */
  predicate InCurrentGeneration(rs: seq<Reading>, i: nat, s: string) {
    forall k :: i < k < |rs| ==> !ReopensAt(rs[k], s)
  }

  ghost predicate Seen(rs: seq<Reading>, s: string) {
    exists i :: 0 <= i < |rs| && ObservesAt(rs[i], s) && InCurrentGeneration(rs, i, s)
  }

  ghost predicate Settled(rs: seq<Reading>, s: string) {
    exists i :: 0 <= i < |rs| && SettlesAt(rs[i], s) && InCurrentGeneration(rs, i, s)
  }

  /** Child s was observed in its current generation and has no terminal observation there. */
  ghost predicate Unresolved(rs: seq<Reading>, s: string) {
    Seen(rs, s) && !Settled(rs, s)
  }

  ghost predicate LastObserved(rs: seq<Reading>, s: string, i: nat) {
    i < |rs| && ObservesAt(rs[i], s) && forall k :: i < k < |rs| ==> !ObservesAt(rs[k], s)
  }

  predicate Mentions(obs: seq<Observation>, s: string) {
    exists o :: o in obs && o.source == s
  }

  predicate MentionsTerminal(obs: seq<Observation>, s: string) {
    exists o :: o in obs && o.source == s && Terminal(o.status)
  }

  lemma MentionsExtends(obs: seq<Observation>, o: Observation, s: string)
    ensures Mentions(obs + [o], s) <==> Mentions(obs, s) || o.source == s
    ensures MentionsTerminal(obs + [o], s) <==> MentionsTerminal(obs, s) || (o.source == s && Terminal(o.status))
  {
    assert o in obs + [o];
    assert forall p :: p in obs ==> p in obs + [o];
  }

  lemma {:induction false} ObserveAllMeaning(m: map<string, Life>, obs: seq<Observation>, index: nat, s: string)
    ensures var n := ObserveAll(m, obs, index);
            if MentionsTerminal(obs, s) then s in n && Terminal(n[s].status) && n[s].index == index
            else if Mentions(obs, s) then
              s in n && (if s in m && Terminal(m[s].status) then n[s] == m[s]
                         else Transient(n[s].status) && n[s].index == index)
            else (s in n <==> s in m) && (s in m ==> n[s] == m[s])
  {
    hide Mentions, MentionsTerminal;
    if obs == [] {
      NoMentions(s);
    } else {
      var before, o := obs[..|obs| - 1], obs[|obs| - 1];
      ObserveAllMeaning(m, before, index, s);
      assert obs == before + [o];
      MentionsExtends(before, o, s);
    }
  }

  lemma NoMentions(s: string)
    ensures !Mentions([], s) && !MentionsTerminal([], s)
  {
  }

  /** What one tool call does to the record of child s. */
  lemma StepMeaning(m: map<string, Life>, r: Reading, index: nat, s: string)
    ensures var n := Step(m, r, index);
            var kept := s in m && s !in r.resets;
            if r.forced == Some(s) then s in n && n[s] == Life(Running, index)
            else if SettlesAt(r, s) then s in n && Terminal(n[s].status)
            else if ObservesAt(r, s) then
              s in n && (if kept && Terminal(m[s].status) then n[s] == m[s]
                         else Transient(n[s].status) && n[s].index == index)
            else (s in n <==> kept) && (kept ==> n[s] == m[s])
  {
    ObserveAllMeaning(m - r.resets, r.observations, index, s);
  }

  lemma GenerationExtends(rs: seq<Reading>, r: Reading, i: nat, s: string)
    requires i < |rs|
    ensures InCurrentGeneration(rs + [r], i, s) <==> InCurrentGeneration(rs, i, s) && !ReopensAt(r, s)
    ensures InCurrentGeneration(rs + [r], |rs|, s)
  {
    var q := rs + [r];
    assert q[|rs|] == r;
    assert forall k :: 0 <= k < |rs| ==> q[k] == rs[k];
  }

  lemma SeenExtends(rs: seq<Reading>, r: Reading, s: string)
    ensures Seen(rs + [r], s) <==> ObservesAt(r, s) || (Seen(rs, s) && !ReopensAt(r, s))
    ensures Settled(rs + [r], s) <==> SettlesAt(r, s) || (Settled(rs, s) && !ReopensAt(r, s))
  {
    var q := rs + [r];
    assert q[|rs|] == r;
    assert InCurrentGeneration(q, |rs|, s);
    if Seen(q, s) && !ObservesAt(r, s) {
      var i :| 0 <= i < |q| && ObservesAt(q[i], s) && InCurrentGeneration(q, i, s);
      GenerationExtends(rs, r, i, s);
    }
    if Seen(rs, s) && !ReopensAt(r, s) {
      var i :| 0 <= i < |rs| && ObservesAt(rs[i], s) && InCurrentGeneration(rs, i, s);
      GenerationExtends(rs, r, i, s);
      assert q[i] == rs[i];
    }
    if Settled(q, s) && !SettlesAt(r, s) {
      var i :| 0 <= i < |q| && SettlesAt(q[i], s) && InCurrentGeneration(q, i, s);
      GenerationExtends(rs, r, i, s);
    }
    if Settled(rs, s) && !ReopensAt(r, s) {
      var i :| 0 <= i < |rs| && SettlesAt(rs[i], s) && InCurrentGeneration(rs, i, s);
      GenerationExtends(rs, r, i, s);
      assert q[i] == rs[i];
    }
  }

  lemma LastObservedExtends(rs: seq<Reading>, r: Reading, s: string, i: nat)
    ensures ObservesAt(r, s) ==> LastObserved(rs + [r], s, |rs|)
    ensures !ObservesAt(r, s) && LastObserved(rs, s, i) ==> LastObserved(rs + [r], s, i)
  {
    var q := rs + [r];
    assert q[|rs|] == r;
    assert forall k :: 0 <= k < |rs| ==> q[k] == rs[k];
  }

  /** The fold records a child exactly when it was seen in its current generation, as
      terminal exactly when that generation is settled, and otherwise at the last tool
      call that observed it. */
  lemma {:induction false} FoldMeetsRule(rs: seq<Reading>, s: string)
    ensures s in Lives(rs) <==> Seen(rs, s)
    ensures s in Lives(rs) ==> (Terminal(Lives(rs)[s].status) <==> Settled(rs, s))
    ensures Unresolved(rs, s) ==> LastObserved(rs, s, Lives(rs)[s].index)
  {
    if rs != [] {
      var before, r := rs[..|rs| - 1], rs[|rs| - 1];
      assert rs == before + [r];
      FoldMeetsRule(before, s);
      SeenExtends(before, r, s);
      StepMeaning(Lives(before), r, |before|, s);
      LastObservedExtends(before, r, s, if s in Lives(before) then Lives(before)[s].index else 0);
    }
  }

  // ---- Incompleteness ----

  predicate OuterTerminal(t: ToolCall) { Norm(t.status) == "completed" || Norm(t.status) == "failed" }

  function IncompleteOuter(tools: seq<ToolCall>): set<nat> {
    set i: nat | i < |tools| && !OuterTerminal(tools[i])
  }

  function InvalidIndexes(rs: seq<Reading>): set<nat> {
    set i: nat | i < |rs| && rs[i].invalid
  }

  function TransientIndexes(m: map<string, Life>): set<nat> {
    set s | s in m && Transient(m[s].status) :: m[s].index
  }

  function UnresolvedIndexes(tools: seq<ToolCall>): set<nat> {
    InvalidIndexes(ReadAll(tools)) + TransientIndexes(Lives(ReadAll(tools)))
  }

  predicate HasTransientChild(tools: seq<ToolCall>) {
    TransientIndexes(Lives(ReadAll(tools))) != {}
  }

  /** The tool calls blamed for children are the invalid ones and, for each unresolved
      child, the last one that observed it. */
  lemma UnresolvedIndexesMeaning(tools: seq<ToolCall>, i: nat)
    ensures i in UnresolvedIndexes(tools) <==>
            i < |tools| && (InvalidEvidence(tools[i])
              || exists s :: Unresolved(ReadAll(tools), s) && LastObserved(ReadAll(tools), s, i))
  {
    hide InvalidEvidence, Observations, Resets, Forced, Lives;
    var rs := ReadAll(tools);
    var m := Lives(rs);
    if i in TransientIndexes(m) {
      var s :| s in m && Transient(m[s].status) && m[s].index == i;
      FoldMeetsRule(rs, s);
      assert Unresolved(rs, s) && LastObserved(rs, s, i);
    }
    if i < |tools| && exists s :: Unresolved(rs, s) && LastObserved(rs, s, i) {
      var s :| Unresolved(rs, s) && LastObserved(rs, s, i);
      FoldMeetsRule(rs, s);
      LastObservedUnique(rs, s, i, m[s].index);
      assert m[s].index in TransientIndexes(m);
    }
  }

  lemma LastObservedUnique(rs: seq<Reading>, s: string, i: nat, j: nat)
    requires LastObserved(rs, s, i) && LastObserved(rs, s, j)
    ensures i == j
  {
  }

  /** A child is transient after the fold exactly when the rule leaves it unresolved. */
  lemma TransientChildMeaning(tools: seq<ToolCall>)
    ensures HasTransientChild(tools) <==> exists s :: Unresolved(ReadAll(tools), s)
  {
    var rs := ReadAll(tools);
    var m := Lives(rs);
    if HasTransientChild(tools) {
      var i :| i in TransientIndexes(m);
      var s :| s in m && Transient(m[s].status) && m[s].index == i;
      FoldMeetsRule(rs, s);
      assert Unresolved(rs, s);
    }
    if s :| Unresolved(rs, s) {
      FoldMeetsRule(rs, s);
      assert m[s].index in TransientIndexes(m);
    }
  }

  lemma IndexesExtend(tools: seq<ToolCall>, rs: seq<Reading>, n: nat)
    requires n < |tools| == |rs|
    ensures IncompleteOuter(tools[..n + 1]) ==
            IncompleteOuter(tools[..n]) + (if OuterTerminal(tools[n]) then {} else {n})
    ensures InvalidIndexes(rs[..n + 1]) == InvalidIndexes(rs[..n]) + (if rs[n].invalid then {n} else {})
  {
    hide OuterTerminal;
  }

  lemma NoIndexes()
    ensures IncompleteOuter([]) == {} && InvalidIndexes([]) == {}
  {
  }

  /** The loop of `_tool_incompleteness_details`, with its dictionary and index sets. */
  method FoldTools(tools: seq<ToolCall>)
    returns (incompleteOuter: set<nat>, invalid: set<nat>, lifecycle: map<string, Life>)
    ensures incompleteOuter == IncompleteOuter(tools)
    ensures invalid == InvalidIndexes(ReadAll(tools))
    ensures lifecycle == Lives(ReadAll(tools))
  {
    hide InvalidEvidence, Observations, Resets, Forced, OuterTerminal, Step, IncompleteOuter, InvalidIndexes;
    incompleteOuter, invalid, lifecycle := {}, {}, map[];
    ghost var rs := ReadAll(tools);
    NoIndexes();
    for index := 0 to |tools|
      invariant incompleteOuter == IncompleteOuter(tools[..index])
      invariant invalid == InvalidIndexes(rs[..index])
      invariant lifecycle == Lives(rs[..index])
    {
      assert rs[..index + 1][..index] == rs[..index];
      IndexesExtend(tools, rs, index);
      var r := Read(tools[index]);
      if !OuterTerminal(tools[index]) { incompleteOuter := incompleteOuter + {index}; }
      if r.invalid { invalid := invalid + {index}; }
      lifecycle := StepLoop(lifecycle, r, index);
    }
    assert rs[..|tools|] == rs && tools[..|tools|] == tools;
  }

  /** `_tool_incompleteness_details`: the blamed calls, both counts and the transient flag. */
  method ToolIncompleteness(tools: seq<ToolCall>)
    returns (incomplete: set<nat>, outer: nat, children: nat, transientChild: bool)
    ensures incomplete == IncompleteOuter(tools) + UnresolvedIndexes(tools)
    ensures outer == |IncompleteOuter(tools)|
    ensures children == |UnresolvedIndexes(tools)|
    ensures transientChild <==> exists s :: Unresolved(ReadAll(tools), s)
  {
    var incompleteOuter, invalid, lifecycle := FoldTools(tools);
    var running := TransientIndexes(lifecycle);
    var unresolved := invalid + running;
    incomplete, outer, children := incompleteOuter + unresolved, |incompleteOuter|, |unresolved|;
    transientChild := running != {};
    TransientChildMeaning(tools);
  }

  method StepLoop(m: map<string, Life>, r: Reading, index: nat) returns (n: map<string, Life>)
    ensures n == Step(m, r, index)
  {
    n := m - r.resets;
    for k := 0 to |r.observations|
      invariant n == ObserveAll(m - r.resets, r.observations[..k], index)
    {
      assert r.observations[..k + 1][..k] == r.observations[..k];
      var o := r.observations[k];
      if Terminal(o.status) {
        n := n[o.source := Life(o.status, index)];
      } else if o.source in n && Terminal(n[o.source].status) {
        // a passive delayed snapshot cannot reopen a terminal child
      } else {
        n := n[o.source := Life(o.status, index)];
      }
    }
    assert r.observations[..|r.observations|] == r.observations;
    if r.forced.Some? {
      n := n[r.forced.value := Life(Running, index)];
    }
  }

  // ---- Classification ----

  datatype PromptResult = PromptResult(
    stopReason: string,
    text: string,
    toolCalls: seq<ToolCall>,
    plan: Option<seq<string>>,
    goal: Option<string>)

  datatype Outcome = COMPLETED | CANCELLED | INCOMPLETE

  datatype Assessment = Assessment(
    outcome: Outcome,
    stopReason: string,
    pendingPlan: nat,
    incompleteTools: nat,
    incompleteOuter: nat,
    unresolvedChildren: nat)

  function PlanEntries(r: PromptResult): seq<string> {
    if r.plan.Some? then r.plan.value else []
  }

  function PendingPlan(entries: seq<string>): (n: nat)
    ensures n == 0 <==> forall e :: e in entries ==> Norm(e) == "completed"
  {
    if entries == [] then 0
    else (if Norm(entries[0]) == "completed" then 0 else 1) + PendingPlan(entries[1..])
  }

  function IncompleteTools(tools: seq<ToolCall>): set<nat> {
    IncompleteOuter(tools) + UnresolvedIndexes(tools)
  }

  function Judge(r: PromptResult): Outcome {
    var stop := Norm(r.stopReason);
    if stop == "cancelled" || stop == "canceled" then CANCELLED
    else if stop != "end_turn" then INCOMPLETE
    else if r.goal.Some? && Norm(r.goal.value) != "completed" then INCOMPLETE
    else if PendingPlan(PlanEntries(r)) > 0 then INCOMPLETE
    else if IncompleteTools(r.toolCalls) != {} then INCOMPLETE
    else COMPLETED
  }

  function Classify(r: PromptResult): Assessment {
    var stop := Norm(r.stopReason);
    Assessment(
      Judge(r),
      if stop == "" then "missing_stop_reason" else stop,
      PendingPlan(PlanEntries(r)),
      |IncompleteTools(r.toolCalls)|,
      |IncompleteOuter(r.toolCalls)|,
      |UnresolvedIndexes(r.toolCalls)|)
  }

  /** Nothing about the tool calls stands against completion. */
  ghost predicate EvidenceSettled(tools: seq<ToolCall>) {
    && (forall i :: 0 <= i < |tools| ==> OuterTerminal(tools[i]) && !InvalidEvidence(tools[i]))
    && (forall s :: !Unresolved(ReadAll(tools), s))
  }

  lemma IncompleteToolsMeaning(tools: seq<ToolCall>)
    ensures IncompleteTools(tools) == {} <==> EvidenceSettled(tools)
  {
    hide InvalidEvidence, Observations, Resets, Forced, OuterTerminal, Unresolved, Lives;
    TransientChildMeaning(tools);
    forall i: nat | i < |tools| ensures InvalidEvidence(tools[i]) ==> i in IncompleteTools(tools) {
      UnresolvedIndexesMeaning(tools, i);
    }
    forall i: nat | i < |tools| ensures !OuterTerminal(tools[i]) ==> i in IncompleteTools(tools) {
    }
    if EvidenceSettled(tools) {
      assert !HasTransientChild(tools);
    }
  }

  /** COMPLETED means exactly: a natural end of turn, a finished (or no) goal, a finished
      plan, terminal outer calls, attributable evidence, and every child resolved. */
  lemma CompletedExactlyWhen(r: PromptResult)
    ensures Classify(r).outcome == COMPLETED <==>
            && Norm(r.stopReason) == "end_turn"
            && (r.goal.Some? ==> Norm(r.goal.value) == "completed")
            && (forall e :: e in PlanEntries(r) ==> Norm(e) == "completed")
            && EvidenceSettled(r.toolCalls)
  {
    IncompleteToolsMeaning(r.toolCalls);
  }

  /** The three outcomes by the stop reason: cancelled exactly for the two spellings of it. */
  lemma CancelledExactly(r: PromptResult)
    ensures Classify(r).outcome == CANCELLED <==> Norm(r.stopReason) == "cancelled" || Norm(r.stopReason) == "canceled"
    ensures Norm(r.stopReason) == "end_turn" ==> Classify(r).outcome == COMPLETED || Classify(r).outcome == INCOMPLETE
  {
    hide Norm;
  }

  lemma MalformedIsInvalid(t: ToolCall)
    requires Malformed(t)
    ensures InvalidEvidence(t)
  {
    if !MalformedMetadata(t) && t.states.StateList? {
      var x :| x in StateItems(t.states) && BadState(x);
      assert x in ListedStates(t.states);
    }
  }

  /** Malformed child evidence in any turn of a run, at any position, rules out COMPLETED
      whatever snapshots, turns and recovered evidence follow. */
  lemma MalformedNeverCompletes(history: seq<Contribution>, k: nat, r: PromptResult)
    requires k < |history| && r.toolCalls == Accumulate(history)
    ensures SomeMalformed(Reported(history[k])) ==> Classify(r).outcome != COMPLETED
  {
    hide Malformed, InvalidEvidence, Accumulate, Judge;
    if SomeMalformed(Reported(history[k])) {
      MalformedSurvives(history, k);
      var i :| 0 <= i < |r.toolCalls| && Malformed(r.toolCalls[i]);
      MalformedIsInvalid(r.toolCalls[i]);
      CompletedExactlyWhen(r);
    }
  }
}
