/** src/acp/collaboration.py: folding snapshots of one invocation, and folding a whole
    prompt's snapshots into invocation slots. */
module Collaboration {
  import opened Wrappers
  import opened Strings
  import opened ChildModel
  import opened StateMerge

  // ---- Predicates on one snapshot ----

  predicate BadReceivers(t: ToolCall) {
    !t.receivers.ReceiverList? || exists r :: r in t.receivers.items && StrictSourceId(r).None?
  }

  predicate BadActivity(t: ToolCall) {
    (!Blank(t.source) || !Blank(t.activity))
    && (StrictSourceId(t.source).None? || !KnownActivity(NormField(t.activity)))
  }

  predicate MalformedMetadata(t: ToolCall) {
    t.malformed || t.tool.Other? || BadReceivers(t) || BadActivity(t)
  }

  predicate BadState(raw: StateItem) {
    !Decode(raw).valid
  }

  /** Evidence that must fail closed: bad metadata, or a state entry nobody can attribute. */
  predicate Malformed(t: ToolCall) {
    MalformedMetadata(t) || exists x :: x in StateItems(t.states) && BadState(x)
  }

  function ChildAction(t: ToolCall): string {
    var tool := NormField(t.tool);
    var title := Norm(t.title);
    var activity := NormField(t.activity);
    if tool != "" then tool
    else if KnownAction(title) then title
    else if KnownActivity(activity) then "activity:" + activity
    else ""
  }

  function GenerationOf(t: ToolCall): string {
    if GenerationAction(ChildAction(t)) then ChildAction(t) else ""
  }

  predicate ActivityIsTransient(t: ToolCall) {
    var a := NormField(t.activity);
    a == "started" || a == "interacted" || (a == "interrupted" && Norm(t.status) != "completed")
  }

  predicate UnknownActionHasChildEvidence(t: ToolCall) {
    var tool := NormField(t.tool);
    && tool != "" && !KnownAction(tool)
    && (ReceiverItems(t.receivers) != [] || StateItems(t.states) != [] || Truthy(t.source) || Truthy(t.activity))
  }

  predicate ReopensGeneration(t: ToolCall) {
    GenerationOf(t) != "" || ActivityIsTransient(t) || UnknownActionHasChildEvidence(t)
  }

  predicate HasLifecycleObservation(t: ToolCall) {
    || StateItems(t.states) != [] || ReceiverItems(t.receivers) != [] || !t.receivers.ReceiverList?
    || !Blank(t.source) || !Blank(t.activity) || t.malformed || MalformedMetadata(t)
  }

  predicate ChildRelated(t: ToolCall) {
    ChildAction(t) != "" || HasLifecycleObservation(t)
  }

  // ---- One invocation ----

  function DedupSources(items: seq<Field>): (r: seq<string>)
    ensures Distinct(r)
    ensures forall s :: s in r <==> exists f :: f in items && StrictSourceId(f) == Some(s)
  {
    if items == [] then []
    else
      var rest := DedupSources(items[..|items| - 1]);
      var last := items[|items| - 1];
      var s := StrictSourceId(last);
      assert items == items[..|items| - 1] + [last];
      if s.Some? && s.value !in rest then rest + [s.value] else rest
  }

  function ReceiverFields(sources: seq<string>): (r: seq<Field>)
    ensures |r| == |sources|
    ensures forall i :: 0 <= i < |r| ==> r[i] == Text(sources[i])
  {
    seq(|sources|, i requires 0 <= i < |sources| => Text(sources[i]))
  }

  function NamedSources(t: ToolCall): set<string> {
    (set f | f in ReceiverItems(t.receivers) && StrictSourceId(f).Some? :: StrictSourceId(f).value)
    + (set x | x in StateItems(t.states) && x.Entry? && StrictSourceId(x.source).Some? :: StrictSourceId(x.source).value)
    + (if StrictSourceId(t.source).Some? then {StrictSourceId(t.source).value} else {})
  }

  function SnapshotResets(previous: ToolCall, current: ToolCall): set<string> {
    if (GenerationOf(current) != "" && GenerationOf(previous) != GenerationOf(current))
       || ActivityIsTransient(current) || UnknownActionHasChildEvidence(current)
    then NamedSources(current)
    else {}
  }

  function MergeSnapshot(previous: ToolCall, current: ToolCall): ToolCall {
    current.(
      tool := Either(current.tool, previous.tool),
      receivers := ReceiverList(ReceiverFields(
        DedupSources(ReceiverItems(previous.receivers) + ReceiverItems(current.receivers)))),
      source := Either(current.source, previous.source),
      path := Either(current.path, previous.path),
      activity := Either(current.activity, previous.activity),
      states := MergeStates(previous.states, current.states, SnapshotResets(previous, current)),
      malformed := MalformedMetadata(previous) || MalformedMetadata(current))
  }

  // ---- A whole prompt ----

  datatype Key = Named(id: string) | Generation(id: string, n: nat) | Anonymous(n: nat)

  datatype Slot = Slot(key: Key, call: ToolCall)

  /** The loop state of `merge_tool_call_sequence`; `slots` is the insertion-ordered dictionary. */
  datatype Progress = Progress(
    slots: seq<Slot>,
    anonymous: nat,
    generations: nat,
    active: map<string, Key>,
    seenSinceBoundary: set<string>,
    epoch: nat,
    epochOf: map<string, nat>)

  const START := Progress([], 0, 0, map[], {}, 0, map[])

  function Find(slots: seq<Slot>, key: Key): (r: Option<nat>)
    ensures r.Some? ==> r.value < |slots| && slots[r.value].key == key
    ensures r.None? ==> forall i :: 0 <= i < |slots| ==> slots[i].key != key
  {
    if slots == [] then None
    else if slots[|slots| - 1].key == key then Some(|slots| - 1)
    else Find(slots[..|slots| - 1], key)
  }

  function Store(slots: seq<Slot>, key: Key, call: ToolCall): seq<Slot> {
    match Find(slots, key)
    case Some(i) => slots[i := Slot(key, call)]
    case None => slots + [Slot(key, call)]
  }

  /** Whether `call` opens a new invocation slot although its id was already used. */
  predicate StartsInvocation(p: Progress, previous: ToolCall, crosses: bool, call: ToolCall) {
    var before, now := ChildAction(previous), ChildAction(call);
    var intervening := call.id in p.epochOf && p.epoch > p.epochOf[call.id];
    || (crosses && (ChildRelated(previous) || ChildRelated(call))
        && (GenerationOf(call) != "" || !HasLifecycleObservation(call) || intervening))
    || (before != "" && now != "" && now != before)
    || (before == "" && ReopensGeneration(call))
  }

  function Combine(previous: ToolCall, call: ToolCall): ToolCall {
    if !ChildRelated(previous) && !ChildRelated(call) then call else MergeSnapshot(previous, call)
  }

  datatype Placement = Placement(slot: Key, call: ToolCall, opens: bool)

  function KeyOf(p: Progress, id: string): Key {
    if id in p.active then p.active[id] else Named(id)
  }

  predicate FirstPastBoundary(p: Progress, pastBoundary: bool, call: ToolCall) {
    pastBoundary && call.id !in p.seenSinceBoundary
  }

  /** Where a named snapshot goes and what its slot then holds. */
  function Place(p: Progress, pastBoundary: bool, call: ToolCall): Placement {
    var key := KeyOf(p, call.id);
    var at := Find(p.slots, key);
    if at.None? then Placement(key, call, false)
    else if StartsInvocation(p, p.slots[at.value].call, FirstPastBoundary(p, pastBoundary, call), call) then
      Placement(Generation(call.id, p.generations), call, true)
    else
      Placement(key, Combine(p.slots[at.value].call, call), false)
  }

  function Advance(p: Progress, pastBoundary: bool, call: ToolCall): Progress {
    if call.id == "" then
      p.(slots := Store(p.slots, Anonymous(p.anonymous), call), anonymous := p.anonymous + 1)
    else
      var to := Place(p, pastBoundary, call);
      var epoch := if ChildRelated(call) then p.epoch + 1 else p.epoch;
      p.(slots := Store(p.slots, to.slot, to.call),
         generations := if to.opens then p.generations + 1 else p.generations,
         active := p.active[call.id := to.slot],
         seenSinceBoundary :=
           if FirstPastBoundary(p, pastBoundary, call) then p.seenSinceBoundary + {call.id} else p.seenSinceBoundary,
         epoch := epoch,
         epochOf := p.epochOf[call.id := epoch])
  }

  function Run(calls: seq<ToolCall>, boundary: Option<nat>): Progress {
    if calls == [] then START
    else
      var n := |calls| - 1;
      Advance(Run(calls[..n], boundary), boundary.Some? && n >= boundary.value, calls[n])
  }

  function Calls(slots: seq<Slot>): (r: seq<ToolCall>)
    ensures |r| == |slots|
    ensures forall i :: 0 <= i < |r| ==> r[i] == slots[i].call
  {
    seq(|slots|, i requires 0 <= i < |slots| => slots[i].call)
  }

  function MergeSequence(calls: seq<ToolCall>, boundary: Option<nat>): seq<ToolCall> {
    Calls(Run(calls, boundary).slots)
  }

  /** The ordered dictionary (its keys in insertion order, and its values) holds the slots. */
  ghost predicate Holds(order: seq<Key>, values: map<Key, ToolCall>, slots: seq<Slot>) {
    && |order| == |slots| && Distinct(order)
    && (forall k :: k in values <==> k in order)
    && forall i :: 0 <= i < |slots| ==> order[i] == slots[i].key && order[i] in values && values[order[i]] == slots[i].call
  }

  lemma HoldsFinds(order: seq<Key>, values: map<Key, ToolCall>, slots: seq<Slot>, key: Key)
    requires Holds(order, values, slots)
    ensures key in values <==> Find(slots, key).Some?
    ensures key in values ==> values[key] == slots[Find(slots, key).value].call
  {
    if Find(slots, key).Some? { assert order[Find(slots, key).value] == key; }
  }

  lemma HoldsStores(order: seq<Key>, values: map<Key, ToolCall>, slots: seq<Slot>, key: Key, call: ToolCall)
    requires Holds(order, values, slots)
    ensures Holds(if key in values then order else order + [key], values[key := call], Store(slots, key, call))
  {
    HoldsFinds(order, values, slots, key);
    if key in values {
      var at := Find(slots, key).value;
      forall i | 0 <= i < |order| && i != at ensures order[i] != key { assert order[i] != order[at]; }
    }
  }

  lemma HoldsCalls(order: seq<Key>, values: map<Key, ToolCall>, slots: seq<Slot>)
    requires Holds(order, values, slots)
    ensures |order| == |Calls(slots)|
    ensures forall i :: 0 <= i < |order| ==> order[i] in values && values[order[i]] == Calls(slots)[i]
  {
  }

  lemma NothingRun(boundary: Option<nat>)
    ensures Run([], boundary) == START && Holds([], map[], START.slots)
  {
  }

  lemma RunSnoc(calls: seq<ToolCall>, boundary: Option<nat>, n: nat)
    requires n < |calls|
    ensures Run(calls[..n + 1], boundary) == Advance(Run(calls[..n], boundary), boundary.Some? && n >= boundary.value, calls[n])
  {
    hide Advance;
    assert calls[..n + 1][..n] == calls[..n];
  }

  /** The loop body for a named call: the key of its slot, what the slot then holds, and
      whether it opens a new slot. */
  method PlaceCall(call: ToolCall, crosses: bool, key0: Key, values: map<Key, ToolCall>, generations: nat,
                   epoch: nat, epochOf: map<string, nat>, ghost p: Progress, ghost pastBoundary: bool)
    returns (key: Key, stored: ToolCall, opens: bool)
    requires call.id != "" && key0 == KeyOf(p, call.id)
    requires key0 in values <==> Find(p.slots, key0).Some?
    requires key0 in values ==> values[key0] == p.slots[Find(p.slots, key0).value].call
    requires crosses <==> key0 in values && FirstPastBoundary(p, pastBoundary, call)
    requires generations == p.generations && epoch == p.epoch && epochOf == p.epochOf
    ensures Place(p, pastBoundary, call) == Placement(key, stored, opens)
  {
    hide ChildAction, ReopensGeneration, ChildRelated, HasLifecycleObservation, GenerationOf, MergeSnapshot;
    if key0 !in values { return key0, call, false; }
    var previous := values[key0];
    var before, now := ChildAction(previous), ChildAction(call);
    var actionChanged := before != "" && now != "" && now != before;
    var reopens := before == "" && ReopensGeneration(call);
    var intervening := call.id in epochOf && epoch > epochOf[call.id];
    var boundaryStarts := crosses && (ChildRelated(previous) || ChildRelated(call))
      && (GenerationOf(call) != "" || !HasLifecycleObservation(call) || intervening);
    if boundaryStarts || actionChanged || reopens {
      return Generation(call.id, generations), call, true;
    }
    stored := if !ChildRelated(previous) && !ChildRelated(call) then call else MergeSnapshot(previous, call);
    return key0, stored, false;
  }

  method MergeToolCallSequence(calls: seq<ToolCall>, boundary: Option<nat>) returns (merged: seq<ToolCall>)
    ensures merged == MergeSequence(calls, boundary)
  {
    hide Store, Place, ChildRelated, Run, Holds, Find;
    var order: seq<Key>, values: map<Key, ToolCall> := [], map[];
    var anonymous, generations, epoch := 0, 0, 0;
    var active: map<string, Key>, seen: set<string>, epochOf: map<string, nat> := map[], {}, map[];
    ghost var p := START;
    NothingRun(boundary);
    for index := 0 to |calls|
      invariant p == Run(calls[..index], boundary) && Holds(order, values, p.slots)
      invariant anonymous == p.anonymous && generations == p.generations && epoch == p.epoch
      invariant active == p.active && seen == p.seenSinceBoundary && epochOf == p.epochOf
    {
      var call := calls[index];
      var pastBoundary := boundary.Some? && index >= boundary.value;
      RunSnoc(calls, boundary, index);
      var key, stored := Anonymous(anonymous), call;
      if call.id != "" {
        key := if call.id in active then active[call.id] else Named(call.id);
        HoldsFinds(order, values, p.slots, key);
        var first := pastBoundary && call.id !in seen;
        var opens;
        key, stored, opens := PlaceCall(call, first && key in values, key, values, generations, epoch, epochOf, p, pastBoundary);
        if first { seen := seen + {call.id}; }
        if opens { generations := generations + 1; }
        active := active[call.id := key];
        if ChildRelated(call) { epoch := epoch + 1; }
        epochOf := epochOf[call.id := epoch];
      } else {
        anonymous := anonymous + 1;
      }
      HoldsStores(order, values, p.slots, key, stored);
      if key !in values { order := order + [key]; }
      values := values[key := stored];
      p := Advance(p, pastBoundary, call);
    }
    assert calls[..|calls|] == calls;
    HoldsCalls(order, values, p.slots);
    merged := seq(|order|, i requires 0 <= i < |order| && order[i] in values => values[order[i]]);
  }

  // ---- Malformed evidence is never erased ----

  lemma MergeKeepsBadState(previous: States, current: States, resets: set<string>, x: StateItem)
    requires x in StateItems(previous) || x in StateItems(current)
    requires BadState(x)
    ensures x in StateItems(MergeStates(previous, current, resets))
  {
    var a, b := DecodeAll(StateItems(previous)), DecodeAll(StateItems(current));
    var item := Decode(x);
    assert item in a || item in b by {
      if x in StateItems(previous) {
        var i :| 0 <= i < |StateItems(previous)| && StateItems(previous)[i] == x;
        assert a[i] == item;
      } else {
        var i :| 0 <= i < |StateItems(current)| && StateItems(current)[i] == x;
        assert b[i] == item;
      }
    }
    MergeMeaning(a, b, resets);
    var m := MergeItems(a, b, resets);
    assert item in m;
    var i :| 0 <= i < |m| && m[i] == item;
    assert RawAll(m)[i] == x;
  }

  /** A snapshot merge is malformed as soon as one of its two snapshots is. */
  lemma MergeSnapshotKeepsMalformed(previous: ToolCall, current: ToolCall)
    requires Malformed(previous) || Malformed(current)
    ensures Malformed(MergeSnapshot(previous, current))
  {
    var m := MergeSnapshot(previous, current);
    if !MalformedMetadata(previous) && !MalformedMetadata(current) {
      var x :| (x in StateItems(previous.states) || x in StateItems(current.states)) && BadState(x);
      MergeKeepsBadState(previous.states, current.states, SnapshotResets(previous, current), x);
      assert x in StateItems(m.states);
    }
  }

  lemma MalformedIsChildRelated(t: ToolCall)
    requires Malformed(t)
    ensures ChildRelated(t)
  {
  }

  lemma CombineKeepsMalformed(previous: ToolCall, call: ToolCall)
    requires Malformed(previous) || Malformed(call)
    ensures Malformed(Combine(previous, call))
  {
    if Malformed(previous) { MalformedIsChildRelated(previous); } else { MalformedIsChildRelated(call); }
    MergeSnapshotKeepsMalformed(previous, call);
  }

  ghost predicate SomeMalformed(calls: seq<ToolCall>) {
    exists i :: 0 <= i < |calls| && Malformed(calls[i])
  }

  predicate Issued(p: Progress, key: Key) {
    match key
    case Anonymous(n) => n < p.anonymous
    case Generation(_, n) => n < p.generations
    case Named(_) => true
  }

  /** Slot keys not yet handed out are not in use. */
  ghost predicate FreshKeys(p: Progress) {
    && (forall i :: 0 <= i < |p.slots| ==> Issued(p, p.slots[i].key))
    && (forall id :: id in p.active ==> Issued(p, p.active[id]))
  }

  ghost predicate HasMalformedSlot(slots: seq<Slot>) {
    exists i :: 0 <= i < |slots| && Malformed(slots[i].call)
  }

  /** Storing cannot lose malformed evidence unless it overwrites it with clean evidence. */
  lemma StoreKeepsMalformed(slots: seq<Slot>, key: Key, call: ToolCall)
    requires HasMalformedSlot(slots) || Malformed(call)
    requires Find(slots, key).Some? && Malformed(slots[Find(slots, key).value].call) ==> Malformed(call)
    ensures HasMalformedSlot(Store(slots, key, call))
  {
    var r := Store(slots, key, call);
    var at := Find(slots, key);
    if Malformed(call) {
      assert Malformed(r[if at.Some? then at.value else |slots|].call);
    } else {
      var i :| 0 <= i < |slots| && Malformed(slots[i].call);
      assert r[i] == slots[i];
    }
  }

  lemma PlaceKeepsMalformed(p: Progress, pastBoundary: bool, call: ToolCall)
    requires FreshKeys(p)
    ensures var to := Place(p, pastBoundary, call);
            && (Malformed(call) ==> Malformed(to.call))
            && (Find(p.slots, to.slot).Some? && Malformed(p.slots[Find(p.slots, to.slot).value].call) ==> Malformed(to.call))
  {
    var at := Find(p.slots, KeyOf(p, call.id));
    if at.Some? {
      var previous := p.slots[at.value].call;
      if Malformed(previous) || Malformed(call) { CombineKeepsMalformed(previous, call); }
    }
  }

  lemma AdvanceKeepsFreshKeys(p: Progress, pastBoundary: bool, call: ToolCall)
    requires FreshKeys(p)
    ensures FreshKeys(Advance(p, pastBoundary, call))
  {
    hide StartsInvocation, Combine, ChildRelated;
  }

  lemma AdvanceKeepsMalformed(p: Progress, pastBoundary: bool, call: ToolCall)
    requires FreshKeys(p)
    requires HasMalformedSlot(p.slots) || Malformed(call)
    ensures HasMalformedSlot(Advance(p, pastBoundary, call).slots)
  {
    if call.id == "" {
      StoreKeepsMalformed(p.slots, Anonymous(p.anonymous), call);
    } else {
      var to := Place(p, pastBoundary, call);
      PlaceKeepsMalformed(p, pastBoundary, call);
      StoreKeepsMalformed(p.slots, to.slot, to.call);
    }
  }

  lemma {:induction false} RunKeepsFreshKeys(calls: seq<ToolCall>, boundary: Option<nat>)
    ensures FreshKeys(Run(calls, boundary))
  {
    if calls != [] {
      var n := |calls| - 1;
      RunKeepsFreshKeys(calls[..n], boundary);
      AdvanceKeepsFreshKeys(Run(calls[..n], boundary), boundary.Some? && n >= boundary.value, calls[n]);
    }
  }

  lemma {:induction false} RunKeepsMalformed(calls: seq<ToolCall>, boundary: Option<nat>, i: nat)
    requires i < |calls| && Malformed(calls[i])
    ensures HasMalformedSlot(Run(calls, boundary).slots)
  {
    hide Malformed, Advance;
    var n := |calls| - 1;
    RunKeepsFreshKeys(calls[..n], boundary);
    if i < n { RunKeepsMalformed(calls[..n], boundary, i); }
    AdvanceKeepsMalformed(Run(calls[..n], boundary), boundary.Some? && n >= boundary.value, calls[n]);
  }

  /** Folding a prompt's snapshots, with or without a turn boundary, keeps malformed
      evidence wherever it occurred. */
  lemma MergeSequenceKeepsMalformed(calls: seq<ToolCall>, boundary: Option<nat>)
    requires SomeMalformed(calls)
    ensures SomeMalformed(MergeSequence(calls, boundary))
  {
    var k :| 0 <= k < |calls| && Malformed(calls[k]);
    RunKeepsMalformed(calls, boundary, k);
    var slots := Run(calls, boundary).slots;
    var i :| 0 <= i < |slots| && Malformed(slots[i].call);
    assert MergeSequence(calls, boundary)[i] == slots[i].call;
  }

  // ---- Evidence accumulated over the turns of one run ----

  /** What one turn contributes: the snapshots collected by its prompt, or one recovered
      rollout snapshot appended to what is already known. */
  datatype Contribution = Turn(snapshots: seq<ToolCall>) | Recovered(evidence: ToolCall)

  function Reported(c: Contribution): seq<ToolCall> {
    match c
    case Turn(snapshots) => snapshots
    case Recovered(evidence) => [evidence]
  }

  function MergeTurns(previous: seq<ToolCall>, current: seq<ToolCall>): seq<ToolCall> {
    MergeSequence(previous + current, Some(|previous|))
  }

  /** The tool calls of the result after the given contributions. */
  function Accumulate(history: seq<Contribution>): seq<ToolCall> {
    if history == [] then []
    else
      var before := Accumulate(history[..|history| - 1]);
      match history[|history| - 1]
      case Turn(snapshots) =>
        if |history| == 1 then MergeSequence(snapshots, None) else MergeTurns(before, MergeSequence(snapshots, None))
      case Recovered(evidence) => MergeSequence(before + [evidence], None)
  }

  lemma SomeMalformedConcat(a: seq<ToolCall>, b: seq<ToolCall>)
    requires SomeMalformed(a) || SomeMalformed(b)
    ensures SomeMalformed(a + b)
  {
    if SomeMalformed(a) {
      var i :| 0 <= i < |a| && Malformed(a[i]);
      assert (a + b)[i] == a[i];
    } else {
      var i :| 0 <= i < |b| && Malformed(b[i]);
      assert (a + b)[|a| + i] == b[i];
    }
  }

  /** No later snapshot, turn or recovered evidence erases malformed evidence. */
  lemma {:induction false} MalformedSurvives(history: seq<Contribution>, k: nat)
    requires k < |history| && SomeMalformed(Reported(history[k]))
    ensures SomeMalformed(Accumulate(history))
  {
    hide SomeMalformed, MergeSequence;
    var n := |history| - 1;
    var before := Accumulate(history[..n]);
    if k < n { MalformedSurvives(history[..n], k); }
    match history[n]
    case Turn(snapshots) =>
      var current := MergeSequence(snapshots, None);
      if k == n { MergeSequenceKeepsMalformed(snapshots, None); }
      if n > 0 {
        SomeMalformedConcat(before, current);
        MergeSequenceKeepsMalformed(before + current, Some(|before|));
      }
    case Recovered(evidence) =>
      SomeMalformedConcat(before, [evidence]);
      MergeSequenceKeepsMalformed(before + [evidence], None);
  }
}
