/** What the fold of a whole prompt means (`merge_tool_call_sequence` of
    src/acp/collaboration.py): which snapshots end up in which slot, and what it then holds. */
module SlotFold {
  import opened Wrappers
  import opened ChildModel
  import opened Collaboration

  predicate Past(boundary: Option<nat>, i: nat) {
    boundary.Some? && i >= boundary.value
  }

  /** The slot key of call i. */
  function KeyAt(calls: seq<ToolCall>, boundary: Option<nat>, i: nat): Key
    requires i < |calls|
  {
    var p := Run(calls[..i], boundary);
    if calls[i].id == "" then Anonymous(p.anonymous) else Place(p, Past(boundary, i), calls[i]).slot
  }

  /** The calls placed under a key, in order. */
  function Members(calls: seq<ToolCall>, boundary: Option<nat>, key: Key): seq<ToolCall> {
    if calls == [] then []
    else
      var n := |calls| - 1;
      Members(calls[..n], boundary, key) + (if KeyAt(calls, boundary, n) == key then [calls[n]] else [])
  }

  /** The keys used, in the order of their first call. */
  function KeysInOrder(calls: seq<ToolCall>, boundary: Option<nat>): (r: seq<Key>)
    ensures Distinct(r)
  {
    if calls == [] then []
    else
      var n := |calls| - 1;
      var before, key := KeysInOrder(calls[..n], boundary), KeyAt(calls, boundary, n);
      if key in before then before else before + [key]
  }

  /** The snapshots of one invocation merged one after the other. */
  function MergeAll(calls: seq<ToolCall>): ToolCall
    requires calls != []
  {
    if |calls| == 1 then calls[0] else Combine(MergeAll(calls[..|calls| - 1]), calls[|calls| - 1])
  }

  ghost predicate SlotsAre(slots: seq<Slot>, calls: seq<ToolCall>, boundary: Option<nat>) {
    var keys := KeysInOrder(calls, boundary);
    && |slots| == |keys|
    && (forall j :: 0 <= j < |slots| ==> SlotIs(slots[j], keys[j], Members(calls, boundary, keys[j])))
    && (forall key :: key !in keys ==> Members(calls, boundary, key) == [])
  }

  predicate SlotIs(slot: Slot, key: Key, members: seq<ToolCall>) {
    slot.key == key && members != [] && slot.call == MergeAll(members)
  }

  lemma FreshIsNotFound(p: Progress, key: Key)
    requires FreshKeys(p) && !Issued(p, key)
    ensures Find(p.slots, key).None?
  {
    forall i | 0 <= i < |p.slots| ensures p.slots[i].key != key {}
  }

  /** One call merges into its slot, or opens the slot as it is. */
  lemma AdvanceSlots(p: Progress, pastBoundary: bool, call: ToolCall)
    requires FreshKeys(p)
    ensures var key := if call.id == "" then Anonymous(p.anonymous) else Place(p, pastBoundary, call).slot;
            var at := Find(p.slots, key);
            Advance(p, pastBoundary, call).slots ==
              if at.Some? then p.slots[at.value := Slot(key, Combine(p.slots[at.value].call, call))] else p.slots + [Slot(key, call)]
  {
    hide StartsInvocation, Combine, ChildRelated, FreshKeys, Find, FirstPastBoundary;
    FreshIsNotFound(p, Anonymous(p.anonymous));
    FreshIsNotFound(p, Generation(call.id, p.generations));
  }

  lemma MergeOneMore(members: seq<ToolCall>, call: ToolCall)
    ensures MergeAll(members + [call]) == if members == [] then call else Combine(MergeAll(members), call)
  {
    hide Combine;
    if members != [] { assert (members + [call])[..|members|] == members; }
  }

  lemma {:induction false} SlotsAreFolds(calls: seq<ToolCall>, boundary: Option<nat>)
    ensures SlotsAre(Run(calls, boundary).slots, calls, boundary)
  {
    hide Advance, Combine, Place, KeyAt, FreshKeys, SlotIs;
    if calls != [] {
      var n := |calls| - 1;
      SlotsAreFolds(calls[..n], boundary);
      RunKeepsFreshKeys(calls[..n], boundary);
      StepSlots(calls, boundary);
    }
  }

  /** The key of the last call, as the step from the state before it sees it. */
  lemma LastKey(calls: seq<ToolCall>, boundary: Option<nat>)
    requires calls != []
    ensures var n := |calls| - 1;
            var p := Run(calls[..n], boundary);
            KeyAt(calls, boundary, n) == (if calls[n].id == "" then Anonymous(p.anonymous) else Place(p, Past(boundary, n), calls[n]).slot)
            && Run(calls, boundary) == Advance(p, Past(boundary, n), calls[n])
  {
    hide Advance, Place;
  }

  lemma FoundAt(slots: seq<Slot>, keys: seq<Key>, key: Key)
    requires |slots| == |keys| && Distinct(keys) && forall j :: 0 <= j < |slots| ==> slots[j].key == keys[j]
    ensures Find(slots, key).Some? <==> key in keys
    ensures forall j :: 0 <= j < |keys| ==> (keys[j] == key <==> Find(slots, key) == Some(j))
  {
    assert forall j :: 0 <= j < |keys| && keys[j] == key ==> slots[j].key == key;
  }

  lemma KeysStep(calls: seq<ToolCall>, boundary: Option<nat>)
    requires calls != []
    ensures var n := |calls| - 1;
            var before, key := KeysInOrder(calls[..n], boundary), KeyAt(calls, boundary, n);
            KeysInOrder(calls, boundary) == if key in before then before else before + [key]
  {
    hide KeyAt;
  }

  lemma MembersStep(calls: seq<ToolCall>, boundary: Option<nat>, key: Key)
    requires calls != []
    ensures var n := |calls| - 1;
            var before := Members(calls[..n], boundary, key);
            Members(calls, boundary, key) == if KeyAt(calls, boundary, n) == key then before + [calls[n]] else before
  {
    hide KeyAt;
  }

  /** The slot of the last call, whether it existed before or not. */
  lemma StepSlot(slot: Slot, key: Key, members: seq<ToolCall>, call: ToolCall)
    requires slot.call == if members == [] then call else Combine(MergeAll(members), call)
    requires slot.key == key
    ensures SlotIs(slot, key, members + [call])
  {
    hide Combine;
    MergeOneMore(members, call);
  }

  lemma StepSlotAt(calls: seq<ToolCall>, boundary: Option<nat>, j: nat)
    requires calls != [] && FreshKeys(Run(calls[..|calls| - 1], boundary))
    requires SlotsAre(Run(calls[..|calls| - 1], boundary).slots, calls[..|calls| - 1], boundary)
    requires j < |Run(calls, boundary).slots|
    ensures |Run(calls, boundary).slots| == |KeysInOrder(calls, boundary)|
    ensures SlotIs(Run(calls, boundary).slots[j], KeysInOrder(calls, boundary)[j], Members(calls, boundary, KeysInOrder(calls, boundary)[j]))
  {
    hide Advance, Combine, Place, FreshKeys, Run, Find, MergeAll, KeyAt, KeysInOrder, Members;
    var n := |calls| - 1;
    var p, q := Run(calls[..n], boundary), Run(calls, boundary);
    var key := KeyAt(calls, boundary, n);
    LastKey(calls, boundary);
    AdvanceSlots(p, Past(boundary, n), calls[n]);
    KeysStep(calls, boundary);
    var before, keys := KeysInOrder(calls[..n], boundary), KeysInOrder(calls, boundary);
    FoundAt(p.slots, before, key);
    MembersStep(calls, boundary, keys[j]);
    if j < |before| { assert SlotIs(p.slots[j], before[j], Members(calls[..n], boundary, before[j])); }
    if keys[j] == key {
      assert j < |before| ==> Find(p.slots, key) == Some(j);
      assert j == |before| ==> Members(calls[..n], boundary, key) == [];
      StepSlot(q.slots[j], key, Members(calls[..n], boundary, key), calls[n]);
    }
  }

  lemma StepSlots(calls: seq<ToolCall>, boundary: Option<nat>)
    requires calls != [] && FreshKeys(Run(calls[..|calls| - 1], boundary))
    requires SlotsAre(Run(calls[..|calls| - 1], boundary).slots, calls[..|calls| - 1], boundary)
    ensures SlotsAre(Run(calls, boundary).slots, calls, boundary)
  {
    hide Advance, Combine, Place, FreshKeys, Run, Find, MergeAll, KeyAt, KeysInOrder, Members, SlotIs;
    var n := |calls| - 1;
    LastKey(calls, boundary);
    AdvanceSlots(Run(calls[..n], boundary), Past(boundary, n), calls[n]);
    KeysStep(calls, boundary);
    var slots, keys := Run(calls, boundary).slots, KeysInOrder(calls, boundary);
    assert slots != [];
    StepSlotAt(calls, boundary, 0);
    forall j | 0 <= j < |slots| ensures SlotIs(slots[j], keys[j], Members(calls, boundary, keys[j])) { StepSlotAt(calls, boundary, j); }
    forall k | k !in keys ensures Members(calls, boundary, k) == [] { MembersStep(calls, boundary, k); }
  }

  /** The fold of a prompt: one result per slot, slots in the order of their first snapshot,
      each the in-order merge of exactly the snapshots placed there. */
  lemma SequenceMeaning(calls: seq<ToolCall>, boundary: Option<nat>)
    ensures |MergeSequence(calls, boundary)| == |KeysInOrder(calls, boundary)|
    ensures forall j :: 0 <= j < |KeysInOrder(calls, boundary)| ==>
              var members := Members(calls, boundary, KeysInOrder(calls, boundary)[j]);
              members != [] && MergeSequence(calls, boundary)[j] == MergeAll(members)
  {
    hide Run, Members, MergeAll, KeysInOrder;
    SlotsAreFolds(calls, boundary);
  }

  // ---- Who shares a slot ----

  predicate BelongsTo(key: Key, id: string) {
    match key
    case Named(i) => i == id
    case Generation(i, _) => i == id
    case Anonymous(_) => false
  }

  ghost predicate ActiveOk(p: Progress) {
    forall id :: id in p.active ==> BelongsTo(p.active[id], id)
  }

  lemma PlaceBelongs(p: Progress, pastBoundary: bool, call: ToolCall)
    requires ActiveOk(p)
    ensures BelongsTo(Place(p, pastBoundary, call).slot, call.id)
  {
    hide StartsInvocation, Combine, Find;
  }

  lemma {:induction false} RunKeepsActive(calls: seq<ToolCall>, boundary: Option<nat>)
    ensures ActiveOk(Run(calls, boundary))
  {
    hide Place, ChildRelated, Store;
    if calls != [] {
      var n := |calls| - 1;
      RunKeepsActive(calls[..n], boundary);
      PlaceBelongs(Run(calls[..n], boundary), Past(boundary, n), calls[n]);
    }
  }

  ghost predicate MembersOk(key: Key, members: seq<ToolCall>, anonymous: nat) {
    if key.Anonymous? then
      |members| <= 1 && (members != [] ==> members[0].id == "" && key.n < anonymous)
    else
      forall i :: 0 <= i < |members| ==> members[i].id != "" && BelongsTo(key, members[i].id)
  }

  lemma AdvanceAnonymous(p: Progress, pastBoundary: bool, call: ToolCall)
    ensures Advance(p, pastBoundary, call).anonymous == p.anonymous + (if call.id == "" then 1 else 0)
  {
  }

  lemma MembersOkExtends(key: Key, members: seq<ToolCall>, call: ToolCall, before: nat, after: nat)
    requires MembersOk(key, members, before) && before <= after
    requires if key.Anonymous? then call.id == "" && key.n == before < after else call.id != "" && BelongsTo(key, call.id)
    ensures MembersOk(key, members + [call], after)
  {
    hide BelongsTo;
  }

  /** The snapshots that share a slot carry its id; an anonymous call shares its slot with none. */
  lemma {:induction false} MembersShareTheId(calls: seq<ToolCall>, boundary: Option<nat>, key: Key)
    ensures MembersOk(key, Members(calls, boundary, key), Run(calls, boundary).anonymous)
  {
    hide Place, KeyAt, Advance, BelongsTo, Run;
    if calls != [] {
      var n := |calls| - 1;
      var p := Run(calls[..n], boundary);
      MembersShareTheId(calls[..n], boundary, key);
      LastKey(calls, boundary);
      AdvanceAnonymous(p, Past(boundary, n), calls[n]);
      LastBelongs(calls, boundary);
      if KeyAt(calls, boundary, n) == key {
        MembersOkExtends(key, Members(calls[..n], boundary, key), calls[n], p.anonymous, Run(calls, boundary).anonymous);
      }
    }
  }

  lemma LastBelongs(calls: seq<ToolCall>, boundary: Option<nat>)
    requires calls != []
    ensures var n := |calls| - 1;
            var key := KeyAt(calls, boundary, n);
            if calls[n].id == "" then key == Anonymous(Run(calls[..n], boundary).anonymous) else BelongsTo(key, calls[n].id) && !key.Anonymous?
  {
    hide Place, Run;
    var n := |calls| - 1;
    RunKeepsActive(calls[..n], boundary);
    if calls[n].id != "" { PlaceBelongs(Run(calls[..n], boundary), Past(boundary, n), calls[n]); }
  }

  /** No call is lost: call i is one of the members of its slot, and its slot is in the result. */
  lemma {:induction false} EveryCallIsPlaced(calls: seq<ToolCall>, boundary: Option<nat>, i: nat)
    requires i < |calls|
    ensures calls[i] in Members(calls, boundary, KeyAt(calls, boundary, i))
    ensures KeyAt(calls, boundary, i) in KeysInOrder(calls, boundary)
  {
    hide Place, Run;
    var n := |calls| - 1;
    if i < n {
      EveryCallIsPlaced(calls[..n], boundary, i);
      assert calls[..n][..i] == calls[..i];
    }
  }

  /** An anonymous call is kept verbatim in a slot of its own. */
  lemma AnonymousIsKept(calls: seq<ToolCall>, boundary: Option<nat>, i: nat)
    requires i < |calls| && calls[i].id == ""
    ensures Members(calls, boundary, KeyAt(calls, boundary, i)) == [calls[i]]
    ensures calls[i] in MergeSequence(calls, boundary)
  {
    hide Run, Members, KeysInOrder, Place, MergeSequence;
    var key := KeyAt(calls, boundary, i);
    EveryCallIsPlaced(calls, boundary, i);
    MembersShareTheId(calls, boundary, key);
    SequenceMeaning(calls, boundary);
    var j :| 0 <= j < |KeysInOrder(calls, boundary)| && KeysInOrder(calls, boundary)[j] == key;
    assert Members(calls, boundary, key) == [calls[i]];
    assert MergeSequence(calls, boundary)[j] == calls[i];
  }

  // ---- When two snapshots of one id share a slot ----

  /** j is the last call before position n with the given id. */
  ghost predicate LastWithId(calls: seq<ToolCall>, n: nat, id: string, j: int) {
    && n <= |calls| && 0 <= j < n && calls[j].id == id
    && forall m :: j < m < n ==> calls[m].id != id
  }

  /** Some named call from position m up to n speaks about children. */
  ghost predicate ChildCallFrom(calls: seq<ToolCall>, m: nat, n: nat)
    requires n <= |calls|
  {
    exists k :: m <= k < n && calls[k].id != "" && ChildRelated(calls[k])
  }

  /** The id is used again for the first time past the turn boundary, by or for a child call
      that starts a generation, says nothing about a child, or comes after other child calls. */
  ghost predicate ReusedPastBoundary(calls: seq<ToolCall>, boundary: Option<nat>, i: nat, j: nat, merged: ToolCall)
    requires j < i < |calls|
  {
    var c := calls[i];
    && boundary.Some? && boundary.value <= i && (forall m :: boundary.value <= m < i ==> calls[m].id != c.id)
    && (ChildRelated(merged) || ChildRelated(c))
    && (GenerationOf(c) != "" || !HasLifecycleObservation(c) || ChildCallFrom(calls, j + 1, i))
  }

  predicate ActionChanges(merged: ToolCall, c: ToolCall) {
    ChildAction(merged) != "" && ChildAction(c) != "" && ChildAction(merged) != ChildAction(c)
  }

  predicate ReopensUndeclared(merged: ToolCall, c: ToolCall) {
    ChildAction(merged) == "" && ReopensGeneration(c)
  }

  function ChildCalls(calls: seq<ToolCall>): nat {
    if calls == [] then 0
    else ChildCalls(calls[..|calls| - 1]) + (if calls[|calls| - 1].id != "" && ChildRelated(calls[|calls| - 1]) then 1 else 0)
  }

  /** What the loop variables know about an id: its last slot, the epoch there, and whether it
      was seen past the boundary. */
  ghost predicate Knows(p: Progress, calls: seq<ToolCall>, boundary: Option<nat>, id: string) {
    && p.epoch == ChildCalls(calls)
    && (id in p.seenSinceBoundary <==> boundary.Some? && exists m :: boundary.value <= m < |calls| && calls[m].id == id)
    && (forall j :: LastWithId(calls, |calls|, id, j) ==> KnowsLast(p, calls, boundary, id, j))
  }

  ghost predicate KnowsLast(p: Progress, calls: seq<ToolCall>, boundary: Option<nat>, id: string, j: nat)
    requires j < |calls|
  {
    && id in p.active && p.active[id] == KeyAt(calls, boundary, j)
    && id in p.epochOf && p.epochOf[id] == ChildCalls(calls[..j + 1])
  }

  lemma AdvanceFields(p: Progress, past: bool, call: ToolCall)
    ensures var q := Advance(p, past, call);
            && q.epoch == p.epoch + (if call.id != "" && ChildRelated(call) then 1 else 0)
            && (call.id == "" ==> q.active == p.active && q.epochOf == p.epochOf && q.seenSinceBoundary == p.seenSinceBoundary)
            && (call.id != "" ==>
                  && q.active == p.active[call.id := Place(p, past, call).slot] && q.epochOf == p.epochOf[call.id := q.epoch]
                  && q.seenSinceBoundary == p.seenSinceBoundary + (if past then {call.id} else {}))
  {
    hide Place, Store, ChildRelated;
  }

  lemma KeyAtPrefix(calls: seq<ToolCall>, boundary: Option<nat>, n: nat, j: nat)
    requires j < n <= |calls|
    ensures KeyAt(calls[..n], boundary, j) == KeyAt(calls, boundary, j)
  {
    assert calls[..n][..j] == calls[..j];
  }

  lemma ChildCallsLast(calls: seq<ToolCall>)
    requires calls != []
    ensures ChildCalls(calls) == ChildCalls(calls[..|calls| - 1]) + (if calls[|calls| - 1].id != "" && ChildRelated(calls[|calls| - 1]) then 1 else 0)
  {
  }

  lemma {:induction false} RunKnows(calls: seq<ToolCall>, boundary: Option<nat>, id: string)
    requires id != ""
    ensures Knows(Run(calls, boundary), calls, boundary, id)
  {
    if calls != [] {
      hide Advance, Place, ChildRelated, Run, KeyAt, ChildCalls, KnowsLast;
      var n := |calls| - 1;
      var p, q := Run(calls[..n], boundary), Run(calls, boundary);
      RunKnows(calls[..n], boundary, id);
      LastKey(calls, boundary);
      AdvanceFields(p, Past(boundary, n), calls[n]);
      ChildCallsLast(calls);
      KnowsSeen(calls, boundary, id);
      forall j | LastWithId(calls, |calls|, id, j) ensures KnowsLast(q, calls, boundary, id, j) { KnowsLastStep(calls, boundary, id, j); }
    }
  }

  lemma KnowsLastStep(calls: seq<ToolCall>, boundary: Option<nat>, id: string, j: nat)
    requires calls != [] && id != "" && LastWithId(calls, |calls|, id, j)
    requires Knows(Run(calls[..|calls| - 1], boundary), calls[..|calls| - 1], boundary, id)
    requires Run(calls, boundary).epoch == ChildCalls(calls)
    ensures KnowsLast(Run(calls, boundary), calls, boundary, id, j)
  {
    hide Advance, Place, ChildRelated, Run, KeyAt, ChildCalls;
    var n := |calls| - 1;
    LastKey(calls, boundary);
    AdvanceFields(Run(calls[..n], boundary), Past(boundary, n), calls[n]);
    if j < n {
      assert LastWithId(calls[..n], n, id, j);
      KeyAtPrefix(calls, boundary, n, j);
      assert calls[..n][..j + 1] == calls[..j + 1];
    } else {
      assert calls[..n + 1] == calls;
    }
  }

  lemma KnowsSeen(calls: seq<ToolCall>, boundary: Option<nat>, id: string)
    requires calls != []
    ensures var n := |calls| - 1;
            (boundary.Some? && exists m :: boundary.value <= m < |calls| && calls[m].id == id) <==>
            (boundary.Some? && exists m :: boundary.value <= m < n && calls[..n][m].id == id) || (Past(boundary, n) && calls[n].id == id)
  {
    var n := |calls| - 1;
    if boundary.Some? {
      if m :| boundary.value <= m < |calls| && calls[m].id == id { assert m < n ==> calls[..n][m].id == id; }
      if m :| boundary.value <= m < n && calls[..n][m].id == id { assert calls[m].id == id; }
    }
  }

  lemma {:induction false} ChildCallsGrow(calls: seq<ToolCall>, m: nat, n: nat)
    requires m <= n <= |calls|
    ensures ChildCalls(calls[..m]) <= ChildCalls(calls[..n])
    ensures ChildCalls(calls[..m]) < ChildCalls(calls[..n]) <==> ChildCallFrom(calls, m, n)
    decreases n
  {
    hide ChildRelated;
    if m < n {
      ChildCallsGrow(calls, m, n - 1);
      ChildCallsLast(calls[..n]);
      assert calls[..n][..n - 1] == calls[..n - 1];
      if ChildCallFrom(calls, m, n - 1) {
        var k :| m <= k < n - 1 && calls[k].id != "" && ChildRelated(calls[k]);
      }
    }
  }

  /** A snapshot goes into the slot of the last one with its id exactly if the action does not
      change, no action-less invocation reopens, and the id is not reused past the boundary;
      otherwise it opens a slot of its own. All three are about the calls and what the slot
      holds so far. */
  lemma SharesSlotExactly(calls: seq<ToolCall>, boundary: Option<nat>, i: nat, j: nat)
    requires i < |calls| && calls[i].id != "" && LastWithId(calls, i, calls[i].id, j)
    ensures Members(calls[..i], boundary, KeyAt(calls, boundary, j)) != []
    ensures var merged := MergeAll(Members(calls[..i], boundary, KeyAt(calls, boundary, j)));
            KeyAt(calls, boundary, i) == KeyAt(calls, boundary, j) <==>
            !ActionChanges(merged, calls[i]) && !ReopensUndeclared(merged, calls[i]) && !ReusedPastBoundary(calls, boundary, i, j, merged)
    ensures KeyAt(calls, boundary, i) != KeyAt(calls, boundary, j) ==> Members(calls[..i], boundary, KeyAt(calls, boundary, i)) == []
  {
    hide Members, MergeAll, KeysInOrder, Run, ChildRelated, ReopensGeneration, GenerationOf, ChildAction, HasLifecycleObservation, Find, KeyAt, Combine;
    var p, c := Run(calls[..i], boundary), calls[i];
    var key := KeyAt(calls, boundary, j);
    RunKnows(calls[..i], boundary, c.id);
    assert LastWithId(calls[..i], i, c.id, j);
    KeyAtPrefix(calls, boundary, i, j);
    assert calls[..i][..j + 1] == calls[..j + 1];
    SlotHolds(calls[..i], boundary, j);
    RunKeepsFreshKeys(calls[..i], boundary);
    KeyOfCall(calls, boundary, i);
    ChildCallsGrow(calls, j + 1, i);
    FreshIsNotFound(p, Generation(c.id, p.generations));
    FreshHasNoMembers(calls[..i], boundary, Generation(c.id, p.generations));
    forall m | 0 <= m < i ensures calls[..i][m] == calls[m] {}
  }

  lemma KeyOfCall(calls: seq<ToolCall>, boundary: Option<nat>, i: nat)
    requires i < |calls| && calls[i].id != ""
    ensures KeyAt(calls, boundary, i) == Place(Run(calls[..i], boundary), Past(boundary, i), calls[i]).slot
  {
    hide Place, Run;
  }

  /** The slot of call j is there and holds the merge of its members. */
  lemma SlotHolds(calls: seq<ToolCall>, boundary: Option<nat>, j: nat)
    requires j < |calls|
    ensures var key, slots := KeyAt(calls, boundary, j), Run(calls, boundary).slots;
            && Members(calls, boundary, key) != [] && Find(slots, key).Some?
            && slots[Find(slots, key).value].call == MergeAll(Members(calls, boundary, key))
  {
    hide Run, KeyAt, Members, KeysInOrder, MergeAll, Find;
    var key, slots, keys := KeyAt(calls, boundary, j), Run(calls, boundary).slots, KeysInOrder(calls, boundary);
    SlotsAreFolds(calls, boundary);
    EveryCallIsPlaced(calls, boundary, j);
    assert forall k :: 0 <= k < |slots| ==> SlotIs(slots[k], keys[k], Members(calls, boundary, keys[k]));
    FoundAt(slots, keys, key);
    var k :| 0 <= k < |keys| && keys[k] == key;
    assert SlotIs(slots[k], keys[k], Members(calls, boundary, keys[k]));
  }

  lemma FreshHasNoMembers(calls: seq<ToolCall>, boundary: Option<nat>, key: Key)
    requires Find(Run(calls, boundary).slots, key).None?
    ensures Members(calls, boundary, key) == []
  {
    hide Run, KeyAt, Members, KeysInOrder, MergeAll, Find;
    SlotsAreFolds(calls, boundary);
    var slots, keys := Run(calls, boundary).slots, KeysInOrder(calls, boundary);
    assert forall k :: 0 <= k < |slots| ==> SlotIs(slots[k], keys[k], Members(calls, boundary, keys[k]));
    FoundAt(slots, keys, key);
  }

  /** The first snapshot of an id opens its slot. */
  lemma FirstOpensSlot(calls: seq<ToolCall>, boundary: Option<nat>, i: nat)
    requires i < |calls| && calls[i].id != "" && forall m :: 0 <= m < i ==> calls[m].id != calls[i].id
    ensures Members(calls[..i], boundary, KeyAt(calls, boundary, i)) == []
  {
    hide Run, Place, KeyAt, Members;
    var key := KeyAt(calls, boundary, i);
    KeyOfCall(calls, boundary, i);
    RunKeepsActive(calls[..i], boundary);
    PlaceBelongs(Run(calls[..i], boundary), Past(boundary, i), calls[i]);
    assert forall m :: 0 <= m < i ==> calls[..i][m].id != calls[i].id;
    if Members(calls[..i], boundary, key) != [] { var m := MemberWithId(calls[..i], boundary, key, calls[i].id); }
  }

  lemma MemberWithId(calls: seq<ToolCall>, boundary: Option<nat>, key: Key, id: string) returns (m: nat)
    requires BelongsTo(key, id) && Members(calls, boundary, key) != []
    ensures m < |calls| && calls[m].id == id
  {
    hide Run, KeyAt, Members;
    MembersShareTheId(calls, boundary, key);
    MembersAreCalls(calls, boundary, key);
    var member := Members(calls, boundary, key)[0];
    m :| 0 <= m < |calls| && calls[m] == member;
  }

  lemma {:induction false} MembersAreCalls(calls: seq<ToolCall>, boundary: Option<nat>, key: Key)
    ensures forall k :: 0 <= k < |Members(calls, boundary, key)| ==> Members(calls, boundary, key)[k] in calls
  {
    hide KeyAt;
    if calls != [] {
      MembersAreCalls(calls[..|calls| - 1], boundary, key);
      assert forall c :: c in calls[..|calls| - 1] ==> c in calls;
    }
  }

  // ---- What a slot holds ----

  /** The last field that says something, or Absent. */
  function LastSaid(fields: seq<Field>): Field {
    if fields == [] then Absent
    else if Truthy(fields[|fields| - 1]) then fields[|fields| - 1]
    else LastSaid(fields[..|fields| - 1])
  }

  function SourcesOf(members: seq<ToolCall>): (r: seq<Field>)
    ensures |r| == |members|
    ensures forall i :: 0 <= i < |r| ==> r[i] == members[i].source
  {
    seq(|members|, i requires 0 <= i < |members| => members[i].source)
  }

  function ActivitiesOf(members: seq<ToolCall>): (r: seq<Field>)
    ensures |r| == |members|
    ensures forall i :: 0 <= i < |r| ==> r[i] == members[i].activity
  {
    seq(|members|, i requires 0 <= i < |members| => members[i].activity)
  }

  /** f is what was said last; where nothing was said, f says nothing. */
  predicate SaysLast(f: Field, fields: seq<Field>) {
    if Truthy(LastSaid(fields)) then f == LastSaid(fields) else !Truthy(f)
  }

  lemma SaysLastExtends(f: Field, fields: seq<Field>, next: Field)
    requires SaysLast(f, fields)
    ensures SaysLast(Either(next, f), fields + [next])
    ensures !Truthy(f) ==> SaysLast(next, fields + [next])
  {
    assert (fields + [next])[..|fields|] == fields;
  }

  /** A call that has nothing to do with children names none and declares no action. */
  lemma UnrelatedSaysNothing(c: ToolCall)
    requires !ChildRelated(c)
    ensures !Truthy(c.source) && !Truthy(c.activity) && NormField(c.tool) == "" && ReceiverItems(c.receivers) == [] && !MalformedMetadata(c)
  {
  }

  ghost predicate ReceivedBy(c: ToolCall, s: string) {
    exists f :: f in ReceiverItems(c.receivers) && StrictSourceId(f) == Some(s)
  }

  /** What the merge of a slot's snapshots says: id, title and status of the last one; tool,
      child source and activity as they were last given; every receiver of any of them; and
      malformed exactly if one of them is. */
  ghost predicate SlotSays(m: ToolCall, members: seq<ToolCall>)
    requires members != []
  {
    var last := members[|members| - 1];
    && m.id == last.id && m.title == last.title && m.status == last.status
    && SaysLast(m.source, SourcesOf(members)) && SaysLast(m.activity, ActivitiesOf(members))
    && (NormField(last.tool) != "" ==> m.tool == last.tool)
    && (forall s :: ReceivedBy(m, s) <==> ReceivedByAny(members, s))
    && (MalformedMetadata(m) <==> AnyBadMetadata(members))
  }

  ghost predicate ReceivedByAny(members: seq<ToolCall>, s: string) {
    exists i :: 0 <= i < |members| && ReceivedBy(members[i], s)
  }

  ghost predicate AnyBadMetadata(members: seq<ToolCall>) {
    exists i :: 0 <= i < |members| && MalformedMetadata(members[i])
  }

  lemma AnyExtends(members: seq<ToolCall>, call: ToolCall)
    ensures AnyBadMetadata(members + [call]) <==> AnyBadMetadata(members) || MalformedMetadata(call)
    ensures forall s :: ReceivedByAny(members + [call], s) <==> ReceivedByAny(members, s) || ReceivedBy(call, s)
    ensures SourcesOf(members + [call]) == SourcesOf(members) + [call.source]
    ensures ActivitiesOf(members + [call]) == ActivitiesOf(members) + [call.activity]
  {
    hide MalformedMetadata, ReceivedBy;
    var all := members + [call];
    assert all[|members|] == call && forall i :: 0 <= i < |members| ==> all[i] == members[i];
    if i :| 0 <= i < |members| && MalformedMetadata(members[i]) { assert MalformedMetadata(all[i]); }
    forall s ensures ReceivedByAny(all, s) <==> ReceivedByAny(members, s) || ReceivedBy(call, s) {
      if i :| 0 <= i < |members| && ReceivedBy(members[i], s) { assert ReceivedBy(all[i], s); }
      if ReceivedBy(call, s) { assert ReceivedBy(all[|members|], s); }
    }
  }

  lemma MergedReceivers(a: ToolCall, b: ToolCall, s: string)
    ensures ReceivedBy(MergeSnapshot(a, b), s) <==> ReceivedBy(a, s) || ReceivedBy(b, s)
  {
    hide StrictSourceId;
    var both := ReceiverItems(a.receivers) + ReceiverItems(b.receivers);
    var names := DedupSources(both);
    DedupReads(names, s, both);
    assert ReceiverItems(MergeSnapshot(a, b).receivers) == ReceiverFields(names);
  }

  /** The names of a merge read back as themselves. */
  lemma DedupReads(names: seq<string>, s: string, items: seq<Field>)
    requires names == DedupSources(items)
    ensures (exists f :: f in ReceiverFields(names) && StrictSourceId(f) == Some(s)) <==> s in names
    ensures forall f :: f in ReceiverFields(names) ==> StrictSourceId(f).Some?
  {
    hide DedupSources, StrictSourceId;
    var fields := ReceiverFields(names);
    forall i | 0 <= i < |names| ensures StrictSourceId(fields[i]) == Some(names[i]) {
      assert names[i] in names;
      var f :| f in items && StrictSourceId(f) == Some(names[i]);
      NameReads(f);
    }
    if s in names {
      var i :| 0 <= i < |names| && names[i] == s;
      assert fields[i] in fields;
    }
  }

  lemma NameReads(f: Field)
    requires StrictSourceId(f).Some?
    ensures StrictSourceId(Text(StrictSourceId(f).value)) == StrictSourceId(f)
  {
  }

  lemma MergedMetadata(a: ToolCall, b: ToolCall)
    ensures MalformedMetadata(MergeSnapshot(a, b)) <==> MalformedMetadata(a) || MalformedMetadata(b)
  {
    var both := ReceiverItems(a.receivers) + ReceiverItems(b.receivers);
    DedupReads(DedupSources(both), "", both);
    hide DedupSources, StrictSourceId, NormField;
    var m := MergeSnapshot(a, b);
    assert !BadReceivers(m) by {
      assert m.receivers.items == ReceiverFields(DedupSources(both));
    }
    if !MalformedMetadata(a) && !MalformedMetadata(b) { CleanActivities(a, b); }
  }

  /** Two clean reports of activity, one over the other, make a clean one. */
  lemma CleanActivities(a: ToolCall, b: ToolCall)
    requires !BadActivity(a) && !BadActivity(b)
    ensures !BadActivity(MergeSnapshot(a, b))
  {
    hide KnownActivity;
    assert !KnownActivity("") by { NothingIsNoActivity(); }
  }

  lemma NothingIsNoActivity()
    ensures !KnownActivity("")
  {
  }

  lemma MergedFields(a: ToolCall, b: ToolCall)
    ensures var c := MergeSnapshot(a, b);
            && c.id == b.id && c.title == b.title && c.status == b.status
            && c.tool == Either(b.tool, a.tool) && c.source == Either(b.source, a.source) && c.activity == Either(b.activity, a.activity)
  {
  }

  lemma SlotSaysUnrelated(m: ToolCall, members: seq<ToolCall>, call: ToolCall)
    requires members != [] && SlotSays(m, members) && !ChildRelated(m) && !ChildRelated(call)
    ensures SlotSays(call, members + [call])
  {
    hide MalformedMetadata, ReceivedBy, ReceivedByAny, AnyBadMetadata, ChildRelated, SaysLast, NormField, ReceiverItems;
    AnyExtends(members, call);
    SaysLastExtends(m.source, SourcesOf(members), call.source);
    SaysLastExtends(m.activity, ActivitiesOf(members), call.activity);
    UnrelatedSaysNothing(m);
    UnrelatedSaysNothing(call);
    NobodyReceived(m);
  }

  lemma SlotSaysRelated(m: ToolCall, members: seq<ToolCall>, call: ToolCall)
    requires members != [] && SlotSays(m, members)
    ensures SlotSays(MergeSnapshot(m, call), members + [call])
  {
    hide MalformedMetadata, ReceivedBy, ReceivedByAny, AnyBadMetadata, SaysLast, NormField, MergeSnapshot;
    AnyExtends(members, call);
    MergedFields(m, call);
    SaysLastExtends(m.source, SourcesOf(members), call.source);
    SaysLastExtends(m.activity, ActivitiesOf(members), call.activity);
    forall s ensures ReceivedBy(MergeSnapshot(m, call), s) <==> ReceivedBy(m, s) || ReceivedBy(call, s) { MergedReceivers(m, call, s); }
    MergedMetadata(m, call);
    DeclaredIsTruthy(call.tool);
  }

  lemma SlotSaysMore(m: ToolCall, members: seq<ToolCall>, call: ToolCall)
    requires members != [] && SlotSays(m, members)
    ensures SlotSays(Combine(m, call), members + [call])
  {
    hide SlotSays, ChildRelated, MergeSnapshot;
    if !ChildRelated(m) && !ChildRelated(call) { SlotSaysUnrelated(m, members, call); } else { SlotSaysRelated(m, members, call); }
  }

  lemma NobodyReceived(c: ToolCall)
    requires ReceiverItems(c.receivers) == []
    ensures forall s :: !ReceivedBy(c, s)
  {
  }

  lemma DeclaredIsTruthy(f: Field)
    ensures NormField(f) != "" ==> Truthy(f)
  {
  }

  /** Every slot says what SlotSays says of its members. */
  lemma {:induction false} SlotsSay(members: seq<ToolCall>)
    requires members != []
    ensures SlotSays(MergeAll(members), members)
  {
    hide Combine, SlotSays;
    var n := |members| - 1;
    if n == 0 {
      OneSays(members);
    } else {
      SlotsSay(members[..n]);
      SlotSaysMore(MergeAll(members[..n]), members[..n], members[n]);
      assert members[..n] + [members[n]] == members;
    }
  }

  function PathsOf(members: seq<ToolCall>): (r: seq<Field>)
    ensures |r| == |members|
    ensures forall i :: 0 <= i < |r| ==> r[i] == members[i].path
  {
    seq(|members|, i requires 0 <= i < |members| => members[i].path)
  }

  /** The path of a slot about children is the one given last. */
  lemma {:induction false} SlotPath(members: seq<ToolCall>)
    requires members != [] && forall i :: 0 <= i < |members| ==> ChildRelated(members[i])
    ensures SaysLast(MergeAll(members).path, PathsOf(members))
  {
    hide ChildRelated, SaysLast, Combine;
    var n := |members| - 1;
    SaysNothingYet();
    if n == 0 {
      SaysLastExtends(Absent, [], members[0].path);
      assert PathsOf(members) == [] + [members[0].path];
    } else {
      SlotPath(members[..n]);
      var m := MergeAll(members[..n]);
      CombinedPath(m, members[n]);
      SaysLastExtends(m.path, PathsOf(members[..n]), members[n].path);
      assert PathsOf(members) == PathsOf(members[..n]) + [members[n].path];
    }
  }

  lemma CombinedPath(m: ToolCall, call: ToolCall)
    requires ChildRelated(call)
    ensures Combine(m, call).path == Either(call.path, m.path)
  {
    hide ChildRelated;
  }

  lemma OneSays(members: seq<ToolCall>)
    requires |members| == 1
    ensures SlotSays(MergeAll(members), members)
  {
    hide MalformedMetadata, ReceivedBy, SaysLast;
    var c := members[0];
    SaysNothingYet();
    SaysLastExtends(Absent, [], c.source);
    SaysLastExtends(Absent, [], c.activity);
    assert SourcesOf(members) == [] + [c.source] && ActivitiesOf(members) == [] + [c.activity];
    if MalformedMetadata(c) { assert MalformedMetadata(members[0]); }
    forall s ensures ReceivedBy(c, s) <==> ReceivedByAny(members, s) {
      if ReceivedBy(c, s) { assert ReceivedBy(members[0], s); }
    }
  }

  lemma SaysNothingYet()
    ensures SaysLast(Absent, []) && !Truthy(Absent)
  {
  }

  /** A snapshot that declares another action than the tool of the last one with its id never
      joins that one's slot, boundary or not. */
  lemma ToolChangeSplits(calls: seq<ToolCall>, boundary: Option<nat>, i: nat, j: nat)
    requires i < |calls| && calls[i].id != "" && LastWithId(calls, i, calls[i].id, j)
    requires NormField(calls[j].tool) != "" && ChildAction(calls[i]) != "" && ChildAction(calls[i]) != NormField(calls[j].tool)
    ensures KeyAt(calls, boundary, i) != KeyAt(calls, boundary, j)
  {
    hide Members, MergeAll, Run, ChildRelated, ReopensGeneration, GenerationOf, HasLifecycleObservation, KeyAt, Combine, NormField, SlotSays;
    SharesSlotExactly(calls, boundary, i, j);
    var members := Members(calls[..i], boundary, KeyAt(calls, boundary, j));
    SlotsSay(members);
    LastMember(calls, boundary, i, j);
    ToolIsSaid(members);
  }

  lemma ToolIsSaid(members: seq<ToolCall>)
    requires members != [] && SlotSays(MergeAll(members), members) && NormField(members[|members| - 1].tool) != ""
    ensures ChildAction(MergeAll(members)) == NormField(members[|members| - 1].tool)
  {
    hide MergeAll;
  }

  /** The last snapshot with an id is the last member of its slot. */
  lemma LastMember(calls: seq<ToolCall>, boundary: Option<nat>, i: nat, j: nat)
    requires i <= |calls| && j < i && calls[j].id != "" && LastWithId(calls, i, calls[j].id, j)
    ensures var members := Members(calls[..i], boundary, KeyAt(calls, boundary, j));
            members != [] && members[|members| - 1] == calls[j]
    decreases i
  {
    hide Run, Place, KeyAt;
    var key := KeyAt(calls, boundary, j);
    MembersStep(calls[..i], boundary, key);
    assert calls[..i][..i - 1] == calls[..i - 1];
    KeyAtPrefix(calls, boundary, i, i - 1);
    if j < i - 1 {
      LastMember(calls, boundary, i - 1, j);
      OtherIdOtherSlot(calls, boundary, i - 1, j);
    }
  }

  lemma SameOwner(key: Key, a: string, b: string)
    requires BelongsTo(key, a) && BelongsTo(key, b)
    ensures a == b
  {
  }

  lemma OtherIdOtherSlot(calls: seq<ToolCall>, boundary: Option<nat>, i: nat, j: nat)
    requires i < |calls| && j < |calls| && calls[j].id != "" && calls[i].id != calls[j].id
    ensures KeyAt(calls, boundary, i) != KeyAt(calls, boundary, j)
  {
    hide Run, Place, KeyAt;
    KeyBelongs(calls, boundary, j);
    KeyBelongs(calls, boundary, i);
    if KeyAt(calls, boundary, i) == KeyAt(calls, boundary, j) && calls[i].id != "" {
      SameOwner(KeyAt(calls, boundary, i), calls[i].id, calls[j].id);
    }
  }

  lemma KeyBelongs(calls: seq<ToolCall>, boundary: Option<nat>, i: nat)
    requires i < |calls|
    ensures if calls[i].id == "" then KeyAt(calls, boundary, i).Anonymous?
            else BelongsTo(KeyAt(calls, boundary, i), calls[i].id) && !KeyAt(calls, boundary, i).Anonymous?
  {
    hide Run, Place;
    RunKeepsActive(calls[..i], boundary);
    if calls[i].id != "" { PlaceBelongs(Run(calls[..i], boundary), Past(boundary, i), calls[i]); }
  }
}
