/** How ACPSession routes child-agent events between prompts (src/acp/session.py): what a new
    user prompt still hears of the children of earlier tasks. */
module PromptRouting {
  import opened Wrappers
  import opened Strings
  import opened ChildModel

  datatype Kind = ToolStart | ToolUpdate | ToolDone | OtherKind

  datatype Event = Event(kind: Kind, call: Option<ToolCall>)

  const LIMIT: nat := 512

  // ---- What an event says ----

  predicate TruthyStates(s: States) {
    match s
    case StateList(items) => items != []
    case BareState(e) => e != Entry(Absent, Absent, Absent)
    case OpaqueStates(b) => b
  }

  /** `_is_child_lifecycle_event` */
  predicate Lifecycle(e: Event) {
    && e.call.Some? && !e.kind.OtherKind?
    && var c := e.call.value;
       Truthy(c.tool) || Truthy(c.source) || Truthy(c.activity) || TruthyStates(c.states) || c.malformed
  }

  /** `_starts_child_generation` */
  predicate StartsGeneration(e: Event) {
    e.call.Some? && GenerationAction(NormField(e.call.value.tool)) && Norm(e.call.value.status) == "completed"
  }

  function Named(f: Field): set<string> {
    if StrictSourceId(f).Some? then {StrictSourceId(f).value} else {}
  }

  function StateSource(s: StateItem): Field {
    if s.Entry? then s.source else Absent
  }

  function ReceiverSources(items: seq<Field>): set<string> {
    if items == [] then {} else ReceiverSources(items[..|items| - 1]) + Named(items[|items| - 1])
  }

  function StateSources(items: seq<StateItem>): set<string> {
    if items == [] then {} else StateSources(items[..|items| - 1]) + Named(StateSource(items[|items| - 1]))
  }

  /** The sources named by a container that is not a list. */
  function BareSources(c: ToolCall): set<string> {
    (if c.receivers.BareReceiver? then Named(Text(c.receivers.text)) else {})
    + (if c.states.BareState? then Named(StateSource(c.states.entry)) else {})
  }

  /** `_child_source_ids` */
  function Sources(c: ToolCall): set<string> {
    Named(c.source)
    + (if c.receivers.ReceiverList? then ReceiverSources(c.receivers.items) else {})
    + (if c.states.StateList? then StateSources(c.states.items) else {})
    + BareSources(c)
  }

  function EventSources(e: Event): set<string> {
    if e.call.Some? then Sources(e.call.value) else {}
  }

  lemma {:induction false} ReceiverSourcesAre(items: seq<Field>, x: string)
    ensures x in ReceiverSources(items) <==> exists f :: f in items && StrictSourceId(f) == Some(x)
  {
    hide StrictSourceId;
    if items != [] {
      ReceiverSourcesAre(items[..|items| - 1], x);
      assert items == items[..|items| - 1] + [items[|items| - 1]];
    }
  }

  lemma {:induction false} StateSourcesAre(items: seq<StateItem>, x: string)
    ensures x in StateSources(items) <==> exists s :: s in items && s.Entry? && StrictSourceId(s.source) == Some(x)
  {
    hide StrictSourceId;
    if items != [] {
      StateSourcesAre(items[..|items| - 1], x);
      assert items == items[..|items| - 1] + [items[|items| - 1]];
      assert StrictSourceId(Absent).None? by { AbsentNamesNobody(); }
    }
  }

  lemma AbsentNamesNobody()
    ensures StrictSourceId(Absent).None?
  {
  }

  /** A call names x as its activity's source, in a listed receiver or state, or in a receiver
      or state that stands in place of a list. */
  lemma SourcesExactly(c: ToolCall, x: string)
    ensures x in Sources(c) <==>
            || StrictSourceId(c.source) == Some(x)
            || (exists f :: f in ReceiverItems(c.receivers) && StrictSourceId(f) == Some(x))
            || (c.states.StateList? && exists s :: s in c.states.items && s.Entry? && StrictSourceId(s.source) == Some(x))
            || (c.receivers.BareReceiver? && StrictSourceId(Text(c.receivers.text)) == Some(x))
            || (c.states.BareState? && c.states.entry.Entry? && StrictSourceId(c.states.entry.source) == Some(x))
  {
    hide StrictSourceId;
    AbsentNamesNobody();
    if c.receivers.ReceiverList? { ReceiverSourcesAre(c.receivers.items, x); }
    if c.states.StateList? { StateSourcesAre(c.states.items, x); }
  }

  /** A generation starts exactly with a spawn or follow-up whose status reads as completed. */
  lemma StartsGenerationExactly(e: Event)
    ensures StartsGeneration(e) <==>
            && e.call.Some? && StrictChildStatus(Text(e.call.value.status)) == Some(Completed)
            && (NormField(e.call.value.tool) == "spawn_agent" || NormField(e.call.value.tool) == "followup_task")
  {
    hide Norm;
  }

  /** A tool event that does not count as a child event declares no tool, is not malformed,
      starts no generation and names children as receivers at most. */
  lemma OtherEventsSayLittle(e: Event, x: string)
    requires e.call.Some? && !e.kind.OtherKind? && !Lifecycle(e)
    ensures var c := e.call.value;
            && NormField(c.tool) == "" && !c.malformed && !StartsGeneration(e)
            && (x in Sources(c) ==>
                  || (exists f :: f in ReceiverItems(c.receivers) && StrictSourceId(f) == Some(x))
                  || (c.receivers.BareReceiver? && StrictSourceId(Text(c.receivers.text)) == Some(x)))
  {
    hide Sources;
    SourcesExactly(e.call.value, x);
    assert Norm("") == "";
  }

  // ---- The filter ----

  predicate Blocks(f: Field, blocked: set<string>) {
    f.Text? && Strip(f.text) in blocked
  }

  function KeepReceivers(items: seq<Field>, blocked: set<string>): seq<Field> {
    if items == [] then []
    else
      var last := items[|items| - 1];
      KeepReceivers(items[..|items| - 1], blocked) + (if Blocks(last, blocked) then [] else [last])
  }

  function KeepStates(items: seq<StateItem>, blocked: set<string>): seq<StateItem> {
    if items == [] then []
    else
      var last := items[|items| - 1];
      KeepStates(items[..|items| - 1], blocked) + (if Blocks(StateSource(last), blocked) then [] else [last])
  }

  function Without(c: ToolCall, blocked: set<string>): ToolCall {
    var hidden := Blocks(c.source, blocked);
    c.(source := if hidden then Absent else c.source,
       path := if hidden then Absent else c.path,
       activity := if hidden then Absent else c.activity,
       receivers := if c.receivers.ReceiverList? then ReceiverList(KeepReceivers(c.receivers.items, blocked)) else c.receivers,
       states := if c.states.StateList? then StateList(KeepStates(c.states.items, blocked)) else c.states)
  }

  /** `_filter_prior_task_child_sources`: the event to forward, and what is blocked from now on. */
  function Filter(e: Event, blocked: set<string>): (Option<Event>, set<string>) {
    if blocked == {} || !Lifecycle(e) then (Some(e), blocked)
    else if StartsGeneration(e) then (Some(e), blocked - EventSources(e))
    else if EventSources(e) * blocked == {} then (Some(e), blocked)
    else if EventSources(e) <= blocked then (None, blocked)
    else (Some(e.(call := Some(Without(e.call.value, blocked)))), blocked)
  }

  /** A blocked field names a blocked source and nothing else; any other field names none. */
  lemma BlockedField(f: Field, blocked: set<string>)
    requires "" !in blocked
    ensures if Blocks(f, blocked) then Named(f) <= blocked else Named(f) !! blocked
    ensures Named(Absent) == {}
  {
    hide Strip;
  }

  lemma {:induction false} KeptReceiverSources(items: seq<Field>, blocked: set<string>)
    requires "" !in blocked
    ensures ReceiverSources(KeepReceivers(items, blocked)) == ReceiverSources(items) - blocked
  {
    hide Named, Blocks;
    if items != [] {
      var rest, last := items[..|items| - 1], items[|items| - 1];
      KeptReceiverSources(rest, blocked);
      BlockedField(last, blocked);
      var kept := KeepReceivers(rest, blocked);
      assert (kept + [last])[..|kept|] == kept;
      assert KeepReceivers(items, blocked) == if Blocks(last, blocked) then kept else kept + [last];
    }
  }

  /** kept lists the items at the given positions, in order. */
  ghost predicate PicksAt<T>(kept: seq<T>, items: seq<T>, at: seq<nat>) {
    && |at| == |kept|
    && (forall k :: 0 <= k < |at| ==> at[k] < |items| && kept[k] == items[at[k]])
    && (forall k, m :: 0 <= k < m < |at| ==> at[k] < at[m])
  }

  lemma PicksMore<T>(kept: seq<T>, items: seq<T>, at: seq<nat>, n: nat)
    requires n < |items| && PicksAt(kept, items[..n], at)
    ensures PicksAt(kept, items, at) && PicksAt(kept + [items[n]], items, at + [n]) && n !in at
  {
  }

  ghost predicate ReceiversStay(items: seq<Field>, blocked: set<string>, at: seq<nat>) {
    && PicksAt(KeepReceivers(items, blocked), items, at)
    && forall i :: 0 <= i < |items| ==> (i in at <==> !Blocks(items[i], blocked))
  }

  lemma ReceiversStayMore(items: seq<Field>, last: Field, blocked: set<string>, at: seq<nat>)
    requires ReceiversStay(items, blocked, at)
    ensures ReceiversStay(items + [last], blocked, if Blocks(last, blocked) then at else at + [|items|])
  {
    hide Blocks, PicksAt;
    var all, kept := items + [last], KeepReceivers(items, blocked);
    assert all[..|items|] == items;
    PicksMore(kept, all, at, |items|);
    assert KeepReceivers(all, blocked) == if Blocks(last, blocked) then kept else kept + [last];
    assert forall i :: 0 <= i < |items| ==> all[i] == items[i];
  }

  lemma NoReceivers(items: seq<Field>, blocked: set<string>)
    requires items == []
    ensures ReceiversStay(items, blocked, [])
  {
  }

  lemma {:induction false} KeptReceivers(items: seq<Field>, blocked: set<string>) returns (at: seq<nat>)
    ensures ReceiversStay(items, blocked, at)
  {
    hide ReceiversStay, Blocks;
    if items == [] {
      at := [];
      NoReceivers(items, blocked);
    } else {
      var n := |items| - 1;
      at := KeptReceivers(items[..n], blocked);
      ReceiversStayMore(items[..n], items[n], blocked, at);
      assert items[..n] + [items[n]] == items;
      if !Blocks(items[n], blocked) { at := at + [n]; }
    }
  }

  lemma {:induction false} KeptStateSources(items: seq<StateItem>, blocked: set<string>)
    requires "" !in blocked
    ensures StateSources(KeepStates(items, blocked)) == StateSources(items) - blocked
  {
    hide Named, Blocks;
    if items != [] {
      var rest, last := items[..|items| - 1], items[|items| - 1];
      KeptStateSources(rest, blocked);
      BlockedField(StateSource(last), blocked);
      var kept := KeepStates(rest, blocked);
      assert (kept + [last])[..|kept|] == kept;
      assert KeepStates(items, blocked) == if Blocks(StateSource(last), blocked) then kept else kept + [last];
    }
  }

  ghost predicate StatesStay(items: seq<StateItem>, blocked: set<string>, at: seq<nat>) {
    && PicksAt(KeepStates(items, blocked), items, at)
    && forall i :: 0 <= i < |items| ==> (i in at <==> !Blocks(StateSource(items[i]), blocked))
  }

  lemma StatesStayMore(items: seq<StateItem>, last: StateItem, blocked: set<string>, at: seq<nat>)
    requires StatesStay(items, blocked, at)
    ensures StatesStay(items + [last], blocked, if Blocks(StateSource(last), blocked) then at else at + [|items|])
  {
    hide Blocks, PicksAt, StateSource;
    var all, kept := items + [last], KeepStates(items, blocked);
    assert all[..|items|] == items;
    PicksMore(kept, all, at, |items|);
    assert KeepStates(all, blocked) == if Blocks(StateSource(last), blocked) then kept else kept + [last];
    assert forall i :: 0 <= i < |items| ==> all[i] == items[i];
  }

  lemma NoStates(items: seq<StateItem>, blocked: set<string>)
    requires items == []
    ensures StatesStay(items, blocked, [])
  {
  }

  lemma {:induction false} KeptStates(items: seq<StateItem>, blocked: set<string>) returns (at: seq<nat>)
    ensures StatesStay(items, blocked, at)
  {
    hide StatesStay, Blocks;
    if items == [] {
      at := [];
      NoStates(items, blocked);
    } else {
      var n := |items| - 1;
      at := KeptStates(items[..n], blocked);
      StatesStayMore(items[..n], items[n], blocked, at);
      assert items[..n] + [items[n]] == items;
      if !Blocks(StateSource(items[n]), blocked) { at := at + [n]; }
    }
  }

  /** What is left names the unblocked sources, and those blocked ones a bare container names. */
  lemma SourcesLeft(c: ToolCall, blocked: set<string>)
    requires "" !in blocked
    ensures Sources(Without(c, blocked)) == (Sources(c) - blocked) + BareSources(c)
  {
    hide Strip, StrictSourceId, Named, Blocks, ReceiverSources, StateSources, KeepReceivers, KeepStates;
    var d := Without(c, blocked);
    BlockedField(c.source, blocked);
    if c.receivers.ReceiverList? { KeptReceiverSources(c.receivers.items, blocked); }
    if c.states.StateList? { KeptStateSources(c.states.items, blocked); }
    assert BareSources(d) == BareSources(c);
    assert Named(d.source) == Named(c.source) - blocked;
  }

  /** Filtering removes exactly the blocked sources if and only if no bare container names one. */
  lemma FilterIsExactUnlessBare(e: Event, blocked: set<string>)
    requires "" !in blocked && Lifecycle(e) && !StartsGeneration(e)
    ensures var out := Filter(e, blocked).0;
            && (out.None? <==> EventSources(e) != {} && EventSources(e) <= blocked)
            && (out.Some? ==> (EventSources(out.value) == EventSources(e) - blocked <==> BareSources(e.call.value) * blocked == {}))
  {
    hide Strip, StrictSourceId, Norm, Named, Without, ReceiverSources, StateSources;
    SourcesLeft(e.call.value, blocked);
    assert BareSources(e.call.value) <= Sources(e.call.value);
  }

  /** The list items that stay are exactly those that do not name a blocked source, in their
      order; malformed ones stay, and so does the rest of the call. */
  lemma FilterKeepsTheRest(e: Event, blocked: set<string>) returns (receiversAt: seq<nat>, statesAt: seq<nat>)
    requires Lifecycle(e) && Filter(e, blocked).0.Some? && Filter(e, blocked).0.value != e
    ensures e.call.Some? && Filter(e, blocked).0.value.call.Some?
    ensures var c, d := e.call.value, Filter(e, blocked).0.value.call.value;
            && d.id == c.id && d.title == c.title && d.status == c.status && d.tool == c.tool && d.malformed == c.malformed
            && (c.receivers.ReceiverList? ==> d.receivers == ReceiverList(KeepReceivers(c.receivers.items, blocked)) && ReceiversStay(c.receivers.items, blocked, receiversAt))
            && (c.states.StateList? ==> d.states == StateList(KeepStates(c.states.items, blocked)) && StatesStay(c.states.items, blocked, statesAt))
  {
    hide Lifecycle, StartsGeneration, Sources, Blocks, KeepReceivers, KeepStates, ReceiversStay, StatesStay;
    LifecycleHasCall(e);
    var c := e.call.value;
    receiversAt, statesAt := [], [];
    if c.receivers.ReceiverList? { receiversAt := KeptReceivers(c.receivers.items, blocked); }
    if c.states.StateList? { statesAt := KeptStates(c.states.items, blocked); }
  }

  lemma LifecycleHasCall(e: Event)
    requires Lifecycle(e)
    ensures e.call.Some?
  {
  }

  /** A receiver that arrives as bare text goes through although its source is blocked. */
  lemma BareReceiverLeaks()
    ensures var c := ToolCall("i", "", "", Text("b"), Absent, Text("started"), Absent, BareReceiver("a"), StateList([]), false);
            var out := Filter(Event(ToolUpdate, Some(c)), {"a"}).0;
            out.Some? && "a" in EventSources(out.value)
  {
    var c := ToolCall("i", "", "", Text("b"), Absent, Text("started"), Absent, BareReceiver("a"), StateList([]), false);
    assert DropLeft("a") == "a" && DropRight("a") == "a";
    assert Strip("b") == "b" by { assert DropLeft("b") == "b"; }
    assert Named(Text("a")) == {"a"} && Named(Text("b")) == {"b"};
    assert "b" in Sources(c) && "a" in Sources(c);
    assert !GenerationAction(NormField(c.tool));
    SourcesLeft(c, {"a"});
  }

  // ---- One prompt ----

  /** What a prompt's collector still holds against earlier tasks. */
  datatype Collector = Collector(sources: set<string>, calls: set<string>)

  function CallId(e: Event): string {
    if e.call.Some? then Strip(e.call.value.id) else ""
  }

  /** The decision of `_collector` on one event. */
  function Admit(col: Collector, e: Event): (Collector, Option<Event>) {
    var (kept, blocked) := Filter(e, col.sources);
    if kept.None? then (col.(sources := blocked), None)
    else
      var id := if Lifecycle(kept.value) then CallId(kept.value) else "";
      if id == "" || id !in col.calls then (Collector(blocked, col.calls), kept)
      else if StartsGeneration(kept.value) || EventSources(kept.value) != {} then (Collector(blocked, col.calls - {id}), kept)
      else (Collector(blocked, col.calls), None)
  }

  /** An event is held back exactly if it is a passive child event all of whose children are
      retired, or that names none and continues a retired call. A retired call id that names
      a child which is not retired is heard, and so is everything that starts a generation. */
  lemma HeldBackExactly(col: Collector, e: Event)
    requires "" !in col.sources
    ensures Admit(col, e).1.None? <==>
            && Lifecycle(e) && !StartsGeneration(e)
            && (if EventSources(e) == {} then CallId(e) != "" && CallId(e) in col.calls else EventSources(e) <= col.sources)
    ensures Admit(col, e).1.Some? ==>
              && CallId(Admit(col, e).1.value) == CallId(e)
              && EventSources(e) - col.sources <= EventSources(Admit(col, e).1.value) <= EventSources(e)
  {
    hide Lifecycle, StartsGeneration, Sources, Strip, Without, BareSources;
    LifecycleHasCallIf(e);
    assert EventSources(e) <= col.sources ==> EventSources(e) * col.sources == EventSources(e);
    if e.call.Some? {
      SourcesLeft(e.call.value, col.sources);
      BareAreSources(e.call.value);
      WithoutKeeps(e.call.value, col.sources);
      GenerationStays(e, col.sources);
      var left := EventSources(e) - col.sources;
      Leftover(EventSources(e), col.sources);
      assert Sources(Without(e.call.value, col.sources)) == left + BareSources(e.call.value);
      NotEmpty(left, BareSources(e.call.value));
    }
  }

  lemma Leftover(a: set<string>, b: set<string>)
    ensures !(a <= b) ==> a - b != {}
  {
    if !(a <= b) {
      var x :| x in a && x !in b;
      assert x in a - b;
    }
  }

  lemma NotEmpty(a: set<string>, b: set<string>)
    ensures a != {} ==> a + b != {}
  {
    if a != {} {
      var x :| x in a;
      assert x in a + b;
    }
  }

  lemma LifecycleHasCallIf(e: Event)
    ensures Lifecycle(e) ==> e.call.Some?
  {
  }

  lemma BareAreSources(c: ToolCall)
    ensures BareSources(c) <= Sources(c)
  {
    hide Named, ReceiverSources, StateSources;
  }

  lemma WithoutKeeps(c: ToolCall, blocked: set<string>)
    ensures Without(c, blocked).id == c.id && Without(c, blocked).tool == c.tool && Without(c, blocked).status == c.status
  {
    hide KeepReceivers, KeepStates, Blocks;
  }

  lemma GenerationStays(e: Event, blocked: set<string>)
    requires e.call.Some?
    ensures StartsGeneration(e.(call := Some(Without(e.call.value, blocked)))) <==> StartsGeneration(e)
  {
    hide Norm, Without;
    WithoutKeeps(e.call.value, blocked);
  }

  function Feed(col: Collector, es: seq<Event>): Collector {
    if es == [] then col else Admit(Feed(col, es[..|es| - 1]), es[|es| - 1]).0
  }

  /** A completed spawn or follow-up that names x. */
  predicate Reopens(e: Event, x: string) {
    Lifecycle(e) && StartsGeneration(e) && x in EventSources(e)
  }

  /** What is blocked after any events: the initially blocked sources that no completed spawn
      or follow-up has named since. */
  lemma {:induction false} BlockedExactly(col: Collector, es: seq<Event>, x: string)
    ensures x in Feed(col, es).sources <==> x in col.sources && forall j :: 0 <= j < |es| ==> !Reopens(es[j], x)
  {
    hide Lifecycle, StartsGeneration, Sources, Strip, CallId, Without;
    if es != [] {
      BlockedExactly(col, es[..|es| - 1], x);
      assert forall j :: 0 <= j < |es| - 1 ==> es[..|es| - 1][j] == es[j];
    }
  }

  /** Event i is forwarded as a lifecycle event that names x. */
  ghost predicate HeardOf(col: Collector, es: seq<Event>, i: nat, x: string)
    requires i < |es|
  {
    var out := Admit(Feed(col, es[..i]), es[i]).1;
    out.Some? && Lifecycle(out.value) && x in EventSources(out.value)
  }

  /** Over any events of an ordinary prompt, a forwarded lifecycle event names an initially
      blocked source only if an earlier event or itself is a completed spawn or follow-up
      naming it, or a bare container in it does. */
  lemma RetiredChildrenStaySilent(col: Collector, es: seq<Event>, i: nat, x: string)
    requires i < |es| && x in col.sources && "" !in col.sources
    ensures HeardOf(col, es, i, x) ==>
              (exists j :: 0 <= j <= i && Reopens(es[j], x)) || (es[i].call.Some? && x in BareSources(es[i].call.value))
  {
    hide StartsGeneration, Sources, Strip, CallId, Without, Named, BareSources, Truthy;
    var now := Feed(col, es[..i]);
    BlockedExactly(col, es[..i], x);
    BlockedExactly(col, es[..i], "");
    if HeardOf(col, es, i, x) {
      if x in now.sources {
        StillBlocked(now.sources, es[i], x);
      } else {
        var j :| 0 <= j < i && Reopens(es[..i][j], x);
        assert Reopens(es[j], x);
      }
    }
  }

  /** One event while x is blocked. */
  lemma StillBlocked(blocked: set<string>, e: Event, x: string)
    requires "" !in blocked && x in blocked && Filter(e, blocked).0.Some?
    requires Lifecycle(Filter(e, blocked).0.value) && x in EventSources(Filter(e, blocked).0.value)
    ensures Reopens(e, x) || (e.call.Some? && x in BareSources(e.call.value))
  {
    hide StartsGeneration, Sources, Without, BareSources, Lifecycle;
    FilterKeepsLifecycle(e, blocked);
    LifecycleHasCall(e);
    SourcesLeft(e.call.value, blocked);
    if !StartsGeneration(e) {
      assert x in EventSources(e) ==> x in EventSources(e) * blocked;
      assert Filter(e, blocked).0.value.call.value == Without(e.call.value, blocked);
    }
  }

  lemma FilterKeepsLifecycle(e: Event, blocked: set<string>)
    requires Filter(e, blocked).0.Some? && Lifecycle(Filter(e, blocked).0.value)
    ensures Lifecycle(e)
  {
    hide Sources, StartsGeneration, Blocks, KeepReceivers;
    if e.call.Some? && e.call.value.states == StateList([]) {
      assert KeepStates([], blocked) == [];
    }
  }

  /** A retired call id is heard again only in an event that names a source or starts a
      generation, or after one that did. */
  lemma {:induction false} CallsBlockedUntilNamed(col: Collector, es: seq<Event>, id: string)
    requires id in col.calls && id != ""
    ensures id in Feed(col, es).calls || exists j :: 0 <= j < |es| && Renames(Feed(col, es[..j]), es[j], id)
  {
    hide Renames, Admit;
    if es == [] {
      assert Feed(col, es) == col;
    } else {
      var n := |es| - 1;
      CallsBlockedUntilNamed(col, es[..n], id);
      if id in Feed(col, es[..n]).calls {
        OnlyRenamingUnblocks(Feed(col, es[..n]), es[n], id);
        assert Renames(Feed(col, es[..n]), es[n], id) || id in Feed(col, es).calls;
      } else {
        var j :| 0 <= j < n && Renames(Feed(col, es[..n][..j]), es[..n][j], id);
        assert es[..n][..j] == es[..j] && Renames(Feed(col, es[..j]), es[j], id);
      }
    }
  }

  /** The event is forwarded under the call id with a source or as a new generation. */
  predicate Renames(col: Collector, e: Event, id: string) {
    var out := Admit(col, e).1;
    out.Some? && CallId(out.value) == id && (StartsGeneration(out.value) || EventSources(out.value) != {})
  }

  lemma OnlyRenamingUnblocks(col: Collector, e: Event, id: string)
    requires id in col.calls && id != ""
    ensures id in Admit(col, e).0.calls || Renames(col, e, id)
  {
    hide Lifecycle, StartsGeneration, Sources, CallId, Filter;
  }
}
