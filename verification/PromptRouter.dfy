/** The fields of ACPSession that route events, updated in place (src/acp/session.py). */
module PromptRouters {
  import opened Wrappers
  import opened Strings
  import opened ChildModel
  import opened PromptRouting

  function Last<T>(xs: seq<T>, n: nat): seq<T> {
    if |xs| <= n then xs else xs[|xs| - n..]
  }

  /** Trimming at every append keeps what trimming once at the end would keep. */
  lemma TrimOnce<T>(a: seq<T>, b: seq<T>, n: nat)
    ensures Last(Last(a, n) + b, n) == Last(a + b, n)
  {
  }

  function Keep(ledger: seq<string>, gone: set<string>): (r: seq<string>)
    ensures forall x :: x in r <==> x in ledger && x !in gone
    ensures Distinct(ledger) ==> Distinct(r)
    ensures |r| <= |ledger|
  {
    if ledger == [] then []
    else
      var rest, last := ledger[..|ledger| - 1], ledger[|ledger| - 1];
      assert ledger == rest + [last];
      if last in gone then Keep(rest, gone) else Keep(rest, gone) + [last]
  }

  lemma {:induction false} KeepTwice(ledger: seq<string>, a: set<string>, b: set<string>)
    ensures Keep(Keep(ledger, a), b) == Keep(ledger, a + b)
  {
    if ledger != [] {
      var rest, last := ledger[..|ledger| - 1], ledger[|ledger| - 1];
      KeepTwice(rest, a, b);
      var kept := Keep(rest, a);
      assert (kept + [last])[..|kept|] == kept;
    }
  }

  lemma KeepSnoc(s: seq<string>, x: string, gone: set<string>)
    ensures Keep(s + [x], gone) == Keep(s, gone) + (if x in gone then [] else [x])
  {
    assert (s + [x])[..|s|] == s;
  }

  lemma {:induction false} KeepAppend(a: seq<string>, b: seq<string>, gone: set<string>)
    ensures Keep(a + b, gone) == Keep(a, gone) + Keep(b, gone)
  {
    hide Keep, Distinct;
    if b == [] {
      assert a + b == a;
      assert Keep(b, gone) == [];
    } else {
      var rest, last := b[..|b| - 1], b[|b| - 1];
      KeepAppend(a, rest, gone);
      assert a + b == (a + rest) + [last];
      KeepSnoc(a + rest, last, gone);
      assert b == rest + [last];
      KeepSnoc(rest, last, gone);
    }
  }

  lemma {:induction false} KeepAll(a: seq<string>, gone: set<string>)
    requires forall x :: x in a ==> x !in gone
    ensures Keep(a, gone) == a
  {
    if a != [] {
      var rest, last := a[..|a| - 1], a[|a| - 1];
      assert a == rest + [last];
      KeepAll(rest, gone);
    }
  }

  predicate Ledger(xs: seq<string>) {
    Distinct(xs) && "" !in xs && |xs| <= LIMIT
  }

  /** full lists the old entries that are not named again, in their order, and then the new
      ones, in any order. */
  ghost predicate Extends(full: seq<string>, ledger: seq<string>, values: set<string>) {
    && Distinct(full)
    && Keep(ledger, values) <= full
    && forall x :: x in full[|Keep(ledger, values)|..] <==> x in values && x != ""
  }

  /** `_remember_bounded_identities`: the values become the newest entries and the oldest
      entries go first. */
  method RememberBounded(ledger: seq<string>, values: set<string>) returns (r: seq<string>)
    requires Ledger(ledger)
    ensures Ledger(r)
    ensures exists full :: Extends(full, ledger, values) && r == Last(full, LIMIT)
  {
    hide Keep;
    r := ledger;
    var todo: set<string>, done: set<string> := values, {};
    KeepAll(ledger, {});
    var added: seq<string> := [];
    while todo != {}
      invariant done + todo == values && done !! todo
      invariant r == Keep(ledger, done) + added && Distinct(r)
      invariant forall x :: x in added <==> x in done && x != ""
      decreases |todo|
    {
      var v :| v in todo;
      todo, done := todo - {v}, done + {v};
      if v != "" {
        r := Keep(r, {v}) + [v];
        MovedToEnd(ledger, done - {v}, added, v);
        added := added + [v];
      } else {
        EmptyNameIsAbsent(ledger, done - {v});
      }
    }
    assert done == values;
    assert r[|Keep(ledger, values)|..] == added;
    ghost var full := r;
    r := TrimOldest(r);
    assert Extends(full, ledger, values);
    StillALedger(full, ledger, values);
  }

  lemma StillALedger(full: seq<string>, ledger: seq<string>, values: set<string>)
    requires Extends(full, ledger, values) && "" !in ledger
    ensures Ledger(Last(full, LIMIT))
  {
    var kept := Keep(ledger, values);
    forall x | x in full ensures x != "" {
      if x !in kept { assert full == kept + full[|kept|..]; assert x in full[|kept|..]; }
    }
    assert forall x :: x in Last(full, LIMIT) ==> x in full;
  }

  method TrimOldest(ledger: seq<string>) returns (r: seq<string>)
    ensures r == Last(ledger, LIMIT)
  {
    r := ledger;
    while |r| > LIMIT
      invariant r == Last(ledger, |r|) && |r| <= |ledger| && (|r| >= LIMIT || r == ledger)
    {
      r := r[1..];
    }
  }

  lemma DistinctSnoc(xs: seq<string>, x: string)
    requires Distinct(xs) && x !in xs
    ensures Distinct(xs + [x])
  {
  }

  lemma MovedToEnd(ledger: seq<string>, done: set<string>, added: seq<string>, v: string)
    requires v !in added && v !in done && Distinct(Keep(ledger, done) + added)
    ensures Keep(Keep(ledger, done) + added, {v}) + [v] == Keep(ledger, done + {v}) + (added + [v])
    ensures Distinct(Keep(Keep(ledger, done) + added, {v}) + [v])
  {
    hide Keep, Distinct;
    DistinctSnoc(Keep(Keep(ledger, done) + added, {v}), v);
    KeepAppend(Keep(ledger, done), added, {v});
    KeepAll(added, {v});
    KeepTwice(ledger, done, {v});
  }

  lemma EmptyNameIsAbsent(ledger: seq<string>, done: set<string>)
    requires "" !in ledger
    ensures Keep(ledger, done + {""}) == Keep(ledger, done)
  {
    KeepTwice(ledger, done, {""});
    KeepAll(Keep(ledger, done), {""});
  }

  function Calls(es: seq<Event>): (r: seq<ToolCall>)
    ensures |r| <= |es|
  {
    if es == [] then []
    else Calls(es[..|es| - 1]) + (if es[|es| - 1].call.Some? then [es[|es| - 1].call.value] else [])
  }

  function Elements(xs: seq<string>): (r: set<string>)
    ensures forall x :: x in r <==> x in xs
  {
    set x | x in xs
  }

  lemma LedgerNames(xs: seq<string>)
    requires Ledger(xs)
    ensures "" !in Elements(xs)
  {
  }

  lemma KeepsLedger(xs: seq<string>, gone: set<string>)
    requires Ledger(xs)
    ensures Ledger(Keep(xs, gone))
  {
  }

  lemma FilterOnlyUnblocks(e: Event, blocked: set<string>)
    ensures Filter(e, blocked).1 <= blocked
  {
    hide Lifecycle, StartsGeneration, EventSources;
  }

  /** A forwarded lifecycle event takes its call id off the ledger if it starts a generation or
      its id was blocked. */
  function CallsStillRetired(ledger: seq<string>, blocked: set<string>, out: Option<Event>): seq<string> {
    if out.Some? && Lifecycle(out.value) && CallId(out.value) != "" && (StartsGeneration(out.value) || CallId(out.value) in blocked)
    then Keep(ledger, {CallId(out.value)})
    else ledger
  }

  class PromptRouter {
    /** The generation of the installed collector. */
    var handler: Option<nat>
    var generation: nat
    var closing: bool
    var revision: nat
    var deferred: seq<Event>
    var logicalCalls: set<string>
    var logicalSources: set<string>
    var retiredCalls: seq<string>
    var retiredSources: seq<string>
    /** The current prompt's own variables. */
    var collector: Collector
    var collected: seq<ToolCall>

    ghost predicate Valid()
      reads this
    {
      && Ledger(retiredCalls) && Ledger(retiredSources) && |deferred| <= LIMIT
      && (handler.Some? ==> handler.value == generation)
      && "" !in collector.sources && "" !in collector.calls
    }

    constructor ()
      ensures Valid() && handler.None? && generation == 0 && deferred == [] && retiredSources == [] && retiredCalls == []
    {
      handler, generation, closing, revision, deferred := None, 0, false, 0, [];
      logicalCalls, logicalSources, retiredCalls, retiredSources := {}, {}, [], [];
      collector, collected := Collector({}, {}), [];
    }

    method Note(e: Event)
      modifies this`logicalCalls, this`logicalSources, this`revision
      ensures logicalCalls == old(logicalCalls) + (if CallId(e) == "" then {} else {CallId(e)})
      ensures logicalSources == old(logicalSources) + EventSources(e) && revision == old(revision) + 1
    {
      if CallId(e) != "" { logicalCalls := logicalCalls + {CallId(e)}; }
      logicalSources := logicalSources + EventSources(e);
      revision := revision + 1;
    }

    /** `_dispatch_event`: with no collector installed, the newest lifecycle events are kept for
        a later turn; otherwise the collector to call is returned. */
    method Dispatch(e: Event) returns (target: Option<nat>)
      requires Valid()
      modifies this`deferred, this`logicalCalls, this`logicalSources, this`revision
      ensures Valid() && target == old(handler)
      ensures var keeps := old(handler).None? && !closing && Lifecycle(e);
              && deferred == (if keeps then Last(old(deferred) + [e], LIMIT) else old(deferred))
              && revision == old(revision) + (if keeps then 1 else 0)
              && logicalSources == old(logicalSources) + (if keeps then EventSources(e) else {})
              && logicalCalls == old(logicalCalls) + (if keeps && CallId(e) != "" then {CallId(e)} else {})
    {
      hide Lifecycle, EventSources, CallId, Ledger;
      target := handler;
      if handler.None? && !closing && Lifecycle(e) {
        deferred := deferred + [e];
        Note(e);
        if |deferred| > LIMIT { deferred := deferred[|deferred| - LIMIT..]; }
      }
    }

    /** The children known so far go into the ledgers of retired ones. */
    method RetireChildren()
      requires Ledger(retiredCalls) && Ledger(retiredSources)
      modifies this`retiredCalls, this`retiredSources, this`logicalCalls, this`logicalSources
      ensures Ledger(retiredCalls) && Ledger(retiredSources) && logicalSources == {} && logicalCalls == {}
      ensures exists full :: Extends(full, old(retiredSources), old(logicalSources)) && retiredSources == Last(full, LIMIT)
      ensures exists full :: Extends(full, old(retiredCalls), old(logicalCalls)) && retiredCalls == Last(full, LIMIT)
    {
      hide Extends, Ledger;
      retiredCalls := RememberBounded(retiredCalls, logicalCalls);
      retiredSources := RememberBounded(retiredSources, logicalSources);
      logicalCalls, logicalSources := {}, {};
    }

    /** A new generation takes its call and its children off the ledgers. */
    method Unretire(event: Event, id: string)
      requires Ledger(retiredCalls) && Ledger(retiredSources)
      modifies this`retiredCalls, this`retiredSources
      ensures Ledger(retiredCalls) && Ledger(retiredSources)
      ensures retiredSources == Keep(old(retiredSources), EventSources(event))
      ensures retiredCalls == if id == "" then old(retiredCalls) else Keep(old(retiredCalls), {id})
    {
      hide Keep, Ledger, EventSources;
      if id != "" { KeepsLedger(retiredCalls, {id}); retiredCalls := Keep(retiredCalls, {id}); }
      KeepsLedger(retiredSources, EventSources(event));
      retiredSources := Keep(retiredSources, EventSources(event));
    }

    /** The start of `_prompt_once`. An ordinary prompt retires the children known so far and
        blocks everything the ledgers still hold; a reconciling one replays what was deferred. */
    method BeginPrompt(replay: bool) returns (g: nat)
      requires Valid()
      modifies this
      ensures Valid() && handler == Some(g) && generation == g == old(generation) + 1 && deferred == []
      ensures revision == old(revision) && closing == old(closing)
      ensures collected == if replay then Calls(old(deferred)) else []
      ensures replay ==>
                && collector == Collector({}, {}) && retiredSources == old(retiredSources) && retiredCalls == old(retiredCalls)
                && logicalSources == old(logicalSources) && logicalCalls == old(logicalCalls)
      ensures !replay ==>
                && collector == Collector(Elements(retiredSources), Elements(retiredCalls))
                && logicalSources == {} && logicalCalls == {}
                && (exists full :: Extends(full, old(retiredSources), old(logicalSources)) && retiredSources == Last(full, LIMIT))
                && (exists full :: Extends(full, old(retiredCalls), old(logicalCalls)) && retiredCalls == Last(full, LIMIT))
    {
      hide Extends, Ledger, Calls, Elements;
      collector, collected := Collector({}, {}), [];
      if !replay {
        RetireChildren();
        collector := Collector(Elements(retiredSources), Elements(retiredCalls));
        LedgerNames(retiredSources);
        LedgerNames(retiredCalls);
      } else {
        collected := Calls(deferred);
      }
      deferred := [];
      generation := generation + 1;
      g := generation;
      handler := Some(g);
    }

    /** `_collector` of the prompt of generation g. A collector that lost its place does
        nothing; the current one decides as `Admit` does and remembers what it let through. */
    method Collect(g: nat, e: Event) returns (out: Option<Event>)
      requires Valid()
      modifies this
      ensures Valid() && handler == old(handler) && generation == old(generation) && deferred == old(deferred) && closing == old(closing)
      ensures old(handler) != Some(g) || old(generation) != g ==>
                && out.None? && collector == old(collector) && collected == old(collected) && revision == old(revision)
                && retiredCalls == old(retiredCalls) && retiredSources == old(retiredSources)
                && logicalCalls == old(logicalCalls) && logicalSources == old(logicalSources)
      ensures old(handler) == Some(g) && old(generation) == g ==>
                && (collector, out) == Admit(old(collector), e)
                && collected == old(collected) + (if out.Some? && !out.value.kind.OtherKind? && out.value.call.Some? then [out.value.call.value] else [])
                && logicalSources == old(logicalSources) + (if out.Some? && Lifecycle(out.value) then EventSources(out.value) else {})
                && revision == old(revision) + (if out.Some? && Lifecycle(out.value) then 1 else 0)
                && logicalCalls == old(logicalCalls) + (if out.Some? && Lifecycle(out.value) && CallId(out.value) != "" then {CallId(out.value)} else {})
                && retiredCalls == CallsStillRetired(old(retiredCalls), old(collector).calls, out)
                && retiredSources == if out.Some? && StartsGeneration(out.value) then Keep(old(retiredSources), EventSources(out.value)) else old(retiredSources)
    {
      hide Filter, Lifecycle, StartsGeneration, EventSources, CallId, Keep, Ledger;
      out := None;
      if handler != Some(g) || generation != g { return; }
      FilterOnlyUnblocks(e, collector.sources);
      var (kept, blocked) := Filter(e, collector.sources);
      collector := collector.(sources := blocked);
      if kept.None? { return; }
      var event := kept.value;
      var id := if Lifecycle(event) then CallId(event) else "";
      if id != "" && id in collector.calls {
        if StartsGeneration(event) {
          collector := collector.(calls := collector.calls - {id});
        } else if EventSources(event) != {} {
          collector := collector.(calls := collector.calls - {id});
          KeepsLedger(retiredCalls, {id});
          retiredCalls := Keep(retiredCalls, {id});
        } else {
          return;
        }
      }
      if StartsGeneration(event) { Unretire(event, id); }
      Record(event);
      out := Some(event);
    }

    /** What the collector remembers of an accepted event. */
    method Record(event: Event)
      modifies this`collected, this`logicalCalls, this`logicalSources, this`revision
      ensures collected == old(collected) + (if !event.kind.OtherKind? && event.call.Some? then [event.call.value] else [])
      ensures logicalSources == old(logicalSources) + (if Lifecycle(event) then EventSources(event) else {})
      ensures revision == old(revision) + (if Lifecycle(event) then 1 else 0)
      ensures logicalCalls == old(logicalCalls) + (if Lifecycle(event) && CallId(event) != "" then {CallId(event)} else {})
    {
      hide Lifecycle, EventSources, CallId;
      if !event.kind.OtherKind? && event.call.Some? { collected := collected + [event.call.value]; }
      if Lifecycle(event) { Note(event); }
    }

    /** A finished prompt gives up its place; false when another prompt has taken it. */
    method Detach(g: nat) returns (owned: bool)
      requires Valid()
      modifies this`handler, this`generation
      ensures Valid() && (owned <==> old(handler) == Some(g) && old(generation) == g)
      ensures owned ==> handler.None? && generation == g + 1
      ensures !owned ==> handler == old(handler) && generation == old(generation)
    {
      if generation != g || handler != Some(g) { return false; }
      handler, generation := None, generation + 1;
      return true;
    }
  }
}
