/** src/acp/codex_rollout_reconciliation.py: turning the latest `list_agents` answer of a
    rollout into child evidence, or into nothing when any part of it is ambiguous. */
module Rollout {
  import opened Wrappers
  import opened Strings
  import opened ChildModel
  import opened StateMerge
  import opened Collaboration
  import opened Outcome

  /** `agent_status`: a plain value, or a mapping given by its keys. */
  datatype StatusValue = Plain(value: Field) | Tagged(keys: seq<Field>)

  datatype Agent = Agent(name: Field, status: StatusValue)

  const ROOT_AGENT := "/root"

  function NormalizeAgentStatus(v: StatusValue): Option<ChildStatus> {
    var raw := match v case Plain(f) => f case Tagged(keys) => if |keys| == 1 then keys[0] else Absent;
    var s := NormField(raw);
    if s == "pending" || s == "pendinginit" then Some(Pending)
    else if s == "running" then Some(Running)
    else if s == "completed" then Some(Completed)
    else if s == "failed" || s == "errored" || s == "notfound" then Some(Failed)
    else if s == "cancelled" || s == "canceled" || s == "interrupted" || s == "shutdown" then Some(Cancelled)
    else None
  }

  /** The agent words for each child status. */
  function Words(st: ChildStatus): set<string> {
    match st
    case Pending => {"pending", "pendinginit"}
    case Running => {"running"}
    case Completed => {"completed"}
    case Failed => {"failed", "errored", "notfound"}
    case Cancelled => {"cancelled", "canceled", "interrupted", "shutdown"}
  }

  /** An agent reports the word as such, or as the only key of an object. */
  predicate SaysWord(v: StatusValue, w: string) {
    || (v.Plain? && v.value.Text? && Norm(v.value.text) == w)
    || (v.Tagged? && |v.keys| == 1 && v.keys[0].Text? && Norm(v.keys[0].text) == w)
  }

  /** An agent status is read exactly by its words; no word means two statuses. */
  lemma AgentStatusExactly(v: StatusValue, st: ChildStatus)
    ensures NormalizeAgentStatus(v) == Some(st) <==> exists w :: SaysWord(v, w) && w in Words(st)
    ensures forall other :: other != st ==> Words(st) !! Words(other)
  {
    hide Norm;
    var raw := match v case Plain(f) => f case Tagged(keys) => if |keys| == 1 then keys[0] else Absent;
    if raw.Text? { assert SaysWord(v, Norm(raw.text)); }
    assert "" !in Words(st);
  }

  // ---- The latest answered list_agents call ----

  datatype Output = Unreadable | AgentList(agents: seq<Option<Agent>>)

  /** A decoded rollout line that matters here; the timestamp is absent when unreadable. */
  datatype Line =
    | ListCall(at: Option<real>, callId: Field)
    | Answer(at: Option<real>, callId: Field, output: Output)
    | Unrelated

  predicate InWindow(at: Option<real>, started: real, ended: real) {
    at.Some? && started <= at.value <= ended
  }

  predicate CallInWindow(lines: seq<Line>, i: int, started: real, ended: real) {
    0 <= i < |lines| && lines[i].ListCall? && InWindow(lines[i].at, started, ended)
  }

  predicate Later(lines: seq<Line>, i: int, j: int)
    requires 0 <= i < |lines| && 0 <= j < |lines|
    requires lines[i].ListCall? && lines[j].ListCall? && lines[i].at.Some? && lines[j].at.Some?
  {
    lines[i].at.value < lines[j].at.value || (lines[i].at.value == lines[j].at.value && i < j)
  }

  /** i is the latest list_agents call in the window, by time and then by position. */
  ghost predicate LatestCall(lines: seq<Line>, i: int, started: real, ended: real) {
    CallInWindow(lines, i, started, ended)
    && forall j :: CallInWindow(lines, j, started, ended) && j != i ==> Later(lines, j, i)
  }

  /** Line j answers the call at i: same id, not earlier in time, further down the file. */
  predicate Answers(lines: seq<Line>, i: int, j: int, started: real, ended: real)
    requires CallInWindow(lines, i, started, ended)
  {
    && i < j < |lines| && lines[j].Answer? && InWindow(lines[j].at, started, ended)
    && StrictSourceId(lines[i].callId).Some? && StrictSourceId(lines[j].callId) == StrictSourceId(lines[i].callId)
    && lines[j].at.value >= lines[i].at.value
  }

  ghost predicate OnlyAnswer(lines: seq<Line>, i: int, j: int, started: real, ended: real)
    requires CallInWindow(lines, i, started, ended)
  {
    Answers(lines, i, j, started, ended) && forall k :: Answers(lines, i, k, started, ended) ==> k == j
  }

  predicate Usable(o: Output) {
    o.AgentList? && o.agents != [] && forall a :: a in o.agents ==> a.Some?
  }

  function Agents(o: Output): (r: seq<Agent>)
    requires Usable(o)
    ensures |r| == |o.agents|
  {
    seq(|o.agents|, i requires 0 <= i < |o.agents| => assert o.agents[i] in o.agents; o.agents[i].value)
  }

  /** Every list_agents call is readable, and the latest one in the window has one usable answer. */
  ghost predicate Answered(lines: seq<Line>, started: real, ended: real, i: int, j: int) {
    && (forall k :: 0 <= k < |lines| && lines[k].ListCall? ==> lines[k].at.Some?)
    && LatestCall(lines, i, started, ended)
    && OnlyAnswer(lines, i, j, started, ended)
    && Usable(lines[j].output)
  }

  lemma LatestCallIsUnique(lines: seq<Line>, i: int, j: int, started: real, ended: real)
    requires LatestCall(lines, i, started, ended) && LatestCall(lines, j, started, ended)
    ensures i == j
  {
  }

  method FindLatestCall(lines: seq<Line>, started: real, ended: real) returns (ok: bool, best: int)
    ensures ok <==> (forall k :: 0 <= k < |lines| && lines[k].ListCall? ==> lines[k].at.Some?)
    ensures ok && best >= 0 ==> LatestCall(lines, best, started, ended)
    ensures ok && best < 0 ==> forall j :: !CallInWindow(lines, j, started, ended)
  {
    ok, best := true, -1;
    for i := 0 to |lines|
      invariant ok ==> forall k :: 0 <= k < i && lines[k].ListCall? ==> lines[k].at.Some?
      invariant !ok ==> exists k :: 0 <= k < i && lines[k].ListCall? && lines[k].at.None?
      invariant -1 <= best < i
      invariant best >= 0 ==> CallInWindow(lines, best, started, ended)
      invariant forall j :: 0 <= j < i && CallInWindow(lines, j, started, ended) ==> best >= 0 && (j == best || Later(lines, j, best))
    {
      if lines[i].ListCall? {
        if lines[i].at.None? {
          ok := false;
        } else if InWindow(lines[i].at, started, ended) && (best < 0 || lines[best].at.value <= lines[i].at.value) {
          best := i;
        }
      }
    }
  }

  method FindOnlyAnswer(lines: seq<Line>, call: int, started: real, ended: real) returns (found: int)
    requires CallInWindow(lines, call, started, ended)
    ensures found >= 0 ==> OnlyAnswer(lines, call, found, started, ended)
    ensures found < 0 ==> forall j :: !OnlyAnswer(lines, call, j, started, ended)
  {
    found := -1;
    var several := false;
    for j := 0 to |lines|
      invariant -1 <= found < j
      invariant found >= 0 ==> Answers(lines, call, found, started, ended)
      invariant !several ==> forall k :: k < j && Answers(lines, call, k, started, ended) ==> k == found
      invariant several ==> exists k, m :: k != m && Answers(lines, call, k, started, ended) && Answers(lines, call, m, started, ended)
    {
      if Answers(lines, call, j, started, ended) {
        if found >= 0 { several := true; } else { found := j; }
      }
    }
    if several { found := -1; }
  }

  /** `_latest_list_agents_output`: an answer is used exactly when it is the only usable
      answer to the latest call of the window. */
  method LatestListAgents(lines: seq<Line>, started: real, ended: real) returns (r: Option<(string, seq<Agent>)>)
    ensures r.Some? <==> exists i, j :: Answered(lines, started, ended, i, j)
    ensures forall i, j :: Answered(lines, started, ended, i, j) ==>
              r == Some((StrictSourceId(lines[i].callId).value, Agents(lines[j].output)))
  {
    r := None;
    var ok, call := FindLatestCall(lines, started, ended);
    if ok && call >= 0 {
      var j := FindOnlyAnswer(lines, call, started, ended);
      if j >= 0 && Usable(lines[j].output) {
        r := Some((StrictSourceId(lines[call].callId).value, Agents(lines[j].output)));
        assert Answered(lines, started, ended, call, j);
      }
      forall i | LatestCall(lines, i, started, ended) ensures i == call {
        LatestCallIsUnique(lines, i, call, started, ended);
      }
    }
  }

  // ---- Attributing listed agents to known children ----

  datatype Link = Link(path: string, source: string)

  /** The path and child identity a tool call ties together, if it names both. */
  function LinkOf(t: ToolCall): Option<Link> {
    var p, s := StrictSourceId(t.path), StrictSourceId(t.source);
    if p.Some? && s.Some? then Some(Link(p.value, s.value)) else None
  }

  ghost predicate Linked(calls: seq<ToolCall>, l: Link) {
    exists i :: 0 <= i < |calls| && LinkOf(calls[i]) == Some(l)
  }

  /** Paths and children correspond one to one. */
  ghost predicate OneToOne(calls: seq<ToolCall>) {
    forall a, b :: Linked(calls, a) && Linked(calls, b) ==> (a.path == b.path <==> a.source == b.source)
  }

  /** The links of `links` are those of the calls, each once, and one to one. */
  ghost predicate Bijection(links: seq<Link>, calls: seq<ToolCall>) {
    && (forall l :: l in links <==> Linked(calls, l))
    && (forall i, j :: 0 <= i < j < |links| ==> links[i].path != links[j].path && links[i].source != links[j].source)
  }

  function Paths(links: seq<Link>): set<string> { set l | l in links :: l.path }

  function FindPath(links: seq<Link>, path: string): (r: Option<string>)
    ensures r.Some? ==> Link(path, r.value) in links
    ensures r.None? <==> forall l :: l in links ==> l.path != path
  {
    if links == [] then None
    else if links[0].path == path then Some(links[0].source)
    else FindPath(links[1..], path)
  }

  function FindSource(links: seq<Link>, source: string): (r: Option<string>)
    ensures r.Some? ==> Link(r.value, source) in links
    ensures r.None? <==> forall l :: l in links ==> l.source != source
  {
    if links == [] then None
    else if links[0].source == source then Some(links[0].path)
    else FindSource(links[1..], source)
  }

  /** `_path_to_source`: both dictionaries grow together, and any disagreement stops it. */
  method PathToSource(calls: seq<ToolCall>) returns (r: Option<seq<Link>>)
    ensures r.Some? <==> OneToOne(calls) && exists l :: Linked(calls, l)
    ensures r.Some? ==> Bijection(r.value, calls)
  {
    var links: seq<Link> := [];
    for i := 0 to |calls|
      invariant Bijection(links, calls[..i])
    {
      LinkedExtends(calls, i);
      var l := LinkOf(calls[i]);
      if l.Some? {
        var source, path := FindPath(links, l.value.path), FindSource(links, l.value.source);
        if (source.Some? && source.value != l.value.source) || (path.Some? && path.value != l.value.path) {
          Conflict(calls, i, links, l.value);
          return None;
        }
        if source.None? {
          links := links + [l.value];
        }
      }
    }
    assert calls[..|calls|] == calls;
    if links == [] { return None; }
    assert links[0] in links;
    return Some(links);
  }

  /** The links of the first i + 1 calls: those of the first i, and that of the last one. */
  lemma LinkedSnoc(calls: seq<ToolCall>, last: ToolCall, l: Link)
    ensures Linked(calls + [last], l) <==> Linked(calls, l) || LinkOf(last) == Some(l)
  {
    hide LinkOf;
    var all := calls + [last];
    if Linked(calls, l) {
      var k :| 0 <= k < |calls| && LinkOf(calls[k]) == Some(l);
      assert all[k] == calls[k];
    }
    assert all[|calls|] == last;
  }

  lemma LinkedExtends(calls: seq<ToolCall>, i: nat)
    requires i < |calls|
    ensures forall l :: Linked(calls[..i + 1], l) <==> Linked(calls[..i], l) || LinkOf(calls[i]) == Some(l)
    ensures forall l :: Linked(calls[..i + 1], l) ==> Linked(calls, l)
  {
    hide LinkOf, Linked;
    assert calls[..i + 1] == calls[..i] + [calls[i]];
    forall l ensures Linked(calls[..i + 1], l) <==> Linked(calls[..i], l) || LinkOf(calls[i]) == Some(l) {
      LinkedSnoc(calls[..i], calls[i], l);
    }
    forall l | Linked(calls[..i + 1], l) ensures Linked(calls, l) { LinkedPrefix(calls, i + 1, l); }
  }

  lemma LinkedPrefix(calls: seq<ToolCall>, n: nat, l: Link)
    requires n <= |calls| && Linked(calls[..n], l)
    ensures Linked(calls, l)
  {
    hide LinkOf;
    var k :| 0 <= k < n && LinkOf(calls[..n][k]) == Some(l);
    assert calls[..n][k] == calls[k];
  }

  lemma Conflict(calls: seq<ToolCall>, i: nat, links: seq<Link>, l: Link)
    requires i < |calls| && Bijection(links, calls[..i]) && LinkOf(calls[i]) == Some(l)
    requires exists k :: k in links && k != l && (k.path == l.path || k.source == l.source)
    ensures !OneToOne(calls)
  {
    LinkedExtends(calls, i);
    var k :| k in links && k != l && (k.path == l.path || k.source == l.source);
    assert Linked(calls[..i + 1], k) && Linked(calls[..i + 1], l);
  }

  // ---- Evidence ----

  /** A listed agent as read: name and normalized status, when it has them, and whether it
      is the root agent. */
  datatype Row = Row(name: Option<string>, status: Option<ChildStatus>, root: bool)

  function ReadAgent(a: Agent): Row {
    Row(StrictSourceId(a.name), NormalizeAgentStatus(a.status), StrictSourceId(a.name) == Some(ROOT_AGENT))
  }

  function Rows(agents: seq<Agent>): (rows: seq<Row>)
    ensures |rows| == |agents|
    ensures forall i :: 0 <= i < |rows| ==> rows[i] == ReadAgent(agents[i])
  {
    seq(|agents|, i requires 0 <= i < |agents| => ReadAgent(agents[i]))
  }

  ghost predicate ListedAs(rows: seq<Row>, path: string, status: ChildStatus) {
    exists i :: 0 <= i < |rows| && rows[i] == Row(Some(path), Some(status), false)
  }

  ghost predicate NamesChild(rows: seq<Row>, path: string) {
    exists i :: 0 <= i < |rows| && rows[i].name == Some(path) && !rows[i].root
  }

  /** Row i is named, known, unlike every earlier row, and unless it is the root it is a
      terminal child among the given paths. */
  ghost predicate RowFits(rows: seq<Row>, i: nat, paths: set<string>)
    requires i < |rows|
  {
    && rows[i].name.Some? && rows[i].status.Some?
    && (forall k :: 0 <= k < i ==> rows[k].name != rows[i].name)
    && (rows[i].root || (rows[i].name.value in paths && Terminal(rows[i].status.value)))
  }

  /** The listing is exactly the given paths plus at most the root, all of them terminal. */
  ghost predicate Matches(rows: seq<Row>, paths: set<string>) {
    && (forall i :: 0 <= i < |rows| ==> RowFits(rows, i, paths))
    && (forall p :: p in paths ==> NamesChild(rows, p))
  }

  function LinkedPaths(calls: seq<ToolCall>): set<string> {
    set i | 0 <= i < |calls| && LinkOf(calls[i]).Some? :: LinkOf(calls[i]).value.path
  }

  ghost predicate Attributable(calls: seq<ToolCall>, agents: seq<Agent>) {
    OneToOne(calls) && (exists l :: Linked(calls, l)) && Matches(Rows(agents), LinkedPaths(calls))
  }

  method ObserveAgents(rows: seq<Row>, paths: set<string>) returns (r: Option<map<string, ChildStatus>>)
    ensures r.Some? <==> Matches(rows, paths)
    ensures r.Some? ==> r.value.Keys == paths
    ensures r.Some? ==> forall p :: p in paths ==> Terminal(r.value[p]) && ListedAs(rows, p, r.value[p])
  {
    var observed: map<string, ChildStatus> := map[];
    var seen: set<string> := {};
    for i := 0 to |rows|
      invariant forall k :: 0 <= k < i ==> RowFits(rows, k, paths)
      invariant forall k :: 0 <= k < i ==> rows[k].name.Some? && rows[k].name.value in seen
      invariant forall n :: n in seen ==> exists k :: 0 <= k < i && rows[k].name == Some(n)
      invariant forall k :: 0 <= k < i && !rows[k].root ==> rows[k].name.Some? && rows[k].name.value in observed
      invariant forall n :: n in observed ==> n in paths && Terminal(observed[n]) && ListedAs(rows, n, observed[n])
    {
      var row := rows[i];
      if row.name.None? || row.name.value in seen || row.status.None? {
        assert !RowFits(rows, i, paths);
        return None;
      }
      seen := seen + {row.name.value};
      if !row.root {
        if row.name.value !in paths || !Terminal(row.status.value) {
          assert !RowFits(rows, i, paths);
          return None;
        }
        observed := observed[row.name.value := row.status.value];
        assert ListedAs(rows, row.name.value, row.status.value);
      }
    }
    if observed.Keys != paths {
      var p :| p in paths && p !in observed;
      assert !NamesChild(rows, p);
      return None;
    }
    return Some(observed);
  }

  function StatusText(s: ChildStatus): string {
    match s
    case Pending => "pending"
    case Running => "running"
    case Completed => "completed"
    case Failed => "failed"
    case Cancelled => "cancelled"
  }

  function EvidenceId(callId: string): string { "rollout-list-agents:" + callId }

  function EvidenceReceivers(links: seq<Link>): seq<Field> {
    seq(|links|, i requires 0 <= i < |links| => Text(links[i].source))
  }

  function EvidenceStates(links: seq<Link>, observed: map<string, ChildStatus>): seq<StateItem>
    requires forall l :: l in links ==> l.path in observed
  {
    seq(|links|, i requires 0 <= i < |links| =>
      assert links[i] in links;
      Entry(Text(links[i].source), Text(StatusText(observed[links[i].path])), Text("")))
  }

  function Evidence(callId: string, links: seq<Link>, observed: map<string, ChildStatus>): ToolCall
    requires forall l :: l in links ==> l.path in observed
  {
    ToolCall(EvidenceId(callId), "list_agents", "completed", Absent, Absent, Absent, Text("list_agents"),
             ReceiverList(EvidenceReceivers(links)), StateList(EvidenceStates(links, observed)), false)
  }

  /** e reports exactly the linked children, each with the terminal status its agent was listed with. */
  ghost predicate ReportsVia(e: ToolCall, calls: seq<ToolCall>, callId: string, agents: seq<Agent>,
                             links: seq<Link>, observed: map<string, ChildStatus>) {
    && Bijection(links, calls)
    && (forall l :: l in links ==>
          l.path in observed && Terminal(observed[l.path]) && ListedAs(Rows(agents), l.path, observed[l.path]))
    && e == Evidence(callId, links, observed)
  }

  ghost predicate Reports(e: ToolCall, calls: seq<ToolCall>, callId: string, agents: seq<Agent>) {
    exists links, observed :: ReportsVia(e, calls, callId, agents, links, observed)
  }

  lemma BijectionPaths(links: seq<Link>, calls: seq<ToolCall>)
    requires Bijection(links, calls)
    ensures Paths(links) == LinkedPaths(calls)
  {
    forall p | p in Paths(links) ensures p in LinkedPaths(calls) {
      var l :| l in links && l.path == p;
      assert Linked(calls, l);
    }
    forall p | p in LinkedPaths(calls) ensures p in Paths(links) {
      var i :| 0 <= i < |calls| && LinkOf(calls[i]).Some? && LinkOf(calls[i]).value.path == p;
      assert Linked(calls, LinkOf(calls[i]).value);
    }
  }

  /** `_build_evidence`: evidence exists exactly when the listing is attributable, and it
      reports every linked child with the terminal status it was listed with. */
  method BuildEvidence(calls: seq<ToolCall>, callId: string, agents: seq<Agent>) returns (e: Option<ToolCall>)
    ensures e.Some? <==> Attributable(calls, agents)
    ensures e.Some? ==> Reports(e.value, calls, callId, agents)
  {
    var mapped := PathToSource(calls);
    if mapped.None? { return None; }
    var links := mapped.value;
    BijectionPaths(links, calls);
    var observed := ObserveAgents(Rows(agents), Paths(links));
    if observed.None? { return None; }
    forall l | l in links ensures l.path in observed.value { assert l.path in Paths(links); }
    e := Some(Evidence(callId, links, observed.value));
    assert ReportsVia(e.value, calls, callId, agents, links, observed.value);
  }

  // ---- The enriched result ----

  lemma StatusTextIsPlain(s: ChildStatus)
    ensures PlainToken(StatusText(s))
  {
    match s
    case Pending => assert PlainToken("pending");
    case Running => assert PlainToken("running");
    case Completed => assert PlainToken("completed");
    case Failed => assert PlainToken("failed");
    case Cancelled => assert PlainToken("cancelled");
  }

  lemma StatusTextReads(s: ChildStatus)
    ensures StrictChildStatus(Text(StatusText(s))) == Some(s)
  {
    hide Norm, PlainToken;
    StatusTextIsPlain(s);
    NormOfPlain(StatusText(s));
  }

  /** A child status is read exactly from its own word, up to case and outer space. */
  lemma ChildStatusExactly(f: Field, s: ChildStatus)
    ensures StrictChildStatus(f) == Some(s) <==> f.Text? && Norm(f.text) == StatusText(s)
  {
    hide Norm;
  }

  lemma LinkSourceIsClean(calls: seq<ToolCall>, l: Link)
    requires Linked(calls, l)
    ensures StrictSourceId(Text(l.source)) == Some(l.source)
  {
  }

  lemma DecodedEvidenceState(source: string, status: ChildStatus)
    requires StrictSourceId(Text(source)) == Some(source)
    ensures Decode(Entry(Text(source), Text(StatusText(status)), Text(""))) ==
            Item(true, source, status, Entry(Text(source), Text(StatusText(status)), Text("")))
  {
    StatusTextReads(status);
  }

  lemma {:induction false} StateObservationsHave(items: seq<Item>, i: nat)
    requires i < |items| && items[i].valid
    ensures Observation(items[i].source, items[i].status) in StateObservations(items)
  {
    if i < |items| - 1 { StateObservationsHave(items[..|items| - 1], i); }
  }

  lemma StateIsObserved(t: ToolCall, i: nat, source: string, status: ChildStatus)
    requires i < |ListedStates(t.states)|
    requires Decode(ListedStates(t.states)[i]) == Item(true, source, status, ListedStates(t.states)[i])
    ensures Observation(source, status) in Observations(t)
  {
    hide ReceiverObservations, ActivityObservations, Decode;
    StateObservationsHave(DecodeAll(ListedStates(t.states)), i);
  }

  /** The evidence reads as a passive call that settles every linked child. */
  lemma EvidenceReading(e: ToolCall, calls: seq<ToolCall>, callId: string, agents: seq<Agent>, l: Link)
    requires Reports(e, calls, callId, agents) && Linked(calls, l)
    ensures SettlesAt(Read(e), l.source)
  {
    hide StrictSourceId, Observations, Resets, InvalidEvidence, Forced, Reports;
    var status := EvidenceObserves(e, calls, callId, agents, l);
    var o := Observation(l.source, status);
    assert o in Read(e).observations && Terminal(o.status);
    EvidenceIsPassive(e, calls, callId, agents);
  }

  lemma EvidenceIsPassive(e: ToolCall, calls: seq<ToolCall>, callId: string, agents: seq<Agent>)
    requires Reports(e, calls, callId, agents)
    ensures Forced(e).None?
  {
    hide Forced, Rows, LinkOf, Linked;
    PassiveEvidence(e);
  }

  lemma EvidenceObserves(e: ToolCall, calls: seq<ToolCall>, callId: string, agents: seq<Agent>, l: Link)
    returns (status: ChildStatus)
    requires Reports(e, calls, callId, agents) && Linked(calls, l)
    ensures Terminal(status) && Observation(l.source, status) in Observations(e)
  {
    hide StrictSourceId, Decode, Observations, LinkOf, Rows;
    var links, observed :| ReportsVia(e, calls, callId, agents, links, observed);
    assert l in links;
    var i :| 0 <= i < |links| && links[i] == l;
    LinkSourceIsClean(calls, l);
    status := observed[l.path];
    DecodedEvidenceState(l.source, status);
    StateIsObserved(e, i, l.source, status);
  }

  /** A tool call of the run gives the child with this path the identity s. */
  ghost predicate CallTies(calls: seq<ToolCall>, path: string, s: string) {
    exists i :: 0 <= i < |calls| && StrictSourceId(calls[i].path) == Some(path) && StrictSourceId(calls[i].source) == Some(s)
  }

  /** An agent of this name, not the root, was listed with a word for the status. */
  ghost predicate AgentSays(agents: seq<Agent>, path: string, st: ChildStatus) {
    path != ROOT_AGENT && exists i :: 0 <= i < |agents| && StrictSourceId(agents[i].name) == Some(path) && SaysStatus(agents[i].status, st)
  }

  ghost predicate SaysStatus(v: StatusValue, st: ChildStatus) {
    exists w :: SaysWord(v, w) && w in Words(st)
  }

  lemma LinkedIs(calls: seq<ToolCall>, path: string, s: string)
    ensures Linked(calls, Link(path, s)) <==> CallTies(calls, path, s)
  {
    hide StrictSourceId;
  }

  lemma ListedIs(agents: seq<Agent>, path: string, st: ChildStatus)
    ensures ListedAs(Rows(agents), path, st) <==> AgentSays(agents, path, st)
  {
    hide StrictSourceId, NormalizeAgentStatus, SaysWord;
    forall i | 0 <= i < |agents| ensures SaysStatus(agents[i].status, st) <==> NormalizeAgentStatus(agents[i].status) == Some(st) {
      AgentStatusExactly(agents[i].status, st);
    }
    var rows := Rows(agents);
    if ListedAs(rows, path, st) {
      var i :| 0 <= i < |rows| && rows[i] == Row(Some(path), Some(st), false);
      assert rows[i] == ReadAgent(agents[i]);
    }
    if AgentSays(agents, path, st) {
      var i :| 0 <= i < |agents| && StrictSourceId(agents[i].name) == Some(path) && SaysStatus(agents[i].status, st);
      assert rows[i] == Row(Some(path), Some(st), false);
    }
  }

  lemma OneRowPerName(rows: seq<Row>, paths: set<string>, path: string, a: ChildStatus, b: ChildStatus)
    requires Matches(rows, paths) && ListedAs(rows, path, a) && ListedAs(rows, path, b)
    ensures a == b
  {
    var i :| 0 <= i < |rows| && rows[i] == Row(Some(path), Some(a), false);
    var j :| 0 <= j < |rows| && rows[j] == Row(Some(path), Some(b), false);
    assert RowFits(rows, i, paths) && RowFits(rows, j, paths);
  }

  lemma StatesAre(links: seq<Link>, observed: map<string, ChildStatus>, s: string, st: ChildStatus)
    requires forall l :: l in links ==> l.path in observed && StrictSourceId(Text(l.source)) == Some(l.source)
    ensures (exists x :: x in EvidenceStates(links, observed) && EntrySays(x, s, st)) <==>
            exists l :: l in links && l.source == s && observed[l.path] == st
  {
    hide StrictSourceId, StrictChildStatus;
    var states := EvidenceStates(links, observed);
    forall i | 0 <= i < |links| ensures EntrySays(states[i], s, st) <==> links[i].source == s && observed[links[i].path] == st {
      assert links[i] in links;
      StatusTextReads(observed[links[i].path]);
    }
    if l :| l in links && l.source == s && observed[l.path] == st {
      var i :| 0 <= i < |links| && links[i] == l;
      assert states[i] in states;
    }
    if x :| x in states && EntrySays(x, s, st) {
      var i :| 0 <= i < |states| && states[i] == x;
      assert links[i] in links;
    }
  }

  /** The recovered evidence gives child s the status st exactly if some call of the run ties s
      to a path, and the agent of that path was listed with a word for st. */
  lemma EvidenceSaysExactly(e: ToolCall, calls: seq<ToolCall>, callId: string, agents: seq<Agent>, s: string, st: ChildStatus)
    requires Reports(e, calls, callId, agents) && Attributable(calls, agents)
    ensures Lists(e, s, st) <==> exists path :: CallTies(calls, path, s) && AgentSays(agents, path, st)
  {
    hide StrictSourceId, LinkOf, Rows, EntrySays, Linked, CallTies, AgentSays, ListedAs, Matches, EvidenceStates;
    var links: seq<Link>, observed: map<string, ChildStatus> :| ReportsVia(e, calls, callId, agents, links, observed);
    forall l | l in links ensures StrictSourceId(Text(l.source)) == Some(l.source) { LinkSourceIsClean(calls, l); }
    StatesAre(links, observed, s, st);
    assert Lists(e, s, st) <==> exists l :: l in links && l.source == s && observed[l.path] == st;
    forall path ensures Linked(calls, Link(path, s)) <==> CallTies(calls, path, s) { LinkedIs(calls, path, s); }
    forall path ensures ListedAs(Rows(agents), path, st) <==> AgentSays(agents, path, st) { ListedIs(agents, path, st); }
    if l :| l in links && l.source == s && observed[l.path] == st {
      assert l == Link(l.path, s) && CallTies(calls, l.path, s) && AgentSays(agents, l.path, st);
    }
    if path :| CallTies(calls, path, s) && AgentSays(agents, path, st) {
      assert Link(path, s) in links;
      OneRowPerName(Rows(agents), LinkedPaths(calls), path, observed[path], st);
    }
  }

  lemma PassiveEvidence(e: ToolCall)
    requires e.tool == Text("list_agents")
    ensures Forced(e).None?
  {
    assert PlainToken("list_agents");
    NormOfPlain("list_agents");
    assert LifecycleTool(e) == "list_agents";
  }

  /** Every slot and every active key belongs to an id that occurred. */
  ghost predicate KeysFrom(p: Progress, calls: seq<ToolCall>) {
    && (forall i, id :: 0 <= i < |p.slots| && p.slots[i].key == Named(id) ==> exists k :: 0 <= k < |calls| && calls[k].id == id)
    && (forall id :: id in p.active ==> exists k :: 0 <= k < |calls| && calls[k].id == id)
    && (forall id :: id in p.active ==> p.active[id] == Named(id) || (p.active[id].Generation? && p.active[id].id == id))
  }

  lemma AdvanceKeysFrom(p: Progress, past: bool, calls: seq<ToolCall>)
    requires calls != [] && KeysFrom(p, calls[..|calls| - 1])
    ensures KeysFrom(Advance(p, past, calls[|calls| - 1]), calls)
  {
    hide StartsInvocation, Combine, ChildRelated;
    var c := calls[|calls| - 1];
    assert calls[|calls| - 1].id == c.id;
    assert forall k :: 0 <= k < |calls| - 1 ==> calls[..|calls| - 1][k] == calls[k];
  }

  lemma {:induction false} RunKeysFrom(calls: seq<ToolCall>, boundary: Option<nat>)
    ensures KeysFrom(Run(calls, boundary), calls)
  {
    hide Advance;
    if calls != [] {
      var n := |calls| - 1;
      RunKeysFrom(calls[..n], boundary);
      AdvanceKeysFrom(Run(calls[..n], boundary), boundary.Some? && n >= boundary.value, calls);
    }
  }

  /** A snapshot under a fresh id becomes the last slot, unchanged. */
  lemma FreshSnapshotIsLast(calls: seq<ToolCall>, e: ToolCall)
    requires e.id != "" && forall i :: 0 <= i < |calls| ==> calls[i].id != e.id
    ensures MergeSequence(calls + [e], None) == MergeSequence(calls, None) + [e]
  {
    hide StartsInvocation, Combine, ChildRelated;
    RunKeysFrom(calls, None);
    var p := Run(calls, None);
    assert (calls + [e])[..|calls|] == calls;
    assert Find(p.slots, Named(e.id)).None?;
    assert Run(calls + [e], None) == Advance(p, false, e);
    assert Place(p, false, e) == Placement(Named(e.id), e, false);
  }

  /** The last tool call settles s, so whatever came before s is not left transient. */
  lemma LastCallResolves(tools: seq<ToolCall>, e: ToolCall, s: string)
    requires SettlesAt(Read(e), s)
    ensures !Unresolved(ReadAll(tools + [e]), s)
  {
    hide Read;
    var rs := ReadAll(tools + [e]);
    assert rs[|tools|] == Read(e);
    assert InCurrentGeneration(rs, |tools|, s);
    assert Settled(rs, s);
  }

  /** `enrich_codex_reconciliation_result` on decoded lines: unchanged without evidence; with
      evidence under a fresh id, classifying the enriched result leaves no linked child transient. */
  method Enrich(result: PromptResult, lines: seq<Line>, started: real, ended: real)
    returns (enriched: PromptResult, e: Option<ToolCall>)
    ensures e.Some? <==> exists i, j :: Answered(lines, started, ended, i, j) && Attributable(result.toolCalls, Agents(lines[j].output))
    ensures forall i, j :: Answered(lines, started, ended, i, j) && e.Some? ==>
              Reports(e.value, result.toolCalls, StrictSourceId(lines[i].callId).value, Agents(lines[j].output))
    ensures enriched == if e.None? then result else result.(toolCalls := MergeSequence(result.toolCalls + [e.value], None))
    ensures e.Some? && (forall i :: 0 <= i < |result.toolCalls| ==> result.toolCalls[i].id != e.value.id) ==>
              forall l :: Linked(result.toolCalls, l) ==> !Unresolved(ReadAll(enriched.toolCalls), l.source)
  {
    hide Attributable, Reports, Usable, Answered, Agents;
    enriched, e := result, None;
    var latest := LatestListAgents(lines, started, ended);
    if latest.Some? {
      var (callId, agents) := latest.value;
      e := BuildEvidence(result.toolCalls, callId, agents);
      if e.Some? {
        enriched := result.(toolCalls := MergeSequence(result.toolCalls + [e.value], None));
        EnrichedIsResolved(result.toolCalls, e.value, callId, agents);
      }
    }
  }

  lemma EnrichedIsResolved(calls: seq<ToolCall>, e: ToolCall, callId: string, agents: seq<Agent>)
    requires Reports(e, calls, callId, agents)
    ensures (forall i :: 0 <= i < |calls| ==> calls[i].id != e.id) ==>
              forall l :: Linked(calls, l) ==> !Unresolved(ReadAll(MergeSequence(calls + [e], None)), l.source)
  {
    hide Read, Unresolved;
    if forall i :: 0 <= i < |calls| ==> calls[i].id != e.id {
      assert e.id == EvidenceId(callId);
      FreshSnapshotIsLast(calls, e);
      forall l | Linked(calls, l) ensures !Unresolved(ReadAll(MergeSequence(calls + [e], None)), l.source) {
        EvidenceReading(e, calls, callId, agents, l);
        LastCallResolves(MergeSequence(calls, None), e, l.source);
      }
    }
  }
}
