/** What the operations of ACPSessionManager achieve when nothing goes wrong
    (src/acp/manager.py): from every reachable state an operation that holds its leases has a
    run of its own steps and its close worker's that does what it is for. */
module SessionProgress {
  import opened Wrappers
  import L = KeyLeases
  import M = SessionMaps
  import opened SessionProtocol

  /** Steps of thread t, and of workers whose closes succeed. */
  predicate OwnSteps(labels: seq<Label>, t: L.Tid) {
    forall i :: 0 <= i < |labels| ==>
      match labels[i]
      case Advance(u) => u == t
      case Refer(u) => u == t
      case Take(u) => u == t
      case Free(u) => u == t
      case Drop(u) => u == t
      case WorkerClose(_, ok) => ok
      case WorkerAnnounce(_) => true
      case PopTomb(_) => true
      case _ => false
  }

  /** Such steps lead from s to e. */
  ghost predicate Gets(s: State, t: L.Tid, e: State) {
    exists labels :: OwnSteps(labels, t) && Run(s, labels) == Some(e)
  }

  lemma {:induction false} RunConcat(s: State, a: seq<Label>, b: seq<Label>)
    requires Run(s, a).Some? && Run(Run(s, a).value, b).Some?
    ensures Run(s, a + b) == Run(Run(s, a).value, b)
    decreases |b|
  {
    hide CanStep, Step;
    if b == [] {
      assert a + b == a;
    } else {
      RunConcat(s, a, b[..|b| - 1]);
      assert (a + b)[..|a + b| - 1] == a + b[..|b| - 1];
    }
  }

  lemma GetsItself(s: State, t: L.Tid)
    ensures Gets(s, t, s)
  {
    RunNothing(s);
    assert OwnSteps([], t);
  }

  lemma GetsThen(s: State, t: L.Tid, m: State, e: State)
    requires Gets(s, t, m) && Gets(m, t, e)
    ensures Gets(s, t, e)
  {
    hide Run;
    var a :| OwnSteps(a, t) && Run(s, a) == Some(m);
    var b :| OwnSteps(b, t) && Run(m, b) == Some(e);
    RunConcat(s, a, b);
    assert OwnSteps(a + b, t);
  }

  lemma GetsOne(s: State, t: L.Tid, m: State, l: Label)
    requires Gets(s, t, m) && CanStep(m, l) && OwnSteps([l], t)
    ensures Gets(s, t, Step(m, l))
  {
    hide Run, CanStep, Step;
    var a :| OwnSteps(a, t) && Run(s, a) == Some(m);
    Extend(s, a, m, l);
    assert [l][0] == l;
    assert OwnSteps(a + [l], t);
  }

  lemma GetsKeepsInv(s: State, t: L.Tid, e: State)
    requires Inv(s) && Gets(s, t, e)
    ensures Inv(e)
  {
    hide Inv, Run;
    var a :| OwnSteps(a, t) && Run(s, a) == Some(e);
    RunKeepsInv(s, a);
  }

  // ---- Single advances ----

  predicate Acting(pc: Pc) {
    !pc.Leasing? && !pc.Unwind?
  }

  lemma MayAdvance(s: State, t: L.Tid)
    requires Inv(s) && t in s.threads && Acting(s.threads[t].pc)
    requires var pc := s.threads[t].pc; pc.Await? || pc.CloseWait? ==> M.Completed(M.PhaseOf(s.world, pc.c))
    ensures CanStep(s, Advance(t))
  {
    hide Inv, M.Inv;
    Facts(s, t);
    WorldFacts(s);
    SessionsAreBackends(s.world);
  }

  /** One advance of t along a run of t. */
  lemma Advances(s: State, t: L.Tid, m: State) returns (e: State)
    requires Inv(s) && Gets(s, t, m) && t in m.threads && Acting(m.threads[t].pc)
    requires var pc := m.threads[t].pc; pc.Await? || pc.CloseWait? ==> M.Completed(M.PhaseOf(m.world, pc.c))
    ensures Inv(m) && CanStep(m, Advance(t)) && e == Advanced(m, t) && Gets(s, t, e) && Inv(e)
  {
    hide Inv, Gets;
    GetsKeepsInv(s, t, m);
    MayAdvance(m, t);
    GetsOne(s, t, m, Advance(t));
    e := Step(m, Advance(t));
    GetsKeepsInv(s, t, e);
  }

  function At(s: State, t: L.Tid, pc: Pc, w: M.World): State
    requires t in s.threads
  {
    Goto(s, t, pc).(world := w)
  }

  // ---- Closing and spawning ----

  /** A backend in hand is closed: hand-over, the three steps of its worker, and the wait. */
  lemma Closes(s: State, t: L.Tid) returns (e: State)
    requires Inv(s) && t in s.threads && s.threads[t].pc.Handing?
    ensures Gets(s, t, e) && Inv(e)
    ensures var Thread(op, Handing(b, k, next)) := s.threads[t];
            && e.desk == s.desk && e.threads == s.threads[t := Thread(op, AfterClose(next))]
            && e.world.sessions == s.world.sessions && e.world.closing == s.world.closing
            && b < |s.world.backends| && |e.world.backends| == |s.world.backends|
            && e.world.backends[b].place.Closed?
            && forall a :: 0 <= a < |s.world.backends| && a != b ==> e.world.backends[a] == s.world.backends[a]
  {
    hide Inv, Gets, Claims, HandOk, M.Inv;
    var Thread(op, Handing(b, k, next)) := s.threads[t];
    HandOver(s, t);
    GetsItself(s, t);
    var s1 := Advances(s, t, s);
    var c := |s.world.tombs|;
    assert s1 == At(s, t, CloseWait(c, next), M.Register(s.world, k, b));
    var s2 := Works(s, t, s1, WorkerClose(c, true));
    var s3 := Works(s, t, s2, WorkerAnnounce(c));
    var s4 := Works(s, t, s3, PopTomb(c));
    e := Advances(s, t, s4);
  }

  lemma HandOver(s: State, t: L.Tid)
    requires Inv(s) && t in s.threads && s.threads[t].pc.Handing?
    ensures s.threads[t].pc.b < |s.world.backends| && s.threads[t].pc.key !in s.world.closing
    ensures !M.Refused(s.world, s.threads[t].pc.key)
  {
    hide Inv;
    Facts(s, t);
  }

  lemma Works(s: State, t: L.Tid, m: State, l: Label) returns (e: State)
    requires Inv(s) && Gets(s, t, m) && CanStep(m, l)
    requires (l.WorkerClose? && l.ok) || l.WorkerAnnounce? || l.PopTomb?
    ensures e == Step(m, l) && Gets(s, t, e) && Inv(e)
  {
    hide Inv, Gets, CanStep, Step;
    assert OwnSteps([l], t);
    GetsOne(s, t, m, l);
    e := Step(m, l);
    GetsKeepsInv(s, t, e);
  }

  /** Past its second gate, a start or replace spawns and installs a backend. */
  lemma Spawns(s: State, t: L.Tid) returns (e: State)
    requires Inv(s) && t in s.threads && s.threads[t].pc == Gate(true, 0)
    requires MainKey(s.threads[t].op) !in s.world.closing
    ensures Gets(s, t, e) && Inv(e)
    ensures var op := s.threads[t].op;
            var k, made := MainKey(op), |s.world.backends|;
            && e.desk == s.desk && e.threads == s.threads[t := Thread(op, Unwind)]
            && e.world.sessions == s.world.sessions[k := made] && e.world.closing == s.world.closing
            && e.world.backends == s.world.backends + [M.Backend(k, M.Installed)]
  {
    hide Inv, Gets, M.Inv;
    Facts(s, t);
    SingleWant(s.threads[t].op);
    hide Claims, HandOk, LeaseFits, Wants;
    GetsItself(s, t);
    var s1 := Advances(s, t, s);
    assert s1.threads[t].pc == Spawning;
    var s2 := Advances(s, t, s1);
    e := Advances(s, t, s2);
  }

  // ---- Comparing ----

  /** At its comparison a replace or retire takes the key's session away if and only if it is
      the expected one (any, when none is expected), and has it in hand then; otherwise it
      changes nothing and gives up. */
  lemma TakesExactlyTheExpected(s: State, t: L.Tid)
    requires Reachable(s) && CanStep(s, Advance(t)) && s.threads[t].pc.Compare? && !s.threads[t].op.Move?
    ensures var op, e := s.threads[t].op, Step(s, Advance(t));
            var k := op.key;
            var expected := k in s.world.sessions && (Guard(op).Some? ==> s.world.sessions[k] == Guard(op).value);
            && t in e.threads
            && (k in s.world.sessions && k !in e.world.sessions <==> expected)
            && (expected ==>
                  && Carries(e.threads[t].pc) == Some(s.world.sessions[k])
                  && s.world.sessions[k] < |e.world.backends| && e.world.backends[s.world.sessions[k]] == M.Backend(k, M.InHand(t))
                  && e.world.sessions == s.world.sessions - {k})
            && (!expected ==> e.world == s.world && e.threads[t].pc == Unwind)
  {
    hide Inv, Reachable, M.Inv;
    ReachableInv(s);
    Facts(s, t);
    WorldFacts(s);
    InstalledIs(s.world, s.threads[t].op.key);
  }

  // ---- Whole operations, from the first gate ----

  /** The thread has its leases and no wanted key has a tombstone. */
  predicate Ready(s: State, t: L.Tid) {
    && t in s.threads && s.threads[t].pc == Gate(false, 0)
    && forall j :: 0 <= j < |Wants(s.threads[t].op)| ==> Wants(s.threads[t].op)[j] !in s.world.closing
  }

  /** The gates of an operation with one key. */
  lemma PassesGate(s: State, t: L.Tid) returns (e: State)
    requires Inv(s) && Ready(s, t) && !s.threads[t].op.Move?
    ensures Gets(s, t, e) && Inv(e)
    ensures e == Goto(s, t, if s.threads[t].op.Start? then TakeOut else Compare)
  {
    hide Inv, Gets, M.Inv;
    GetsItself(s, t);
    e := Advances(s, t, s);
  }

  ghost predicate FreshAt(s: State, e: State, k: L.Key) {
    k in e.world.sessions && e.world.sessions[k] == |s.world.backends| && |e.world.backends| == |s.world.backends| + 1
    && e.world.backends[|s.world.backends|] == M.Backend(k, M.Installed)
  }

  ghost predicate IsClosed(e: State, b: M.Sid) {
    b < |e.world.backends| && e.world.backends[b].place.Closed?
  }

  /** A start closes the session it finds, if any, and installs a fresh backend. */
  lemma StartCompletes(s: State, t: L.Tid) returns (e: State)
    requires Reachable(s) && Ready(s, t) && s.threads[t].op.Start?
    ensures Gets(s, t, e) && t in e.threads && e.threads[t].pc == Unwind
    ensures var k := s.threads[t].op.key;
            FreshAt(s, e, k) && (k in s.world.sessions ==> IsClosed(e, s.world.sessions[k]))
  {
    hide Inv, Gets, M.Inv, Reachable;
    ReachableInv(s);
    SingleWant(s.threads[t].op);
    var k := s.threads[t].op.key;
    WorldFacts(s);
    InstalledIs(s.world, k);
    var s1 := PassesGate(s, t);
    assert k !in s.world.closing;
    hide Wants;
    var s2 := Advances(s, t, s1);
    var m := s2;
    if k in s.world.sessions {
      assert s2 == TakeAway(s1, t, k, ToGate);
      m := Closes(s2, t);
      GetsThen(s, t, s2, m);
    }
    e := Spawns(m, t);
    GetsThen(s, t, m, e);
  }

  /** A replace whose session is the expected one closes it and installs a fresh backend. */
  lemma ReplaceCompletes(s: State, t: L.Tid) returns (e: State)
    requires Reachable(s) && Ready(s, t) && s.threads[t].op.Replace?
    requires s.threads[t].op.key in s.world.sessions && s.world.sessions[s.threads[t].op.key] == s.threads[t].op.expected
    ensures Gets(s, t, e) && t in e.threads && e.threads[t].pc == Unwind
    ensures FreshAt(s, e, s.threads[t].op.key) && IsClosed(e, s.threads[t].op.expected)
  {
    hide Inv, Gets, M.Inv, Reachable;
    ReachableInv(s);
    SingleWant(s.threads[t].op);
    var k := s.threads[t].op.key;
    WorldFacts(s);
    InstalledIs(s.world, k);
    var s1 := PassesGate(s, t);
    assert k !in s.world.closing;
    hide Wants;
    var s2 := Advances(s, t, s1);
    assert s2 == TakeAway(s1, t, k, ToDetach);
    var s3 := Closes(s2, t);
    GetsThen(s, t, s2, s3);
    var s4 := Advances(s, t, s3);
    e := Spawns(s4, t);
    GetsThen(s, t, s4, e);
  }

  /** A retire whose session is the expected one closes it and installs nothing. */
  lemma RetireCompletes(s: State, t: L.Tid) returns (e: State)
    requires Reachable(s) && Ready(s, t) && s.threads[t].op.Retire?
    requires s.threads[t].op.key in s.world.sessions
    requires s.threads[t].op.guard.Some? ==> s.world.sessions[s.threads[t].op.key] == s.threads[t].op.guard.value
    ensures Gets(s, t, e) && t in e.threads && e.threads[t].pc == Unwind
    ensures var k := s.threads[t].op.key;
            e.world.sessions == s.world.sessions - {k} && IsClosed(e, s.world.sessions[k]) && |e.world.backends| == |s.world.backends|
  {
    hide Inv, Gets, M.Inv, Reachable;
    ReachableInv(s);
    SingleWant(s.threads[t].op);
    var k := s.threads[t].op.key;
    WorldFacts(s);
    InstalledIs(s.world, k);
    var s1 := PassesGate(s, t);
    hide Wants;
    var s2 := Advances(s, t, s1);
    assert s2 == TakeAway(s1, t, k, ToEnd);
    e := Closes(s2, t);
    GetsThen(s, t, s2, e);
  }

  lemma PassesBothGates(s: State, t: L.Tid) returns (e: State)
    requires Inv(s) && Ready(s, t) && s.threads[t].op.Move? && s.threads[t].op.from != s.threads[t].op.to
    ensures Gets(s, t, e) && Inv(e) && e == Goto(s, t, Compare)
  {
    hide Inv, Gets, M.Inv;
    assert |Wants(s.threads[t].op)| == 2;
    GetsItself(s, t);
    var s1 := Advances(s, t, s);
    assert s1 == Goto(s, t, Gate(false, 1));
    e := Advances(s, t, s1);
  }

  /** A move closes what it finds at its target and installs the moved session there. */
  lemma MoveCompletes(s: State, t: L.Tid) returns (e: State)
    requires Reachable(s) && Ready(s, t) && s.threads[t].op.Move? && s.threads[t].op.from != s.threads[t].op.to
    requires s.threads[t].op.from in s.world.sessions
    ensures Gets(s, t, e) && t in e.threads && e.threads[t].pc == Unwind
    ensures var Move(from, to) := s.threads[t].op;
            var b := s.world.sessions[from];
            && e.world.sessions == (s.world.sessions - {from})[to := b]
            && b < |e.world.backends| && e.world.backends[b] == M.Backend(to, M.Installed)
            && (to in s.world.sessions ==> IsClosed(e, s.world.sessions[to]))
  {
    hide Inv, Gets, M.Inv, Reachable, Wants;
    ReachableInv(s);
    var Move(from, to) := s.threads[t].op;
    WorldFacts(s);
    InstalledIs(s.world, from);
    InstalledIs(s.world, to);
    var s2 := PassesBothGates(s, t);
    var s3 := Advances(s, t, s2);
    var m := s3;
    if to in s.world.sessions {
      assert s3 == TakeAway(s2, t, to, ToCommit(s.world.sessions[from]));
      m := Closes(s3, t);
      GetsThen(s, t, s3, m);
    }
    assert m.threads[t] == Thread(Move(from, to), Commit(s.world.sessions[from]));
    e := Advances(s, t, m);
  }

  /** A start whose resume failed closes the backend it spawned and installs nothing. */
  lemma FailedResumeCloses(s: State, t: L.Tid) returns (e: State)
    requires Reachable(s) && CanStep(s, ResumeFail(t))
    ensures Gets(Step(s, ResumeFail(t)), t, e) && t in e.threads && e.threads[t].pc == Unwind
    ensures IsClosed(e, s.threads[t].pc.b) && e.world.sessions == s.world.sessions && MainKey(s.threads[t].op) !in e.world.sessions
  {
    hide Inv, Gets, M.Inv, Reachable;
    ReachableInv(s);
    Facts(s, t);
    StepKeepsInv(s, ResumeFail(t));
    e := Closes(Step(s, ResumeFail(t)), t);
  }

  /** A close that fails leaves its tombstone failed, and the thread that waits for it gives up. */
  lemma FailingCloseFails(s: State, c: M.Cid, t: L.Tid)
    requires Reachable(s) && c < |s.world.tombs| && s.world.tombs[c].phase.Running?
    ensures CanStep(s, WorkerClose(c, false)) && FailedAt(Step(s, WorkerClose(c, false)), s.world.tombs[c].key, c)
    ensures var m := Step(s, WorkerClose(c, false));
            && CanStep(m, WorkerAnnounce(c))
            && var e := Step(m, WorkerAnnounce(c));
               t in s.threads && s.threads[t].pc.CloseWait? && s.threads[t].pc.c == c ==>
                 CanStep(e, Advance(t)) && Step(e, Advance(t)) == Goto(e, t, Unwind)
  {
    hide Inv, M.Inv, Reachable;
    ReachableInv(s);
    WorldFacts(s);
    TombIs(s.world, c);
    StepKeepsInv(s, WorkerClose(c, false));
    var m := Step(s, WorkerClose(c, false));
    StepKeepsInv(m, WorkerAnnounce(c));
    if t in s.threads && s.threads[t].pc.CloseWait? && s.threads[t].pc.c == c { MayAdvance(Step(m, WorkerAnnounce(c)), t); }
  }

  // ---- Taking and giving back the leases ----

  /** No other thread has a lock that t still wants. */
  predicate Uncontended(s: State, t: L.Tid)
    requires t in s.desk.leases
  {
    var lease := s.desk.leases[t];
    forall j :: lease.held <= j < |lease.wants| && lease.wants[j] in s.desk.registry ==> s.desk.registry[lease.wants[j]].lock !in s.desk.holder
  }

  /** A lock somebody has is the registered lock of its key. */
  lemma HeldIsRegistered(d: L.Desk, lock: L.Lock)
    requires L.Inv(d) && lock in d.holder
    ensures lock.key in d.registry && d.registry[lock.key].lock == lock
  {
    assert L.HolderOk(d, lock);
    assert L.LeaseOk(d, d.holder[lock]);
  }

  lemma LeaseFacts(s: State, t: L.Tid)
    requires Inv(s) && t in s.threads
    ensures t in s.desk.leases && LeaseFits(s.desk, t, s.threads[t]) && L.LeaseOk(s.desk, t) && L.Inv(s.desk)
    ensures s.threads.Keys == s.desk.leases.Keys
  {
    assert ThreadOk(s, t);
  }

  lemma ReferStep(s: State, t: L.Tid)
    requires Inv(s) && t in s.threads && s.threads[t].pc.Leasing? && t in s.desk.leases
    requires |s.desk.leases[t].locks| < |s.desk.leases[t].wants| && Uncontended(s, t)
    ensures CanStep(s, Refer(t))
    ensures var e := Step(s, Refer(t));
            && e.world == s.world && e.threads == s.threads
            && t in e.desk.leases && e.desk.leases[t].wants == s.desk.leases[t].wants && e.desk.leases[t].held == s.desk.leases[t].held
            && |e.desk.leases[t].locks| == |s.desk.leases[t].locks| + 1 && Uncontended(e, t)
  {
    hide Inv, L.Inv, M.Inv;
    LeaseFacts(s, t);
    var lease := s.desk.leases[t];
    var made := L.Lock(lease.wants[|lease.locks|], s.desk.created);
    if made in s.desk.holder { HeldIsRegistered(s.desk, made); }
  }

  lemma TakeStep(s: State, t: L.Tid)
    requires Inv(s) && t in s.threads && s.threads[t].pc.Leasing? && t in s.desk.leases
    requires |s.desk.leases[t].locks| == |s.desk.leases[t].wants| && s.desk.leases[t].held < |s.desk.leases[t].wants| && Uncontended(s, t)
    ensures CanStep(s, Take(t))
    ensures var e := Step(s, Take(t));
            && e.world == s.world && t in e.threads && t in e.desk.leases && e.threads[t].op == s.threads[t].op
            && e.desk.leases[t].wants == s.desk.leases[t].wants && e.desk.leases[t].held == s.desk.leases[t].held + 1
            && |e.desk.leases[t].locks| == |s.desk.leases[t].locks| && Uncontended(e, t)
            && e.threads[t].pc == if e.desk.leases[t].held == |e.desk.leases[t].wants| then Gate(false, 0) else Leasing
  {
    hide Inv, L.Inv, M.Inv;
    LeaseFacts(s, t);
    var lease := s.desk.leases[t];
    assert lease.wants[lease.held] in s.desk.registry && s.desk.registry[lease.wants[lease.held]].lock == lease.locks[lease.held];
    forall j | lease.held < j < |lease.wants| ensures lease.locks[j] != lease.locks[lease.held] {
      assert lease.locks[j].key == lease.wants[j] > lease.wants[lease.held] == lease.locks[lease.held].key;
    }
  }

  /** An operation nobody stands in the way of gets all its leases. */
  lemma {:induction false} LeasesComplete(s: State, t: L.Tid) returns (e: State)
    requires Inv(s) && t in s.threads && s.threads[t].pc.Leasing? && t in s.desk.leases && Uncontended(s, t)
    requires s.desk.leases[t].held < |s.desk.leases[t].wants| && |s.desk.leases[t].locks| <= |s.desk.leases[t].wants|
    ensures Gets(s, t, e) && Inv(e) && e.world == s.world
    ensures t in e.threads && e.threads[t] == Thread(s.threads[t].op, Gate(false, 0))
    decreases 2 * |s.desk.leases[t].wants| - |s.desk.leases[t].locks| - s.desk.leases[t].held
  {
    hide Inv, Gets, Step, CanStep, Uncontended, Run;
    GetsItself(s, t);
    var l := if |s.desk.leases[t].locks| < |s.desk.leases[t].wants| then Refer(t) else Take(t);
    if l.Refer? { ReferStep(s, t); } else { TakeStep(s, t); }
    assert OwnSteps([l], t);
    GetsOne(s, t, s, l);
    var m := Step(s, l);
    GetsKeepsInv(s, t, m);
    if m.threads[t].pc.Leasing? {
      e := LeasesComplete(m, t);
      GetsThen(s, t, m, e);
    } else {
      e := m;
    }
  }

  lemma UnwindStep(s: State, t: L.Tid) returns (l: Label)
    requires Inv(s) && t in s.threads && s.threads[t].pc.Unwind? && t in s.desk.leases
    ensures l == Free(t) || l == Drop(t)
    ensures CanStep(s, l)
    ensures var e := Step(s, l);
            && e.world == s.world && (t in e.threads <==> t in e.desk.leases)
            && s.desk.leases[t].dropped <= |s.desk.leases[t].wants|
            && (t in e.threads ==>
                  && e.threads[t] == s.threads[t] && e.desk.leases[t].dropped <= |e.desk.leases[t].wants|
                  && e.desk.leases[t].held + |e.desk.leases[t].wants| - e.desk.leases[t].dropped
                     < s.desk.leases[t].held + |s.desk.leases[t].wants| - s.desk.leases[t].dropped)
  {
    hide Inv, L.Inv, M.Inv;
    LeaseFacts(s, t);
    l := if s.desk.leases[t].held > 0 then Free(t) else Drop(t);
  }

  /** An operation that is over gives every lock and every reference back, by its own steps alone. */
  lemma {:induction false} UnwindCompletes(s: State, t: L.Tid) returns (e: State)
    requires Inv(s) && t in s.threads && s.threads[t].pc.Unwind? && t in s.desk.leases && s.desk.leases[t].dropped <= |s.desk.leases[t].wants|
    ensures Gets(s, t, e) && e.world == s.world && t !in e.threads && t !in e.desk.leases
    decreases s.desk.leases[t].held + |s.desk.leases[t].wants| - s.desk.leases[t].dropped
  {
    hide Inv, Gets, Step, CanStep, Run;
    GetsItself(s, t);
    var l := UnwindStep(s, t);
    assert OwnSteps([l], t);
    GetsOne(s, t, s, l);
    var m := Step(s, l);
    GetsKeepsInv(s, t, m);
    if t in m.threads {
      e := UnwindCompletes(m, t);
      GetsThen(s, t, m, e);
    } else {
      e := m;
    }
  }
}
