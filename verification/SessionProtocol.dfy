/** Every interleaving of start, replace, retire, end, rebind, keepalive and close-worker
    steps of ACPSessionManager (src/acp/manager.py), one step per critical section. */
module SessionProtocol {
  import opened Wrappers
  import L = KeyLeases
  import opened SessionMaps

  datatype Op =
    | Start(key: Key, resume: bool)
    | Replace(key: Key, expected: Sid)
    | Retire(key: Key, guard: Option<Sid>)
    | Move(from: Key, to: Key)      // rebind_thread

  /** Where a thread goes when the close it waits for is over. */
  datatype Next = ToDetach | ToGate | ToCommit(moved: Sid) | ToEnd

  /** Where a thread is: what it does next, and its local variables. */
  datatype Pc =
    | Leasing
    | Gate(second: bool, i: nat)
    | Saw(second: bool, i: nat, c: Cid)
    | Await(second: bool, i: nat, c: Cid)
    | Compare
    | TakeOut
    | Handing(b: Sid, key: Key, next: Next)
    | CloseWait(c: Cid, next: Next)
    | Spawning
    | Fresh(b: Sid)
    | Commit(b: Sid)
    | Unwind

  datatype Thread = Thread(op: Op, pc: Pc)

  datatype State = State(desk: L.Desk, world: World, threads: map<Tid, Thread>)

  const INITIAL := State(L.EMPTY, NOTHING, map[])

  /** The keys an operation leases, in the order it leases them. */
  function Wants(op: Op): (ks: seq<Key>)
    ensures L.Sorted(ks) && ks != []
  {
    if !op.Move? then [op.key]
    else if op.from == op.to then [op.from]
    else if op.from < op.to then [op.from, op.to]
    else [op.to, op.from]
  }

  /** The backend a thread has in its hand. */
  function Carries(pc: Pc): Option<Sid> {
    if pc.Handing? || pc.Fresh? then Some(pc.b) else None
  }

  // ---- Steps ----

  datatype Label =
    | Begin(t: Tid, op: Op)
    | Refer(t: Tid)                  // _get_key_lock for the next key
    | Take(t: Tid)                   // key_lock.acquire for the next key
    | Advance(t: Tid)                // the next critical section of the operation
    | ResumeFail(t: Tid)             // load_session of a resumed start failed
    | Expire(t: Tid)                 // the deadline passed, or a call raised
    | Free(t: Tid)                   // key_lock.release
    | Drop(t: Tid)                   // _release_key_lock
    | EndNow(k: Key)                 // end_session, keepalive, idle timeout
    | WorkerClose(c: Cid, ok: bool)
    | WorkerAnnounce(c: Cid)
    | PopTomb(c: Cid)

  predicate CanStep(s: State, l: Label) {
    match l
    case Begin(t, _) => t !in s.threads && t !in s.desk.leases
    case EndNow(k) => k in s.world.sessions ==> s.world.sessions[k] < |s.world.backends|
    case WorkerClose(c, _) => c < |s.world.tombs| && s.world.tombs[c].phase.Running? && s.world.tombs[c].backend < |s.world.backends|
    case WorkerAnnounce(c) => c < |s.world.tombs| && s.world.tombs[c].phase.Finished?
    case PopTomb(c) => c < |s.world.tombs|
    case _ =>
      l.t in s.threads && l.t in s.desk.leases && ThreadCanStep(s, l, s.threads[l.t])
  }

  predicate ThreadCanStep(s: State, l: Label, th: Thread)
    requires !l.Begin? && !l.EndNow? && !l.WorkerClose? && !l.WorkerAnnounce? && !l.PopTomb?
    requires l.t in s.desk.leases
  {
    match l
    case Refer(t) => th.pc.Leasing? && L.CanMove(s.desk, L.Refer(t))
    case Take(t) => th.pc.Leasing? && L.CanMove(s.desk, L.Take(t))
    case Expire(t) => !th.pc.Unwind? && |s.desk.leases[t].locks| == |s.desk.leases[t].wants|
    case ResumeFail(t) => th.pc.Fresh? && th.op.Start? && th.op.resume
    case Free(t) => th.pc.Unwind? && L.CanMove(s.desk, L.Free(t))
    case Drop(t) => th.pc.Unwind? && L.CanMove(s.desk, L.Drop(t))
    case Advance(t) =>
      && !th.pc.Leasing? && !th.pc.Unwind?
      && (th.pc.Await? || th.pc.CloseWait? ==> Completed(PhaseOf(s.world, th.pc.c)))
      && (th.pc.Gate? || th.pc.Saw? || th.pc.Await? ==> th.pc.i < |Wants(th.op)|)
      && (forall k :: k in s.world.sessions ==> s.world.sessions[k] < |s.world.backends|)
      && (Carries(th.pc).Some? ==> Carries(th.pc).value < |s.world.backends|)
  }

  function Goto(s: State, t: Tid, pc: Pc): State
    requires t in s.threads
  {
    s.(threads := s.threads[t := s.threads[t].(pc := pc)])
  }

  function Leased(s: State, m: L.Move): State
    requires L.CanMove(s.desk, m)
  {
    s.(desk := L.Apply(s.desk, m))
  }

  function Step(s: State, l: Label): State
    requires CanStep(s, l)
  {
    match l
    case Begin(t, op) =>
      Leased(s, L.Open(t, Wants(op))).(threads := s.threads[t := Thread(op, Leasing)])
    case Refer(t) => Leased(s, L.Refer(t))
    case Take(t) =>
      var taken := Leased(s, L.Take(t));
      var lease := taken.desk.leases[t];
      if lease.held == |lease.wants| then Goto(taken, t, Gate(false, 0)) else taken
    case Advance(t) => Advanced(s, t)
    case ResumeFail(t) => Goto(s, t, Handing(s.threads[t].pc.b, s.threads[t].op.key, ToEnd))
    case Expire(t) => Expired(s, t)
    case Free(t) => Leased(s, L.Free(t))
    case Drop(t) =>
      var dropped := Leased(s, L.Drop(t));
      if t in dropped.desk.leases then dropped else dropped.(threads := s.threads - {t})
    case EndNow(k) => s.(world := End(s.world, k))
    case WorkerClose(c, ok) => s.(world := Close(s.world, c, ok))
    case WorkerAnnounce(c) => s.(world := Announce(s.world, c))
    case PopTomb(c) => s.(world := Pop(s.world, s.world.tombs[c].key, c))
  }

  /** A thread that gives up loses the backend it had detached or spawned and not handed on. */
  function Expired(s: State, t: Tid): State
    requires t in s.threads
  {
    var carried := Carries(s.threads[t].pc);
    var world := if carried.Some? && carried.value < |s.world.backends| then Put(s.world, carried.value, Lost) else s.world;
    Goto(s, t, Unwind).(world := world)
  }

  function AfterGate(op: Op, second: bool, i: nat): Pc {
    if second then Spawning
    else if i + 1 < |Wants(op)| then Gate(false, i + 1)
    else if op.Start? then TakeOut
    else Compare
  }

  function AfterClose(next: Next): Pc {
    match next
    case ToDetach => TakeOut
    case ToGate => Gate(true, 0)
    case ToCommit(b) => Commit(b)
    case ToEnd => Unwind
  }

  /** Thread t takes the session of k out and will have it closed. */
  function TakeAway(s: State, t: Tid, k: Key, next: Next): State
    requires t in s.threads && k in s.world.sessions && s.world.sessions[k] < |s.world.backends|
  {
    Goto(s, t, Handing(s.world.sessions[k], k, next)).(world := Detach(s.world, k, t))
  }

  function Compared(s: State, t: Tid): State
    requires t in s.threads && forall k :: k in s.world.sessions ==> s.world.sessions[k] < |s.world.backends|
  {
    var sessions := s.world.sessions;
    match s.threads[t].op
    case Start(_, _) => s
    case Replace(k, expected) =>
      if k in sessions && sessions[k] == expected then TakeAway(s, t, k, ToDetach) else Goto(s, t, Unwind)
    case Retire(k, guard) =>
      if k in sessions && (guard.Some? ==> sessions[k] == guard.value) then TakeAway(s, t, k, ToEnd) else Goto(s, t, Unwind)
    case Move(from, to) =>
      if from !in sessions then Goto(s, t, Unwind)
      else if to in sessions && sessions[to] == sessions[from] then
        Goto(s, t, Unwind).(world := if from == to then Unbind(s.world, from) else s.world.(sessions := sessions - {from}))
      else if to in sessions then TakeAway(s, t, to, ToCommit(sessions[from]))
      else Goto(s, t, Commit(sessions[from]))
  }

  function Advanced(s: State, t: Tid): State
    requires CanStep(s, Advance(t))
  {
    var Thread(op, pc) := s.threads[t];
    var w := s.world;
    match pc
    case Gate(second, i) =>
      var k := Wants(op)[i];
      Goto(s, t, if k in w.closing then Saw(second, i, w.closing[k]) else AfterGate(op, second, i))
    case Saw(second, i, c) =>
      Goto(s, t, if Failed(PhaseOf(w, c)) then Unwind else Await(second, i, c))
    case Await(second, i, c) =>
      if Failed(PhaseOf(w, c)) then Goto(s, t, Unwind)
      else Goto(s, t, Gate(second, i)).(world := Pop(w, Wants(op)[i], c))
    case Compare => Compared(s, t)
    case TakeOut =>
      var k := Wants(op)[0];
      if k in w.sessions then TakeAway(s, t, k, ToGate) else Goto(s, t, Gate(true, 0))
    case Handing(b, k, next) =>
      if Refused(w, k) then Expired(s, t)
      else Goto(s, t, CloseWait(|w.tombs|, next)).(world := Register(w, k, b))
    case CloseWait(c, next) =>
      Goto(s, t, if Failed(PhaseOf(w, c)) then Unwind else AfterClose(next))
    case Spawning => Goto(s, t, Fresh(|w.backends|)).(world := Spawn(w, Wants(op)[0], t))
    case Fresh(b) => Goto(s, t, Unwind).(world := Install(w, Wants(op)[0], b))
    case Commit(b) =>
      Goto(s, t, Unwind).(world :=
        if op.Move? && op.from in w.sessions && w.sessions[op.from] == b && op.to !in w.sessions then Rebind(w, op.from, op.to) else w)
    case _ => s
  }

  // ---- Runs ----

  /** The state after a list of steps, if each of them can be taken in turn. */
  function Run(s: State, labels: seq<Label>): Option<State>
    decreases |labels|
  {
    if labels == [] then Some(s)
    else
      var before := Run(s, labels[..|labels| - 1]);
      if before.Some? && CanStep(before.value, labels[|labels| - 1]) then Some(Step(before.value, labels[|labels| - 1])) else None
  }

  /** Some interleaving leads from the empty manager to s. */
  ghost predicate Reachable(s: State) {
    exists labels :: Run(INITIAL, labels) == Some(s)
  }

  // ---- The invariant ----

  /** While a thread leases k and has passed the gate: an installed session has no tombstone. */
  predicate Quiet(w: World, k: Key) { k in w.sessions ==> k !in w.closing }
  predicate Vacant(w: World, k: Key) { k !in w.sessions }
  predicate Clear(w: World, k: Key) { k !in w.sessions && k !in w.closing }

  /** The key whose session an operation may close. */
  function MainKey(op: Op): Key {
    if op.Move? then op.to else op.key
  }

  predicate NextFits(op: Op, k: Key, next: Next) {
    && k == MainKey(op)
    && match next
       case ToDetach => op.Replace?
       case ToGate => op.Start? || op.Replace?
       case ToCommit(_) => op.Move?
       case ToEnd => op.Start? || op.Retire?
  }

  /** What a thread at this point knows about the keys it leases. */
  predicate Claims(w: World, th: Thread) {
    var op := th.op;
    match th.pc
    case Leasing => true
    case Unwind => true
    case Gate(second, i) => GateClaims(w, op, second, i)
    case Saw(second, i, _) => GateClaims(w, op, second, i)
    case Await(second, i, _) => GateClaims(w, op, second, i)
    case Compare => !op.Start? && forall j :: 0 <= j < |Wants(op)| ==> Quiet(w, Wants(op)[j])
    case TakeOut => (op.Start? && Quiet(w, op.key)) || (op.Replace? && Vacant(w, op.key))
    case Handing(_, k, next) => NextFits(op, k, next) && Clear(w, k)
    case CloseWait(_, next) => NextFits(op, MainKey(op), next) && (next.ToDetach? || next.ToGate? ==> Vacant(w, MainKey(op)))
    case Spawning => (op.Start? || op.Replace?) && Clear(w, op.key)
    case Fresh(_) => (op.Start? || op.Replace?) && Clear(w, op.key)
    case Commit(_) => op.Move?
  }

  predicate GateClaims(w: World, op: Op, second: bool, i: nat) {
    if second then i == 0 && (op.Start? || op.Replace?) && Vacant(w, op.key)
    else i < |Wants(op)| && forall j :: 0 <= j < i ==> Quiet(w, Wants(op)[j])
  }

  /** The key a carried backend belongs to. */
  function HandKey(th: Thread): Key
    requires Carries(th.pc).Some?
  {
    if th.pc.Handing? then th.pc.key else Wants(th.op)[0]
  }

  predicate HandOk(w: World, t: Tid, th: Thread) {
    Carries(th.pc).Some? ==>
      && Carries(th.pc).value < |w.backends|
      && w.backends[Carries(th.pc).value] == Backend(HandKey(th), InHand(t))
  }

  predicate LeaseFits(desk: L.Desk, t: Tid, th: Thread) {
    && t in desk.leases
    && var lease := desk.leases[t];
    && lease.wants == Wants(th.op)
    && (if th.pc.Leasing? then lease.dropped == 0
        else |lease.locks| == |lease.wants| && (!th.pc.Unwind? ==> lease.held == |lease.wants|))
  }

  predicate ThreadOk(s: State, t: Tid)
    requires t in s.threads
  {
    LeaseFits(s.desk, t, s.threads[t]) && Claims(s.world, s.threads[t]) && HandOk(s.world, t, s.threads[t])
  }

  /** Whoever has a backend in hand is at a point that says so. */
  predicate InHandOk(s: State, b: Sid)
    requires b < |s.world.backends|
  {
    s.world.backends[b].place.InHand? ==>
      var t := s.world.backends[b].place.t;
      t in s.threads && Carries(s.threads[t].pc) == Some(b)
  }

  ghost predicate Inv(s: State) {
    && L.Inv(s.desk)
    && SessionMaps.Inv(s.world)
    && s.threads.Keys == s.desk.leases.Keys
    && (forall t :: t in s.threads ==> ThreadOk(s, t))
    && (forall b :: 0 <= b < |s.world.backends| ==> InHandOk(s, b))
  }

  // ---- What other threads may do to a key one has leased ----

  /** At k sessions only go away, and a tombstone only comes with a session going away. */
  predicate Erodes(w: World, v: World, k: Key) {
    && (k in v.sessions ==> k in w.sessions)
    && (k in v.closing ==> k in w.closing || (k in w.sessions && k !in v.sessions))
  }

  /** Threads outside `except` have the same backends in hand. */
  ghost predicate HandsKept(w: World, v: World, except: set<Tid>) {
    && (forall b :: 0 <= b < |w.backends| && w.backends[b].place.InHand? && w.backends[b].place.t !in except ==>
          b < |v.backends| && v.backends[b] == w.backends[b])
    && (forall b :: 0 <= b < |v.backends| && v.backends[b].place.InHand? && v.backends[b].place.t !in except ==>
          b < |w.backends| && v.backends[b] == w.backends[b])
  }

  lemma ClaimsErode(w: World, v: World, th: Thread)
    requires Claims(w, th) && !th.pc.Leasing? && !th.pc.Unwind?
    requires forall j :: 0 <= j < |Wants(th.op)| ==> Erodes(w, v, Wants(th.op)[j])
    ensures Claims(v, th)
  {
    assert MainKey(th.op) == Wants(th.op)[0] || MainKey(th.op) == Wants(th.op)[|Wants(th.op)| - 1];
  }

  lemma OtherThread(s: State, s': State, u: Tid, except: set<Tid>)
    requires u in s.threads && u !in except && ThreadOk(s, u)
    requires u in s'.threads && s'.threads[u] == s.threads[u]
    requires u in s'.desk.leases && s'.desk.leases[u] == s.desk.leases[u]
    requires HandsKept(s.world, s'.world, except)
    requires var th := s.threads[u];
             !th.pc.Leasing? && !th.pc.Unwind? ==> forall j :: 0 <= j < |Wants(th.op)| ==> Erodes(s.world, s'.world, Wants(th.op)[j])
    ensures ThreadOk(s', u)
  {
    var th := s.threads[u];
    if !th.pc.Leasing? && !th.pc.Unwind? { ClaimsErode(s.world, s'.world, th); }
  }

  /** A thread past its leasing holds every key it wants. */
  lemma HoldsItsKeys(s: State, t: Tid, j: nat)
    requires Inv(s) && t in s.threads && !s.threads[t].pc.Leasing? && !s.threads[t].pc.Unwind?
    requires j < |Wants(s.threads[t].op)|
    ensures L.Holds(s.desk, t, Wants(s.threads[t].op)[j])
  {
    assert ThreadOk(s, t);
    assert s.desk.leases[t].wants[j] == Wants(s.threads[t].op)[j];
  }

  /** Two threads past their leasing want no common key. */
  lemma LeasesExclude(s: State, t: Tid, u: Tid, i: nat, j: nat)
    requires Inv(s) && t in s.threads && u in s.threads && t != u
    requires !s.threads[t].pc.Leasing? && !s.threads[t].pc.Unwind? && i < |Wants(s.threads[t].op)|
    requires !s.threads[u].pc.Leasing? && !s.threads[u].pc.Unwind? && j < |Wants(s.threads[u].op)|
    ensures Wants(s.threads[t].op)[i] != Wants(s.threads[u].op)[j]
  {
    HoldsItsKeys(s, t, i);
    HoldsItsKeys(s, u, j);
    if Wants(s.threads[t].op)[i] == Wants(s.threads[u].op)[j] {
      L.HoldersExclude(s.desk, t, u, Wants(s.threads[t].op)[i]);
    }
  }

  /** Steps of nobody's operation: sessions ended from outside, and close workers. */
  lemma OutsideKeepsInv(s: State, s': State)
    requires Inv(s) && s'.desk == s.desk && s'.threads == s.threads && SessionMaps.Inv(s'.world)
    requires HandsKept(s.world, s'.world, {}) && forall k :: Erodes(s.world, s'.world, k)
    ensures Inv(s')
  {
    hide L.Inv, SessionMaps.Inv, Claims, Wants, LeaseFits;
    forall u | u in s'.threads ensures ThreadOk(s', u) { OtherThread(s, s', u, {}); }
    forall b | 0 <= b < |s'.world.backends| ensures InHandOk(s', b) {
      if s'.world.backends[b].place.InHand? { assert InHandOk(s, b); }
    }
  }

  /** A step of thread t past its leasing: it may do as it likes with the keys it leases. */
  lemma InsideKeepsInv(s: State, s': State, t: Tid)
    requires Inv(s) && s'.desk == s.desk && SessionMaps.Inv(s'.world)
    requires t in s.threads && t in s'.threads && s'.threads == s.threads[t := s'.threads[t]]
    requires !s.threads[t].pc.Leasing? && !s.threads[t].pc.Unwind?
    requires ThreadOk(s', t) && HandsKept(s.world, s'.world, {t})
    requires forall k :: k !in Wants(s.threads[t].op) ==> Erodes(s.world, s'.world, k)
    requires forall b :: 0 <= b < |s'.world.backends| && s'.world.backends[b].place == InHand(t) ==> Carries(s'.threads[t].pc) == Some(b)
    ensures Inv(s')
  {
    hide L.Inv, SessionMaps.Inv, Claims, Wants, LeaseFits;
    forall u | u in s'.threads ensures ThreadOk(s', u) {
      if u != t {
        var th := s.threads[u];
        if !th.pc.Leasing? && !th.pc.Unwind? {
          forall j | 0 <= j < |Wants(th.op)| ensures Erodes(s.world, s'.world, Wants(th.op)[j]) {
            forall i | 0 <= i < |Wants(s.threads[t].op)| ensures Wants(s.threads[t].op)[i] != Wants(th.op)[j] {
              LeasesExclude(s, t, u, i, j);
            }
          }
        }
        OtherThread(s, s', u, {t});
      }
    }
    forall b | 0 <= b < |s'.world.backends| ensures InHandOk(s', b) {
      if s'.world.backends[b].place.InHand? && s'.world.backends[b].place.t != t { assert InHandOk(s, b); }
    }
  }

  /** A lease step of thread t changes nobody else's lease. */
  lemma LeaseStepKeepsInv(s: State, s': State, m: L.Move)
    requires Inv(s) && L.CanMove(s.desk, m) && s'.desk == L.Apply(s.desk, m) && s'.world == s.world
    requires s'.threads.Keys == s'.desk.leases.Keys
    requires forall u :: u in s'.threads && u != m.t ==> u in s.threads && s'.threads[u] == s.threads[u]
    requires m.t in s'.threads ==> ThreadOk(s', m.t)
    requires m.t in s.threads ==> Carries(s.threads[m.t].pc).None?
    ensures Inv(s')
  {
    hide L.Inv, SessionMaps.Inv, Claims, Wants, L.CanMove;
    assert L.Inv(s'.desk) by { L.StepKeepsInv(s.desk, m); }
    forall u | u in s'.threads ensures ThreadOk(s', u) {
      if u != m.t {
        assert ThreadOk(s, u);
        assert s'.desk.leases[u] == s.desk.leases[u] by { LeaseFrame(s.desk, m, u); }
      }
    }
    forall b | 0 <= b < |s'.world.backends| ensures InHandOk(s', b) {
      assert InHandOk(s, b);
      if s.world.backends[b].place.InHand? {
        LeaseFrame(s.desk, m, s.world.backends[b].place.t);
      }
    }
  }

  lemma LeaseFrame(d: L.Desk, m: L.Move, u: Tid)
    requires L.CanMove(d, m) && u != m.t
    ensures u in L.Apply(d, m).leases <==> u in d.leases
    ensures u in d.leases ==> L.Apply(d, m).leases[u] == d.leases[u]
  {
  }

  // ---- Each step keeps the invariant ----

  lemma GotoKeepsInv(s: State, t: Tid, pc: Pc)
    requires Inv(s) && t in s.threads && !s.threads[t].pc.Leasing? && !s.threads[t].pc.Unwind? && !pc.Leasing?
    requires Carries(s.threads[t].pc).None? && Carries(pc).None?
    requires Claims(s.world, s.threads[t].(pc := pc))
    ensures Inv(Goto(s, t, pc))
  {
    hide Claims, Wants, L.Inv, SessionMaps.Inv;
    var s' := Goto(s, t, pc);
    assert ThreadOk(s, t);
    forall b | 0 <= b < |s'.world.backends| && s'.world.backends[b].place == InHand(t) ensures Carries(pc) == Some(b) {
      assert InHandOk(s, b);
    }
    InsideKeepsInv(s, s', t);
  }

  /** A critical section of thread t that changes the maps. */
  lemma SectionKeepsInv(s: State, t: Tid, pc: Pc, w: World)
    requires Inv(s) && t in s.threads && !s.threads[t].pc.Leasing? && !s.threads[t].pc.Unwind? && !pc.Leasing?
    requires SessionMaps.Inv(w) && HandsKept(s.world, w, {t})
    requires forall k :: k !in Wants(s.threads[t].op) ==> Erodes(s.world, w, k)
    requires Claims(w, s.threads[t].(pc := pc)) && HandOk(w, t, s.threads[t].(pc := pc))
    requires forall b :: 0 <= b < |w.backends| && w.backends[b].place == InHand(t) ==> Carries(pc) == Some(b)
    ensures Inv(Goto(s, t, pc).(world := w))
  {
    hide Claims, Wants, L.Inv, SessionMaps.Inv, HandsKept, Erodes;
    assert ThreadOk(s, t);
    InsideKeepsInv(s, Goto(s, t, pc).(world := w), t);
  }

  /** A thread with nothing in hand really has nothing in hand. */
  lemma EmptyHand(s: State, t: Tid)
    requires Inv(s) && t in s.threads && Carries(s.threads[t].pc).None?
    ensures forall b :: 0 <= b < |s.world.backends| ==> s.world.backends[b].place != InHand(t)
  {
    hide L.Inv, SessionMaps.Inv, Claims;
    forall b | 0 <= b < |s.world.backends| ensures s.world.backends[b].place != InHand(t) { assert InHandOk(s, b); }
  }

  lemma FullHand(s: State, t: Tid)
    requires Inv(s) && t in s.threads
    ensures forall b :: 0 <= b < |s.world.backends| && s.world.backends[b].place == InHand(t) ==> Carries(s.threads[t].pc) == Some(b)
  {
    hide L.Inv, SessionMaps.Inv, Claims;
    forall b | 0 <= b < |s.world.backends| && s.world.backends[b].place == InHand(t) ensures Carries(s.threads[t].pc) == Some(b) {
      assert InHandOk(s, b);
    }
  }

  /** The facts of the invariant a step of thread t relies on. */
  lemma Facts(s: State, t: Tid)
    requires Inv(s) && t in s.threads
    ensures SessionMaps.Inv(s.world) && LeaseFits(s.desk, t, s.threads[t])
    ensures Claims(s.world, s.threads[t]) && HandOk(s.world, t, s.threads[t])
  {
    hide L.Inv, SessionMaps.Inv, LeaseFits, Claims, HandOk;
    assert ThreadOk(s, t);
  }

  lemma TakeAwayKeepsInv(s: State, t: Tid, k: Key, next: Next)
    requires Inv(s) && t in s.threads && !s.threads[t].pc.Leasing? && !s.threads[t].pc.Unwind? && Carries(s.threads[t].pc).None?
    requires k in s.world.sessions && k !in s.world.closing && NextFits(s.threads[t].op, k, next)
    ensures s.world.sessions[k] < |s.world.backends| && Inv(TakeAway(s, t, k, next))
  {
    hide L.Inv;
    DetachKeepsInv(s.world, k, t);
    assert SessionOk(s.world, k);
    EmptyHand(s, t);
    hide SessionMaps.Inv;
    SectionKeepsInv(s, t, Handing(s.world.sessions[k], k, next), Detach(s.world, k, t));
  }

  lemma GateKeepsInv(s: State, t: Tid)
    requires Inv(s) && CanStep(s, Advance(t)) && s.threads[t].pc.Gate?
    ensures Inv(Advanced(s, t))
  {
    hide Inv, SessionMaps.Inv;
    var Thread(op, Gate(second, i)) := s.threads[t];
    Facts(s, t);
    var k := Wants(op)[i];
    if k in s.world.closing {
      GotoKeepsInv(s, t, Saw(second, i, s.world.closing[k]));
    } else {
      GotoKeepsInv(s, t, AfterGate(op, second, i));
    }
  }

  lemma SawKeepsInv(s: State, t: Tid)
    requires Inv(s) && CanStep(s, Advance(t)) && s.threads[t].pc.Saw?
    ensures Inv(Advanced(s, t))
  {
    hide Inv, SessionMaps.Inv;
    var Thread(op, Saw(second, i, c)) := s.threads[t];
    Facts(s, t);
    GotoKeepsInv(s, t, if Failed(PhaseOf(s.world, c)) then Unwind else Await(second, i, c));
  }

  lemma AwaitKeepsInv(s: State, t: Tid)
    requires Inv(s) && CanStep(s, Advance(t)) && s.threads[t].pc.Await?
    ensures Inv(Advanced(s, t))
  {
    hide Inv, SessionMaps.Inv;
    var Thread(op, Await(second, i, c)) := s.threads[t];
    Facts(s, t);
    if Failed(PhaseOf(s.world, c)) {
      GotoKeepsInv(s, t, Unwind);
    } else {
      var w := Pop(s.world, Wants(op)[i], c);
      PopKeepsInv(s.world, Wants(op)[i], c);
      EmptyHand(s, t);
      SectionKeepsInv(s, t, Gate(second, i), w);
    }
  }

  lemma TakeOutKeepsInv(s: State, t: Tid)
    requires Inv(s) && CanStep(s, Advance(t)) && s.threads[t].pc.TakeOut?
    ensures Inv(Advanced(s, t))
  {
    hide Inv, SessionMaps.Inv;
    var op := s.threads[t].op;
    Facts(s, t);
    var k := Wants(op)[0];
    if k in s.world.sessions { TakeAwayKeepsInv(s, t, k, ToGate); } else { GotoKeepsInv(s, t, Gate(true, 0)); }
  }

  lemma MainKeyIsWanted(op: Op)
    ensures MainKey(op) in Wants(op)
  {
    assert MainKey(op) == Wants(op)[0] || MainKey(op) == Wants(op)[|Wants(op)| - 1];
  }

  lemma QuietMainKey(s: State, t: Tid)
    requires Inv(s) && t in s.threads && s.threads[t].pc.Compare?
    ensures Quiet(s.world, MainKey(s.threads[t].op)) && !s.threads[t].op.Start?
  {
    hide L.Inv, SessionMaps.Inv, Wants, Quiet;
    assert ThreadOk(s, t);
    MainKeyIsWanted(s.threads[t].op);
  }

  lemma UnwindKeepsInv(s: State, t: Tid)
    requires Inv(s) && t in s.threads && !s.threads[t].pc.Leasing? && !s.threads[t].pc.Unwind? && Carries(s.threads[t].pc).None?
    ensures Inv(Goto(s, t, Unwind))
  {
    hide Inv, Wants;
    GotoKeepsInv(s, t, Unwind);
  }

  lemma MoveCompareKeepsInv(s: State, t: Tid)
    requires Inv(s) && CanStep(s, Advance(t)) && s.threads[t].pc.Compare? && s.threads[t].op.Move?
    ensures Inv(Compared(s, t))
  {
    hide Inv, Wants;
    QuietMainKey(s, t);
    var Move(from, to) := s.threads[t].op;
    var sessions := s.world.sessions;
    if from !in sessions { UnwindKeepsInv(s, t); }
    else if to in sessions && sessions[to] == sessions[from] { UnbindStepKeepsInv(s, t); }
    else if to in sessions { TakeAwayKeepsInv(s, t, to, ToCommit(sessions[from])); }
    else { GotoKeepsInv(s, t, Commit(sessions[from])); }
  }

  lemma CompareKeepsInv(s: State, t: Tid)
    requires Inv(s) && CanStep(s, Advance(t)) && s.threads[t].pc.Compare?
    ensures Inv(Compared(s, t))
  {
    hide Inv, Wants;
    QuietMainKey(s, t);
    var sessions := s.world.sessions;
    match s.threads[t].op
    case Replace(k, expected) =>
      if k in sessions && sessions[k] == expected { TakeAwayKeepsInv(s, t, k, ToDetach); } else { UnwindKeepsInv(s, t); }
    case Retire(k, guard) =>
      if k in sessions && (guard.Some? ==> sessions[k] == guard.value) { TakeAwayKeepsInv(s, t, k, ToEnd); } else { UnwindKeepsInv(s, t); }
    case Move(_, _) => MoveCompareKeepsInv(s, t);
    case _ =>
  }

  /** One backend is under one key only, so only a move onto its own key finds itself there. */
  lemma SameSessionSameKey(w: World, j: Key, k: Key)
    requires SessionMaps.Inv(w) && j in w.sessions && k in w.sessions && w.sessions[j] == w.sessions[k]
    ensures j == k
  {
    assert SessionOk(w, j) && SessionOk(w, k);
  }

  lemma UnbindFrame(w: World, k: Key)
    requires SessionMaps.Inv(w) && k in w.sessions && w.sessions[k] < |w.backends|
    ensures forall t :: HandsKept(w, Unbind(w, k), {t})
    ensures forall j :: Erodes(w, Unbind(w, k), j)
  {
    assert SessionOk(w, k);
  }

  lemma UnbindStepKeepsInv(s: State, t: Tid)
    requires Inv(s) && CanStep(s, Advance(t)) && s.threads[t].pc.Compare? && s.threads[t].op.Move?
    requires s.threads[t].op.from in s.world.sessions && s.threads[t].op.to in s.world.sessions
    requires s.world.sessions[s.threads[t].op.from] == s.world.sessions[s.threads[t].op.to]
    ensures s.threads[t].op.from == s.threads[t].op.to && Inv(Compared(s, t))
  {
    hide Inv, SessionMaps.Inv, Wants, Erodes, HandsKept;
    var Move(from, to) := s.threads[t].op;
    Facts(s, t);
    SameSessionSameKey(s.world, from, to);
    UnbindKeepsInv(s.world, from);
    UnbindFrame(s.world, from);
    EmptyHand(s, t);
    SectionKeepsInv(s, t, Unwind, Unbind(s.world, from));
  }

  lemma HandingKeepsInv(s: State, t: Tid)
    requires Inv(s) && CanStep(s, Advance(t)) && s.threads[t].pc.Handing?
    ensures !Refused(s.world, s.threads[t].pc.key) && Inv(Advanced(s, t))
  {
    hide Inv, SessionMaps.Inv;
    var Thread(op, Handing(b, k, next)) := s.threads[t];
    Facts(s, t);
    RegisterKeepsInv(s.world, k, b);
    FullHand(s, t);
    MainKeyIsWanted(op);
    SectionKeepsInv(s, t, CloseWait(|s.world.tombs|, next), Register(s.world, k, b));
  }

  lemma CloseWaitKeepsInv(s: State, t: Tid)
    requires Inv(s) && CanStep(s, Advance(t)) && s.threads[t].pc.CloseWait?
    ensures Inv(Advanced(s, t))
  {
    hide Inv, SessionMaps.Inv;
    var Thread(op, CloseWait(c, next)) := s.threads[t];
    Facts(s, t);
    GotoKeepsInv(s, t, if Failed(PhaseOf(s.world, c)) then Unwind else AfterClose(next));
  }

  lemma SpawnFrame(w: World, k: Key, t: Tid)
    ensures HandsKept(w, Spawn(w, k, t), {t}) && forall j :: Erodes(w, Spawn(w, k, t), j)
  {
  }

  lemma SpawningKeepsInv(s: State, t: Tid)
    requires Inv(s) && CanStep(s, Advance(t)) && s.threads[t].pc.Spawning?
    ensures Inv(Advanced(s, t))
  {
    hide Inv, SessionMaps.Inv, Erodes, HandsKept;
    var op := s.threads[t].op;
    Facts(s, t);
    SpawnKeepsInv(s.world, Wants(op)[0], t);
    SpawnFrame(s.world, Wants(op)[0], t);
    EmptyHand(s, t);
    SectionKeepsInv(s, t, Fresh(|s.world.backends|), Spawn(s.world, Wants(op)[0], t));
  }

  lemma InstallStepKeepsInv(s: State, t: Tid)
    requires Inv(s) && CanStep(s, Advance(t)) && s.threads[t].pc.Fresh?
    ensures Inv(Advanced(s, t))
  {
    hide Inv, SessionMaps.Inv;
    var Thread(op, Fresh(b)) := s.threads[t];
    Facts(s, t);
    InstallKeepsInv(s.world, Wants(op)[0], b);
    FullHand(s, t);
    SectionKeepsInv(s, t, Unwind, Install(s.world, Wants(op)[0], b));
  }

  lemma RebindFrame(w: World, from: Key, to: Key)
    requires SessionMaps.Inv(w) && from in w.sessions && w.sessions[from] < |w.backends|
    ensures forall t :: HandsKept(w, Rebind(w, from, to), {t})
    ensures forall j :: j != to ==> Erodes(w, Rebind(w, from, to), j)
    ensures forall b :: 0 <= b < |w.backends| && w.backends[b].place.InHand? ==> Rebind(w, from, to).backends[b] == w.backends[b]
    ensures forall b :: 0 <= b < |w.backends| && Rebind(w, from, to).backends[b].place.InHand? ==> Rebind(w, from, to).backends[b] == w.backends[b]
  {
    assert SessionOk(w, from);
  }

  lemma CommitKeepsInv(s: State, t: Tid)
    requires Inv(s) && CanStep(s, Advance(t)) && s.threads[t].pc.Commit?
    ensures Inv(Advanced(s, t))
  {
    hide Inv, SessionMaps.Inv;
    var Thread(op, Commit(b)) := s.threads[t];
    Facts(s, t);
    var w := s.world;
    if op.from in w.sessions && w.sessions[op.from] == b && op.to !in w.sessions {
      RebindKeepsInv(w, op.from, op.to);
      RebindFrame(w, op.from, op.to);
      EmptyHand(s, t);
      MainKeyIsWanted(op);
      SectionKeepsInv(s, t, Unwind, Rebind(w, op.from, op.to));
    } else {
      GotoKeepsInv(s, t, Unwind);
    }
  }

  lemma ExpireKeepsInv(s: State, t: Tid)
    requires Inv(s) && CanStep(s, Expire(t))
    ensures Inv(Expired(s, t))
  {
    hide Inv, SessionMaps.Inv;
    var Thread(op, pc) := s.threads[t];
    Facts(s, t);
    if Carries(pc).Some? {
      LoseKeepsInv(s.world, Carries(pc).value);
      FullHand(s, t);
      SectionKeepsInv(s, t, Unwind, Put(s.world, Carries(pc).value, Lost));
    } else if pc.Leasing? {
      GiveUpLeasing(s, t);
    } else {
      GotoKeepsInv(s, t, Unwind);
    }
  }

  lemma GiveUpLeasing(s: State, t: Tid)
    requires Inv(s) && t in s.threads && CanStep(s, Expire(t)) && s.threads[t].pc.Leasing?
    ensures Inv(Goto(s, t, Unwind))
  {
    hide L.Inv, SessionMaps.Inv, Claims, Wants, CanStep;
    var s' := Goto(s, t, Unwind);
    forall u | u in s'.threads ensures ThreadOk(s', u) {
      assert ThreadOk(s, u);
      if u == t { GivingUp(s, t); }
    }
    forall b | 0 <= b < |s'.world.backends| ensures InHandOk(s', b) { assert InHandOk(s, b); }
  }

  lemma GivingUp(s: State, t: Tid)
    requires CanStep(s, Expire(t)) && s.threads[t].pc.Leasing? && ThreadOk(s, t)
    ensures ThreadOk(Goto(s, t, Unwind), t)
  {
  }

  lemma SameNames(s: State)
    requires Inv(s)
    ensures s.threads.Keys == s.desk.leases.Keys
  {
  }

  lemma BeginKeepsInv(s: State, t: Tid, op: Op)
    requires Inv(s) && CanStep(s, Begin(t, op))
    ensures Inv(Step(s, Begin(t, op)))
  {
    hide Inv, Wants;
    SameNames(s);
    LeaseStepKeepsInv(s, Step(s, Begin(t, op)), L.Open(t, Wants(op)));
  }

  lemma ReferKeepsInv(s: State, t: Tid)
    requires Inv(s) && CanStep(s, Refer(t))
    ensures Inv(Step(s, Refer(t)))
  {
    hide Inv, Wants;
    SameNames(s);
    Facts(s, t);
    LeaseStepKeepsInv(s, Step(s, Refer(t)), L.Refer(t));
  }

  lemma TakeKeepsInv(s: State, t: Tid)
    requires Inv(s) && CanStep(s, Take(t))
    ensures Inv(Step(s, Take(t)))
  {
    hide Inv, Wants;
    SameNames(s);
    Facts(s, t);
    LeaseStepKeepsInv(s, Step(s, Take(t)), L.Take(t));
  }

  lemma FreeKeepsInv(s: State, t: Tid)
    requires Inv(s) && CanStep(s, Free(t))
    ensures Inv(Step(s, Free(t)))
  {
    hide Inv, Wants;
    SameNames(s);
    Facts(s, t);
    LeaseStepKeepsInv(s, Step(s, Free(t)), L.Free(t));
  }

  lemma DropKeepsInv(s: State, t: Tid)
    requires Inv(s) && CanStep(s, Drop(t))
    ensures Inv(Step(s, Drop(t)))
  {
    hide Inv, Wants;
    SameNames(s);
    Facts(s, t);
    LeaseStepKeepsInv(s, Step(s, Drop(t)), L.Drop(t));
  }

  lemma ResumeFailKeepsInv(s: State, t: Tid)
    requires Inv(s) && CanStep(s, ResumeFail(t))
    ensures Inv(Step(s, ResumeFail(t)))
  {
    hide Inv, SessionMaps.Inv;
    Facts(s, t);
    FullHand(s, t);
    SectionKeepsInv(s, t, Handing(s.threads[t].pc.b, s.threads[t].op.key, ToEnd), s.world);
  }

  lemma AdvanceKeepsInv(s: State, t: Tid)
    requires Inv(s) && CanStep(s, Advance(t))
    ensures Inv(Step(s, Advance(t)))
  {
    hide Inv, Wants;
    match s.threads[t].pc
    case Gate(_, _) => GateKeepsInv(s, t);
    case Saw(_, _, _) => SawKeepsInv(s, t);
    case Await(_, _, _) => AwaitKeepsInv(s, t);
    case Compare => CompareKeepsInv(s, t);
    case TakeOut => TakeOutKeepsInv(s, t);
    case Handing(_, _, _) => HandingKeepsInv(s, t);
    case CloseWait(_, _) => CloseWaitKeepsInv(s, t);
    case Spawning => SpawningKeepsInv(s, t);
    case Fresh(_) => InstallStepKeepsInv(s, t);
    case Commit(_) => CommitKeepsInv(s, t);
    case _ =>
  }

  lemma EndFrame(w: World, k: Key)
    requires SessionMaps.Inv(w) && (k in w.sessions ==> w.sessions[k] < |w.backends|)
    ensures HandsKept(w, End(w, k), {}) && forall j :: Erodes(w, End(w, k), j)
  {
    if k in w.sessions { assert SessionOk(w, k); }
  }

  lemma CloseFrame(w: World, c: Cid, ok: bool)
    requires SessionMaps.Inv(w) && c < |w.tombs| && w.tombs[c].phase.Running? && w.tombs[c].backend < |w.backends|
    ensures HandsKept(w, Close(w, c, ok), {}) && forall j :: Erodes(w, Close(w, c, ok), j)
  {
    assert TombOk(w, c);
  }

  lemma OutsideStepKeepsInv(s: State, l: Label)
    requires Inv(s) && CanStep(s, l) && (l.EndNow? || l.WorkerClose? || l.WorkerAnnounce? || l.PopTomb?)
    ensures Inv(Step(s, l))
  {
    hide L.Inv, SessionMaps.Inv, ThreadOk, InHandOk;
    var w := s.world;
    match l {
      case EndNow(k) => EndKeepsInv(w, k); EndFrame(w, k);
      case WorkerClose(c, ok) => CloseKeepsInv(w, c, ok); CloseFrame(w, c, ok);
      case WorkerAnnounce(c) => AnnounceKeepsInv(w, c);
      case PopTomb(c) => PopKeepsInv(w, w.tombs[c].key, c);
    }
    OutsideKeepsInv(s, Step(s, l));
  }

  lemma StepKeepsInv(s: State, l: Label)
    requires Inv(s) && CanStep(s, l)
    ensures Inv(Step(s, l))
  {
    hide Inv, Wants, Advanced, Expired, L.Apply;
    match l
    case Begin(t, op) => BeginKeepsInv(s, t, op);
    case Refer(t) => ReferKeepsInv(s, t);
    case Take(t) => TakeKeepsInv(s, t);
    case Advance(t) => AdvanceKeepsInv(s, t);
    case ResumeFail(t) => ResumeFailKeepsInv(s, t);
    case Expire(t) => ExpireKeepsInv(s, t);
    case Free(t) => FreeKeepsInv(s, t);
    case Drop(t) => DropKeepsInv(s, t);
    case _ => OutsideStepKeepsInv(s, l);
  }

  lemma {:induction false} RunKeepsInv(s: State, labels: seq<Label>)
    requires Inv(s) && Run(s, labels).Some?
    ensures Inv(Run(s, labels).value)
    decreases |labels|
  {
    hide Inv, CanStep, Step;
    if labels != [] {
      RunKeepsInv(s, labels[..|labels| - 1]);
      StepKeepsInv(Run(s, labels[..|labels| - 1]).value, labels[|labels| - 1]);
    }
  }

  lemma ReachableInv(s: State)
    requires Reachable(s)
    ensures Inv(s)
  {
    var labels :| Run(INITIAL, labels) == Some(s);
    RunKeepsInv(INITIAL, labels);
  }

  // ---- Main results ----

  /** In every reachable state the reference counts are exact, all who refer to a key share
      one lock object, at most one of them holds it, and while anybody waits for a lock
      somebody who has one is not waiting. */
  lemma LeasesAreSound(s: State, k: Key, t: Tid, u: Tid)
    requires Reachable(s)
    ensures k in s.desk.registry <==> L.Users(s.desk, k) != {}
    ensures k in s.desk.registry ==> s.desk.registry[k].refs == |L.Users(s.desk, k)|
    ensures t in L.Users(s.desk, k) && u in L.Users(s.desk, k) ==>
              exists i, j :: 0 <= i < |s.desk.leases[t].locks| && 0 <= j < |s.desk.leases[u].locks|
                && s.desk.leases[t].locks[i] == s.desk.leases[u].locks[j] == s.desk.registry[k].lock
    ensures L.Holds(s.desk, t, k) && L.Holds(s.desk, u, k) ==> t == u
    ensures L.Blocked(s.desk, t) ==> exists v :: v in s.desk.leases && s.desk.leases[v].held > 0 && !L.Blocked(s.desk, v)
  {
    hide L.Inv, SessionMaps.Inv, Reachable, ThreadOk, InHandOk;
    ReachableInv(s);
    L.RefcountsAreExact(s.desk, k);
    if t in L.Users(s.desk, k) && u in L.Users(s.desk, k) { L.LeaseHoldersShareTheLock(s.desk, t, u, k); }
    if L.Holds(s.desk, t, k) && L.Holds(s.desk, u, k) { L.HoldersExclude(s.desk, t, u, k); }
    if L.Blocked(s.desk, t) { var v := L.NoDeadlock(s.desk, t); }
  }

  /** In every interleaving a backend is spawned for a key only by the one holder of the
      key's lease, while no session is installed there and no tombstone is registered there,
      finished or not; every backend the key had before was closed successfully, or lost. */
  lemma SpawnsAlone(s: State, t: Tid)
    requires Reachable(s) && t in s.threads && s.threads[t].pc.Spawning?
    ensures var k := MainKey(s.threads[t].op);
            && L.Holds(s.desk, t, k) && (forall u :: L.Holds(s.desk, u, k) ==> u == t)
            && k !in s.world.sessions && k !in s.world.closing
            && forall b :: 0 <= b < |s.world.backends| && s.world.backends[b].home == k ==>
                 s.world.backends[b].place.Closed? || s.world.backends[b].place.Lost?
  {
    hide Inv, SessionMaps.Inv, L.Inv, Reachable;
    ReachableInv(s);
    Facts(s, t);
    var k := MainKey(s.threads[t].op);
    HoldsItsKeys(s, t, 0);
    forall u | L.Holds(s.desk, u, k) ensures u == t { OneHolder(s, t, u, k); }
    forall b | 0 <= b < |s.world.backends| && s.world.backends[b].home == k
      ensures s.world.backends[b].place.Closed? || s.world.backends[b].place.Lost?
    {
      ClearKey(s.world, k, b);
      if s.world.backends[b].place.InHand? { InHandIsHeld(s, b); OneHolder(s, t, s.world.backends[b].place.t, k); }
    }
  }

  lemma OneHolder(s: State, t: Tid, u: Tid, k: Key)
    requires Inv(s) && L.Holds(s.desk, t, k) && L.Holds(s.desk, u, k)
    ensures t == u
  {
    L.HoldersExclude(s.desk, t, u, k);
  }

  /** A backend in a thread's hand belongs to a key that thread has leased. */
  lemma InHandIsHeld(s: State, b: Sid)
    requires Inv(s) && b < |s.world.backends| && s.world.backends[b].place.InHand?
    ensures var t := s.world.backends[b].place.t;
            t in s.threads && Carries(s.threads[t].pc) == Some(b) && L.Holds(s.desk, t, s.world.backends[b].home)
  {
    hide L.Inv, SessionMaps.Inv;
    assert InHandOk(s, b);
    var t := s.world.backends[b].place.t;
    assert ThreadOk(s, t);
    var th := s.threads[t];
    MainKeyIsWanted(th.op);
    assert HandKey(th) == MainKey(th.op);
    var j :| 0 <= j < |Wants(th.op)| && Wants(th.op)[j] == MainKey(th.op);
    HoldsItsKeys(s, t, j);
  }

  /** The index guards of the steps always hold: only a thread's position and the flags it
      waits for decide what it may do. */
  lemma GuardsHold(s: State, k: Key, c: Cid, t: Tid)
    requires Reachable(s)
    ensures CanStep(s, EndNow(k))
    ensures c < |s.world.tombs| && s.world.tombs[c].phase.Running? ==> CanStep(s, WorkerClose(c, true)) && CanStep(s, WorkerClose(c, false))
    ensures t in s.threads && !s.threads[t].pc.Leasing? && !s.threads[t].pc.Unwind? ==>
              var pc := s.threads[t].pc;
              CanStep(s, Advance(t)) <==> (pc.Await? || pc.CloseWait? ==> Completed(PhaseOf(s.world, pc.c)))
  {
    hide L.Inv, Reachable, ThreadOk, InHandOk;
    ReachableInv(s);
    forall j | j in s.world.sessions ensures s.world.sessions[j] < |s.world.backends| { assert SessionOk(s.world, j); }
    if c < |s.world.tombs| { assert TombOk(s.world, c); }
    if t in s.threads { Facts(s, t); }
  }

  /** A leased thread's registration of a close is never refused: the raise of
      `_register_closing_session_unlocked` can only reach end_session and keepalive. */
  lemma HandOverIsNeverRefused(s: State, t: Tid)
    requires Reachable(s) && t in s.threads && s.threads[t].pc.Handing?
    ensures !Refused(s.world, s.threads[t].pc.key) && s.threads[t].pc.key !in s.world.sessions
  {
    hide Inv, Reachable;
    ReachableInv(s);
    Facts(s, t);
  }

  // ---- Failed closes ----

  predicate FailedAt(s: State, k: Key, c: Cid) {
    k in s.world.closing && s.world.closing[k] == c && c < |s.world.tombs| && Failed(s.world.tombs[c].phase)
  }

  lemma {:induction false} FailedStays(s: State, l: Label, k: Key, c: Cid)
    requires Inv(s) && CanStep(s, l) && FailedAt(s, k, c)
    ensures FailedAt(Step(s, l), k, c)
  {
    hide Inv, L.Apply, L.CanMove, Wants;
    match l
    case Advance(t) =>
      Facts(s, t);
      if s.threads[t].pc.Handing? { HandingKeepsInv(s, t); }
    case _ =>
  }

  /** A tombstone whose close failed is never removed or replaced. */
  lemma {:induction false} FailedForever(s: State, labels: seq<Label>, k: Key, c: Cid)
    requires Inv(s) && FailedAt(s, k, c) && Run(s, labels).Some?
    ensures FailedAt(Run(s, labels).value, k, c)
    decreases |labels|
  {
    hide Inv, CanStep, Step, FailedAt;
    if labels != [] {
      RunKeepsInv(s, labels[..|labels| - 1]);
      FailedForever(s, labels[..|labels| - 1], k, c);
      FailedStays(Run(s, labels[..|labels| - 1]).value, labels[|labels| - 1], k, c);
    }
  }

  /** So after a failed close no operation gets past that key's gate and none spawns there,
      whatever happens in between. */
  lemma FailedCloseShutsTheKey(s: State, labels: seq<Label>, k: Key, c: Cid, t: Tid)
    requires Reachable(s) && FailedAt(s, k, c) && Run(s, labels).Some?
    ensures var e := Run(s, labels).value;
            FailedAt(e, k, c) &&
            (t in e.threads && CanStep(e, Advance(t)) ==>
              var th := e.threads[t];
              var after := Step(e, Advance(t)).threads[t].pc;
              && (th.pc.Spawning? || th.pc.Fresh? ==> MainKey(th.op) != k)
              && (th.pc.Gate? && Wants(th.op)[th.pc.i] == k ==> after == Saw(th.pc.second, th.pc.i, c))
              && ((th.pc.Saw? || th.pc.Await?) && th.pc.c == c ==> after == Unwind))
  {
    hide Inv, Reachable, Wants, L.Apply;
    ReachableInv(s);
    FailedForever(s, labels, k, c);
    RunKeepsInv(s, labels);
    var e := Run(s, labels).value;
    if t in e.threads { Facts(e, t); }
  }

  // ---- Successful closes ----

  ghost predicate StepsTo(s: State, l: Label, e: State) {
    CanStep(s, l) && e == Step(s, l)
  }

  /** A close that succeeds reopens its key: the worker's three steps are possible whenever
      their turn comes, and afterwards no tombstone is left there. */
  lemma SuccessfulCloseOpensTheKey(s: State, c: Cid) returns (s1: State, s2: State, e: State)
    requires Reachable(s) && c < |s.world.tombs| && s.world.tombs[c].phase.Running?
    ensures StepsTo(s, WorkerClose(c, true), s1) && StepsTo(s1, WorkerAnnounce(c), s2) && StepsTo(s2, PopTomb(c), e)
    ensures e.world.closing == s.world.closing - {s.world.tombs[c].key}
    ensures s.world.tombs[c].backend < |e.world.backends| && e.world.backends[s.world.tombs[c].backend].place == Closed(c)
  {
    hide Inv, Reachable, SessionMaps.Inv;
    ReachableInv(s);
    WorldFacts(s);
    TombIs(s.world, c);
    s1 := Step(s, WorkerClose(c, true));
    s2 := Step(s1, WorkerAnnounce(c));
    e := Step(s2, PopTomb(c));
  }

  /** Nor does a thread depend on the worker to remove it: at the gate four steps of its own
      take it past a close that is over, without waiting. */
  lemma GatePassesWhatIsOver(s: State, t: Tid) returns (s1: State, s2: State, s3: State, e: State)
    requires Reachable(s) && t in s.threads && s.threads[t].pc.Gate? && s.threads[t].pc.i < |Wants(s.threads[t].op)|
    requires var k := Wants(s.threads[t].op)[s.threads[t].pc.i];
             k in s.world.closing && Over(PhaseOf(s.world, s.world.closing[k]))
    ensures StepsTo(s, Advance(t), s1) && StepsTo(s1, Advance(t), s2) && StepsTo(s2, Advance(t), s3) && StepsTo(s3, Advance(t), e)
    ensures var Thread(op, Gate(second, i)) := s.threads[t];
            t in e.threads && e.threads[t] == Thread(op, AfterGate(op, second, i)) && e.world.closing == s.world.closing - {Wants(op)[i]}
  {
    hide Inv, Reachable, SessionMaps.Inv, Wants, Claims, L.CanMove;
    ReachableInv(s);
    Facts(s, t);
    SessionsAreBackends(s.world);
    s1 := Step(s, Advance(t));
    s2 := Step(s1, Advance(t));
    s3 := Step(s2, Advance(t));
    e := Step(s3, Advance(t));
  }

  // ---- Conservation ----

  /** The two ways to lose a backend: giving up between taking it out (or spawning it) and
      passing it on, and moving a session onto its own key. */
  predicate Loses(s: State, l: Label, b: Sid) {
    || (l.Expire? && l.t in s.threads && Carries(s.threads[l.t].pc) == Some(b))
    || (l.Advance? && l.t in s.threads && s.threads[l.t].pc.Compare? && s.threads[l.t].op.Move?
        && var k := s.threads[l.t].op.from;
           k == s.threads[l.t].op.to && k in s.world.sessions && s.world.sessions[k] == b)
  }

  ghost predicate Ended(p: Place) { p.Closed? || p.CloseFailed? || p.Lost? }

  lemma WorldFacts(s: State)
    requires Inv(s)
    ensures SessionMaps.Inv(s.world)
  {
  }

  lemma InstalledIs(w: World, k: Key)
    requires SessionMaps.Inv(w)
    ensures k in w.sessions ==> SessionOk(w, k)
  {
  }

  lemma TombIs(w: World, c: Cid)
    requires SessionMaps.Inv(w) && c < |w.tombs|
    ensures TombOk(w, c)
  {
  }

  lemma PlacesMoveOnExpiry(s: State, t: Tid, b: Sid)
    requires Inv(s) && CanStep(s, Expire(t)) && b < |s.world.backends|
    ensures b < |Expired(s, t).world.backends|
    ensures Ended(s.world.backends[b].place) ==> Expired(s, t).world.backends[b] == s.world.backends[b]
    ensures !Ended(s.world.backends[b].place) ==> (Expired(s, t).world.backends[b].place.Lost? <==> Loses(s, Expire(t), b))
  {
    hide Inv, Claims, LeaseFits;
    Facts(s, t);
  }

  lemma PlacesMoveInside(s: State, t: Tid, b: Sid)
    requires Inv(s) && CanStep(s, Advance(t)) && b < |s.world.backends|
    ensures b < |Advanced(s, t).world.backends|
    ensures Ended(s.world.backends[b].place) ==> Advanced(s, t).world.backends[b] == s.world.backends[b]
    ensures !Ended(s.world.backends[b].place) ==> (Advanced(s, t).world.backends[b].place.Lost? <==> Loses(s, Advance(t), b))
  {
    hide Inv, SessionMaps.Inv, Wants;
    Facts(s, t);
    var op := s.threads[t].op;
    InstalledIs(s.world, MainKey(op));
    if op.Move? { InstalledIs(s.world, op.from); }
    if s.threads[t].pc.TakeOut? { InstalledIs(s.world, Wants(op)[0]); }
    if s.threads[t].pc.Handing? { HandingKeepsInv(s, t); }
  }

  /** A closed, failed or lost backend stays so, and a step loses a backend exactly in those
      two ways. */
  lemma PlacesMove(s: State, l: Label, b: Sid)
    requires Inv(s) && CanStep(s, l) && b < |s.world.backends|
    ensures b < |Step(s, l).world.backends|
    ensures Ended(s.world.backends[b].place) ==> Step(s, l).world.backends[b] == s.world.backends[b]
    ensures !Ended(s.world.backends[b].place) ==> (Step(s, l).world.backends[b].place.Lost? <==> Loses(s, l, b))
  {
    hide Inv, SessionMaps.Inv, L.Apply, L.CanMove, Advanced, Expired;
    match l
    case Advance(t) => PlacesMoveInside(s, t, b);
    case Expire(t) => PlacesMoveOnExpiry(s, t, b);
    case EndNow(k) => WorldFacts(s); InstalledIs(s.world, k);
    case WorkerClose(c, ok) => WorldFacts(s); assert TombOk(s.world, c) by { TombIs(s.world, c); }
    case _ =>
  }

  ghost predicate StepLosesNone(s: State, l: Label) {
    forall b: Sid :: !Loses(s, l, b)
  }

  ghost predicate LosesNone(s: State, labels: seq<Label>)
    requires Run(s, labels).Some?
    decreases |labels|
  {
    labels == [] ||
    (var before := Run(s, labels[..|labels| - 1]).value;
     LosesNone(s, labels[..|labels| - 1]) && StepLosesNone(before, labels[|labels| - 1]))
  }

  /** New backends start in their spawner's hand. */
  lemma NewcomersAreInHand(s: State, l: Label, b: Sid)
    requires Inv(s) && CanStep(s, l) && |s.world.backends| <= b < |Step(s, l).world.backends|
    ensures Step(s, l).world.backends[b].place.InHand?
  {
    hide Inv, Wants, L.Apply, L.CanMove;
    match l
    case Advance(t) => Facts(s, t);
    case _ =>
  }

  /** Some step of the run lost b, which was not closed yet. */
  ghost predicate LostIn(labels: seq<Label>, b: Sid)
    requires Run(INITIAL, labels).Some?
    decreases |labels|
  {
    labels != [] &&
    (LostIn(labels[..|labels| - 1], b) || LosesNow(Run(INITIAL, labels[..|labels| - 1]).value, labels[|labels| - 1], b))
  }

  ghost predicate LosesNow(s: State, l: Label, b: Sid) {
    b < |s.world.backends| && !Ended(s.world.backends[b].place) && Loses(s, l, b)
  }

  lemma NoBackendGoes(s: State, l: Label)
    requires Inv(s) && CanStep(s, l)
    ensures |s.world.backends| <= |Step(s, l).world.backends|
  {
    hide Inv, CanStep, Step, Loses;
    if s.world.backends != [] { PlacesMove(s, l, |s.world.backends| - 1); }
  }

  lemma {:induction false} NotSpawnedNotLost(labels: seq<Label>, b: Sid)
    requires Run(INITIAL, labels).Some? && b >= |Run(INITIAL, labels).value.world.backends|
    ensures !LostIn(labels, b)
    decreases |labels|
  {
    hide CanStep, Step, Loses, Inv;
    if labels != [] {
      InitialInv();
      RunKeepsInv(INITIAL, labels[..|labels| - 1]);
      NoBackendGoes(Run(INITIAL, labels[..|labels| - 1]).value, labels[|labels| - 1]);
      NotSpawnedNotLost(labels[..|labels| - 1], b);
    }
  }

  lemma {:induction false} LostExactly(labels: seq<Label>, b: Sid)
    requires Run(INITIAL, labels).Some? && b < |Run(INITIAL, labels).value.world.backends|
    ensures Run(INITIAL, labels).value.world.backends[b].place.Lost? <==> LostIn(labels, b)
    decreases |labels|
  {
    hide CanStep, Step, Loses, Inv;
    if labels != [] {
      var shorter, l := labels[..|labels| - 1], labels[|labels| - 1];
      var before := Run(INITIAL, shorter).value;
      InitialInv();
      RunKeepsInv(INITIAL, shorter);
      if b < |before.world.backends| {
        LostExactly(shorter, b);
        PlacesMove(before, l, b);
        LostHasEnded(before.world.backends[b].place);
      } else {
        NewcomersAreInHand(before, l, b);
        NotSpawnedNotLost(shorter, b);
      }
    }
  }

  lemma LostHasEnded(p: Place)
    ensures p.Lost? ==> Ended(p)
  {
  }

  lemma InitialInv()
    ensures Inv(INITIAL)
  {
  }

  /** When a backend is spawned for a key, an earlier backend of the key has been closed
      exactly if no step of the run lost it. */
  lemma ClosedUnlessLost(labels: seq<Label>, t: Tid, b: Sid)
    requires Run(INITIAL, labels).Some?
    requires var s := Run(INITIAL, labels).value;
             && t in s.threads && s.threads[t].pc.Spawning?
             && b < |s.world.backends| && s.world.backends[b].home == MainKey(s.threads[t].op)
    ensures Run(INITIAL, labels).value.world.backends[b].place.Closed? <==> !LostIn(labels, b)
  {
    hide CanStep, Step, Inv, L.Holds, Run;
    LostExactly(labels, b);
    SpawnsAlone(Run(INITIAL, labels).value, t);
  }

  lemma {:induction false} LosesNoneLosesNobody(labels: seq<Label>, b: Sid)
    requires Run(INITIAL, labels).Some? && LosesNone(INITIAL, labels)
    ensures !LostIn(labels, b)
    decreases |labels|
  {
    hide CanStep, Step, Loses;
    if labels != [] {
      LosesNoneLosesNobody(labels[..|labels| - 1], b);
    }
  }

  /** So transports never overlap in a run that loses none: when a backend is spawned for a
      key, every backend the key ever had has been closed. */
  lemma NoOverlap(labels: seq<Label>, t: Tid, b: Sid)
    requires Run(INITIAL, labels).Some? && LosesNone(INITIAL, labels)
    requires var s := Run(INITIAL, labels).value;
             && t in s.threads && s.threads[t].pc.Spawning?
             && b < |s.world.backends| && s.world.backends[b].home == MainKey(s.threads[t].op)
    ensures Run(INITIAL, labels).value.world.backends[b].place.Closed?
  {
    hide CanStep, Step, Inv, Run;
    ClosedUnlessLost(labels, t, b);
    LosesNoneLosesNobody(labels, b);
  }

  // ---- Installed beside a tombstone ----

  /** The one step that installs a session at k while a tombstone is registered there: the
      commit of a rebind. */
  predicate CommitsBeside(s: State, l: Label, k: Key) {
    && l.Advance? && l.t in s.threads && s.threads[l.t].op.Move? && s.threads[l.t].pc.Commit?
    && var from := s.threads[l.t].op.from;
       && s.threads[l.t].op.to == k && from != k
       && from in s.world.sessions && s.world.sessions[from] == s.threads[l.t].pc.b
       && k !in s.world.sessions && k in s.world.closing
  }

  lemma QuietStep(s: State, l: Label, k: Key)
    requires Inv(s) && CanStep(s, l) && Quiet(s.world, k)
    ensures !Quiet(Step(s, l).world, k) <==> CommitsBeside(s, l, k)
  {
    hide Inv, SessionMaps.Inv, L.Apply, L.CanMove, Wants;
    WorldFacts(s);
    SessionsAreBackends(s.world);
    match l
    case Advance(t) =>
      Facts(s, t);
      SingleWant(s.threads[t].op);
      if s.threads[t].pc.Handing? { HandingKeepsInv(s, t); }
    case _ =>
  }

  lemma SingleWant(op: Op)
    ensures !op.Move? ==> Wants(op)[0] == op.key
  {
  }

  /** At no moment of the run was a session installed at k beside a tombstone. */
  ghost predicate AlwaysQuiet(labels: seq<Label>, k: Key)
    requires Run(INITIAL, labels).Some?
    decreases |labels|
  {
    Quiet(Run(INITIAL, labels).value.world, k) && (labels != [] ==> AlwaysQuiet(labels[..|labels| - 1], k))
  }

  ghost predicate NeverCommitsBeside(labels: seq<Label>, k: Key)
    requires Run(INITIAL, labels).Some?
    decreases |labels|
  {
    labels != [] ==>
      && NeverCommitsBeside(labels[..|labels| - 1], k)
      && !CommitsBeside(Run(INITIAL, labels[..|labels| - 1]).value, labels[|labels| - 1], k)
  }

  /** Over whole runs, an installed session never stands beside a tombstone of its key exactly
      if no rebind commits over one. */
  lemma {:induction false} QuietExactly(labels: seq<Label>, k: Key)
    requires Run(INITIAL, labels).Some?
    ensures AlwaysQuiet(labels, k) <==> NeverCommitsBeside(labels, k)
    decreases |labels|
  {
    hide CanStep, Step, CommitsBeside, Inv;
    if labels == [] {
      assert Run(INITIAL, labels) == Some(INITIAL) && Quiet(INITIAL.world, k);
    } else {
      var shorter := labels[..|labels| - 1];
      InitialInv();
      RunKeepsInv(INITIAL, shorter);
      QuietExactly(shorter, k);
      if AlwaysQuiet(shorter, k) {
        assert Quiet(Run(INITIAL, shorter).value.world, k);
        QuietStep(Run(INITIAL, shorter).value, labels[|labels| - 1], k);
        assert Run(INITIAL, labels) == Some(Step(Run(INITIAL, shorter).value, labels[|labels| - 1]));
      }
    }
  }

  // ---- Identity guards ----

  /** The session an operation is allowed to take away, if it is guarded. */
  function Guard(op: Op): Option<Sid> {
    if op.Replace? then Some(op.expected) else if op.Retire? then op.guard else None
  }

  /** A guarded replace or retire removes the expected session from its key or nothing at
      all, also in the second detach inside replace: a late callback never removes a
      replacement somebody else installed. */
  lemma GuardedStepSpares(s: State, t: Tid, k: Key)
    requires Reachable(s) && CanStep(s, Advance(t)) && Guard(s.threads[t].op).Some?
    requires k in s.world.sessions && k !in Step(s, Advance(t)).world.sessions
    ensures k == s.threads[t].op.key && s.world.sessions[k] == Guard(s.threads[t].op).value
  {
    hide Inv, Reachable;
    ReachableInv(s);
    Facts(s, t);
  }

  // ---- Two things that can happen ----

  lemma Extend(s: State, labels: seq<Label>, before: State, l: Label)
    requires Run(s, labels) == Some(before) && CanStep(before, l)
    ensures Run(s, labels + [l]) == Some(Step(before, l))
  {
    hide CanStep, Step;
    assert (labels + [l])[..|labels|] == labels;
  }

  predicate Idle(s: State) {
    s.threads == map[] && s.desk.registry == map[] && s.desk.holder == map[] && s.desk.leases == map[]
  }

  /** A desk where t alone leases k. */
  function LoneDesk(t: Tid, k: Key, serial: nat, held: nat): L.Desk {
    var lock := L.Lock(k, serial);
    L.Desk(map[k := L.Entry(lock, 1)], if held == 0 then map[] else map[lock := t], serial + 1, map[t := L.Lease([k], [lock], held, 0)])
  }

  lemma LoneLease(s: State, t: Tid, k: Key)
    requires Idle(s)
    ensures var m := Begin(t, Start(k, false));
            && CanStep(s, m) && CanStep(Step(s, m), Refer(t))
            && Step(Step(s, m), Refer(t)) == State(LoneDesk(t, k, s.desk.created, 0), s.world, map[t := Thread(Start(k, false), Leasing)])
  {
    var s1 := Step(s, Begin(t, Start(k, false)));
    assert s1.desk == L.Desk(map[], map[], s.desk.created, map[t := L.Lease([k], [], 0, 0)]);
    var s2 := Step(s1, Refer(t));
    assert s2.desk.leases[t].locks == [L.Lock(k, s.desk.created)];
    assert s2.desk.registry == LoneDesk(t, k, s.desk.created, 0).registry;
    assert s2.desk.leases == LoneDesk(t, k, s.desk.created, 0).leases;
  }

  function Lone(w: World, t: Tid, k: Key, serial: nat, held: nat, pc: Pc): State {
    State(LoneDesk(t, k, serial, held), w, map[t := Thread(Start(k, false), pc)])
  }

  lemma LoneTake(w: World, t: Tid, k: Key, serial: nat)
    ensures CanStep(Lone(w, t, k, serial, 0, Leasing), Take(t))
    ensures Step(Lone(w, t, k, serial, 0, Leasing), Take(t)) == Lone(w, t, k, serial, 1, Gate(false, 0))
  {
  }

  lemma SessionsAreBackends(w: World)
    requires SessionMaps.Inv(w)
    ensures forall k :: k in w.sessions ==> w.sessions[k] < |w.backends|
  {
    forall k | k in w.sessions ensures w.sessions[k] < |w.backends| { assert SessionOk(w, k); }
  }

  lemma LoneGate(w: World, t: Tid, k: Key, serial: nat, second: bool)
    requires SessionMaps.Inv(w) && k !in w.closing
    ensures CanStep(Lone(w, t, k, serial, 1, Gate(second, 0)), Advance(t))
    ensures Step(Lone(w, t, k, serial, 1, Gate(second, 0)), Advance(t)) == Lone(w, t, k, serial, 1, if second then Spawning else TakeOut)
  {
    hide SessionMaps.Inv, LoneDesk;
    SessionsAreBackends(w);
    LoneDeskHas(t, k, serial, 1);
  }

  lemma LoneDeskHas(t: Tid, k: Key, serial: nat, held: nat)
    ensures t in LoneDesk(t, k, serial, held).leases && |LoneDesk(t, k, serial, held).leases[t].locks| == |LoneDesk(t, k, serial, held).leases[t].wants|
  {
  }

  lemma LoneTakeOut(w: World, t: Tid, k: Key, serial: nat)
    requires SessionMaps.Inv(w)
    ensures CanStep(Lone(w, t, k, serial, 1, TakeOut), Advance(t)) && (k in w.sessions ==> w.sessions[k] < |w.backends|)
    ensures Step(Lone(w, t, k, serial, 1, TakeOut), Advance(t)) ==
            if k in w.sessions then Lone(Detach(w, k, t), t, k, serial, 1, Handing(w.sessions[k], k, ToGate))
            else Lone(w, t, k, serial, 1, Gate(true, 0))
  {
    hide SessionMaps.Inv, LoneDesk;
    SessionsAreBackends(w);
    LoneDeskHas(t, k, serial, 1);
  }

  lemma LoneExpire(w: World, t: Tid, k: Key, serial: nat)
    requires k in w.sessions && w.sessions[k] < |w.backends|
    ensures var s := Lone(Detach(w, k, t), t, k, serial, 1, Handing(w.sessions[k], k, ToGate));
            CanStep(s, Expire(t)) && Step(s, Expire(t)) == Lone(Unbind(w, k), t, k, serial, 1, Unwind)
  {
    assert Put(Detach(w, k, t), w.sessions[k], Lost) == Unbind(w, k);
  }

  lemma LoneFree(w: World, t: Tid, k: Key, serial: nat)
    ensures var s := Lone(w, t, k, serial, 1, Unwind);
            CanStep(s, Free(t)) && Step(s, Free(t)) == Lone(w, t, k, serial, 0, Unwind)
  {
  }

  lemma LoneDrop(w: World, t: Tid, k: Key, serial: nat)
    ensures var s := Lone(w, t, k, serial, 0, Unwind);
            CanStep(s, Drop(t)) && Step(s, Drop(t)) == State(L.Desk(map[], map[], serial + 1, map[]), w, map[])
  {
    var s2 := Step(Lone(w, t, k, serial, 0, Unwind), Drop(t));
    assert s2.desk.registry == map[] && s2.desk.leases == map[] && s2.threads == map[];
  }

  lemma RunNothing(s: State)
    ensures Run(s, []) == Some(s)
  {
  }

  /** One more step at the end of a run. */
  lemma Then(s: State, labels: seq<Label>, before: State, l: Label) returns (more: seq<Label>)
    requires Run(s, labels) == Some(before) && CanStep(before, l)
    ensures Run(s, more) == Some(Step(before, l))
  {
    hide Run, CanStep, Step;
    Extend(s, labels, before, l);
    more := labels + [l];
  }

  lemma LoneStart(s: State, labels: seq<Label>, idle: State, t: Tid, k: Key) returns (more: seq<Label>)
    requires Run(s, labels) == Some(idle) && Idle(idle) && SessionMaps.Inv(idle.world) && k !in idle.world.closing
    ensures Run(s, more) == Some(Lone(idle.world, t, k, idle.desk.created, 1, TakeOut))
  {
    hide Run, CanStep, Step, Idle, SessionMaps.Inv, LoneDesk;
    var w, n := idle.world, idle.desk.created;
    LoneLease(idle, t, k);
    more := Then(s, labels, idle, Begin(t, Start(k, false)));
    more := Then(s, more, Step(idle, Begin(t, Start(k, false))), Refer(t));
    LoneTake(w, t, k, n);
    more := Then(s, more, Lone(w, t, k, n, 0, Leasing), Take(t));
    LoneGate(w, t, k, n, false);
    more := Then(s, more, Lone(w, t, k, n, 1, Gate(false, 0)), Advance(t));
  }

  /** A lone start that installs its session and lets go of its lease. */
  lemma LoneInstalls(s: State, labels: seq<Label>, idle: State, t: Tid, k: Key) returns (more: seq<Label>, e: State)
    requires Run(s, labels) == Some(idle) && Idle(idle) && SessionMaps.Inv(idle.world)
    requires k !in idle.world.closing && k !in idle.world.sessions
    ensures Run(s, more) == Some(e) && Idle(e)
    ensures k in e.world.sessions && e.world.sessions.Keys == idle.world.sessions.Keys + {k} && e.world.closing == idle.world.closing
  {
    hide Run, CanStep, Step, LoneDesk, SessionMaps.Inv;
    var w, n := idle.world, idle.desk.created;
    more := LoneStart(s, labels, idle, t, k);
    LoneTakeOut(w, t, k, n);
    more := Then(s, more, Lone(w, t, k, n, 1, TakeOut), Advance(t));
    LoneGate(w, t, k, n, true);
    more := Then(s, more, Lone(w, t, k, n, 1, Gate(true, 0)), Advance(t));
    var v := LoneInstall(w, t, k, n);
    more := Then(s, more, Lone(w, t, k, n, 1, Spawning), Advance(t));
    more := Then(s, more, Step(Lone(w, t, k, n, 1, Spawning), Advance(t)), Advance(t));
    LoneFree(v, t, k, n);
    more := Then(s, more, Lone(v, t, k, n, 1, Unwind), Free(t));
    LoneDrop(v, t, k, n);
    more := Then(s, more, Lone(v, t, k, n, 0, Unwind), Drop(t));
    e := State(L.Desk(map[], map[], n + 1, map[]), v, map[]);
  }

  /** There is such an idle state: a lone start on the empty manager. */
  lemma IdleWithSession(t: Tid, k: Key) returns (labels: seq<Label>, s: State)
    ensures Run(INITIAL, labels) == Some(s) && Reachable(s) && Idle(s)
    ensures s.world.sessions.Keys == {k} && s.world.closing == map[]
  {
    hide Run, SessionMaps.Inv, Inv;
    InitialInv();
    WorldFacts(INITIAL);
    RunNothing(INITIAL);
    labels, s := LoneInstalls(INITIAL, [], INITIAL, t, k);
  }

  lemma LoneInstall(w: World, t: Tid, k: Key, serial: nat) returns (v: World)
    requires SessionMaps.Inv(w)
    ensures var s := Lone(w, t, k, serial, 1, Spawning);
            && CanStep(s, Advance(t)) && CanStep(Step(s, Advance(t)), Advance(t))
            && Step(Step(s, Advance(t)), Advance(t)) == Lone(v, t, k, serial, 1, Unwind)
    ensures v.sessions.Keys == w.sessions.Keys + {k} && v.closing == w.closing
  {
    hide SessionMaps.Inv, LoneDesk;
    SessionsAreBackends(w);
    LoneDeskHas(t, k, serial, 1);
    v := Install(Spawn(w, k, t), k, |w.backends|);
    assert Step(Lone(w, t, k, serial, 1, Spawning), Advance(t)) == Lone(Spawn(w, k, t), t, k, serial, 1, Fresh(|w.backends|));
  }

  /** A start whose deadline passes right after its detach. */
  lemma LoneLoss(s: State, t: Tid, k: Key) returns (labels: seq<Label>)
    requires SessionMaps.Inv(s.world) && Idle(s) && k in s.world.sessions && k !in s.world.closing
    ensures s.world.sessions[k] < |s.world.backends|
    ensures Run(s, labels) == Some(State(L.Desk(map[], map[], s.desk.created + 1, map[]), Unbind(s.world, k), map[]))
  {
    hide Run, CanStep, Step, SessionMaps.Inv, LoneDesk, Unbind;
    var w, n := s.world, s.desk.created;
    SessionsAreBackends(w);
    RunNothing(s);
    labels := LoneStart(s, [], s, t, k);
    LoneTakeOut(w, t, k, n);
    labels := Then(s, labels, Lone(w, t, k, n, 1, TakeOut), Advance(t));
    LoneExpire(w, t, k, n);
    labels := Then(s, labels, Lone(Detach(w, k, t), t, k, n, 1, Handing(w.sessions[k], k, ToGate)), Expire(t));
    LoneFree(Unbind(w, k), t, k, n);
    labels := Then(s, labels, Lone(Unbind(w, k), t, k, n, 1, Unwind), Free(t));
    LoneDrop(Unbind(w, k), t, k, n);
    labels := Then(s, labels, Lone(Unbind(w, k), t, k, n, 0, Unwind), Drop(t));
  }

  /** The window between detach and registration is real: from every idle state with a
      session at k, a start whose deadline passes right after its detach makes the next start
      spawn over a backend nobody closed. */
  lemma OverlapAfterLoss(s: State, t: Tid, k: Key) returns (labels: seq<Label>)
    requires Reachable(s) && Idle(s) && k in s.world.sessions && k !in s.world.closing
    ensures Run(s, labels).Some?
    ensures var e := Run(s, labels).value;
            && t in e.threads && e.threads[t] == Thread(Start(k, false), Spawning)
            && s.world.sessions[k] < |e.world.backends| && e.world.backends[s.world.sessions[k]] == Backend(k, Lost)
  {
    hide Run, CanStep, Step, Inv, Reachable, SessionMaps.Inv, LoneDesk;
    var w, n := s.world, s.desk.created + 1;
    ReachableInv(s);
    WorldFacts(s);
    InstalledIs(w, k);
    labels := LoneLoss(s, t, k);
    var v := Unbind(w, k);
    UnbindKeepsInv(w, k);
    labels := LoneStart(s, labels, State(L.Desk(map[], map[], n, map[]), v, map[]), t, k);
    LoneTakeOut(v, t, k, n);
    labels := Then(s, labels, Lone(v, t, k, n, 1, TakeOut), Advance(t));
    LoneGate(v, t, k, n, true);
    labels := Then(s, labels, Lone(v, t, k, n, 1, Gate(true, 0)), Advance(t));
  }

  /** Ending the session of `to` and then moving the one of `from` there, on the maps alone. */
  lemma MovedBesideTombstone(w: World, from: Key, to: Key)
    requires SessionMaps.Inv(w) && from != to && from in w.sessions && to in w.sessions && to !in w.closing
    requires w.sessions[to] < |w.backends|
    ensures var v := End(w, to);
            && to !in v.sessions && from in v.sessions && v.sessions[from] == w.sessions[from]
            && (forall k :: k in v.sessions ==> v.sessions[k] < |v.backends|)
            && var u := Rebind(v, from, to);
               to in u.sessions && u.sessions[to] == w.sessions[from] && to in u.closing && PhaseOf(u, u.closing[to]).Running? && Refused(u, to)
  {
    hide SessionMaps.Inv;
    SessionsAreBackends(w);
  }

  /** A rebind that is past its gates commits over a tombstone registered meanwhile: from
      every reachable state where it is about to compare two installed sessions, ending the
      target's session first leaves the moved one installed beside a pending tombstone. */
  lemma RebindOverTombstone(s: State, t: Tid, from: Key, to: Key)
    requires Reachable(s) && t in s.threads && s.threads[t] == Thread(Move(from, to), Compare)
    requires from != to && from in s.world.sessions && to in s.world.sessions
    ensures Run(s, [EndNow(to), Advance(t), Advance(t)]).Some?
    ensures var w := Run(s, [EndNow(to), Advance(t), Advance(t)]).value.world;
            && to in w.sessions && w.sessions[to] == s.world.sessions[from]
            && to in w.closing && PhaseOf(w, w.closing[to]).Running?
            && Refused(w, to)
  {
    hide Inv, Reachable, Wants, SessionMaps.Inv, L.Apply, Run, Claims, HandOk, LeaseFits;
    ReachableInv(s);
    WorldFacts(s);
    QuietMainKey(s, t);
    SameNames(s);
    SessionsAreBackends(s.world);
    MovedBesideTombstone(s.world, from, to);
    hide End, Rebind, Refused;
    var s1 := Step(s, EndNow(to));
    var s2 := Step(s1, Advance(t));
    assert s2 == Goto(s1, t, Commit(s.world.sessions[from]));
    RunNothing(s);
    Extend(s, [], s, EndNow(to));
    Extend(s, [] + [EndNow(to)], s1, Advance(t));
    Extend(s, [] + [EndNow(to)] + [Advance(t)], s2, Advance(t));
    assert [] + [EndNow(to)] + [Advance(t)] + [Advance(t)] == [EndNow(to), Advance(t), Advance(t)];
  }

  // A rebind alone, from its leases to its comparison.

  function PairDesk(t: Tid, lo: Key, hi: Key, serial: nat, refs: nat, held: nat): L.Desk {
    var a, b := L.Lock(lo, serial), L.Lock(hi, serial + 1);
    L.Desk(
      if refs == 0 then map[] else if refs == 1 then map[lo := L.Entry(a, 1)] else map[lo := L.Entry(a, 1), hi := L.Entry(b, 1)],
      if held == 0 then map[] else if held == 1 then map[a := t] else map[a := t, b := t],
      if refs == 0 then serial else if refs == 1 then serial + 1 else serial + 2,
      map[t := L.Lease([lo, hi], if refs == 0 then [] else if refs == 1 then [a] else [a, b], held, 0)])
  }

  function Pair(w: World, t: Tid, op: Op, serial: nat, refs: nat, held: nat, pc: Pc): State
    requires op.Move? && op.from != op.to
  {
    State(PairDesk(t, Wants(op)[0], Wants(op)[1], serial, refs, held), w, map[t := Thread(op, pc)])
  }

  lemma PairBegin(s: State, t: Tid, op: Op)
    requires Idle(s) && op.Move? && op.from != op.to
    ensures CanStep(s, Begin(t, op)) && Step(s, Begin(t, op)) == Pair(s.world, t, op, s.desk.created, 0, 0, Leasing)
  {
    assert Wants(op) == [Wants(op)[0], Wants(op)[1]];
  }

  lemma PairRefersFirst(t: Tid, lo: Key, hi: Key, n: nat)
    ensures L.CanMove(PairDesk(t, lo, hi, n, 0, 0), L.Refer(t))
    ensures L.Apply(PairDesk(t, lo, hi, n, 0, 0), L.Refer(t)) == PairDesk(t, lo, hi, n, 1, 0)
  {
    assert [] + [L.Lock(lo, n)] == [L.Lock(lo, n)];
  }

  lemma PairRefersSecond(t: Tid, lo: Key, hi: Key, n: nat)
    requires lo < hi
    ensures L.CanMove(PairDesk(t, lo, hi, n, 1, 0), L.Refer(t))
    ensures L.Apply(PairDesk(t, lo, hi, n, 1, 0), L.Refer(t)) == PairDesk(t, lo, hi, n, 2, 0)
  {
    var a, b := L.Lock(lo, n), L.Lock(hi, n + 1);
    assert [a] + [b] == [a, b];
    assert map[lo := L.Entry(a, 1)][hi := L.Entry(b, 1)] == map[lo := L.Entry(a, 1), hi := L.Entry(b, 1)];
  }

  lemma PairTakesFirst(t: Tid, lo: Key, hi: Key, n: nat)
    ensures L.CanMove(PairDesk(t, lo, hi, n, 2, 0), L.Take(t))
    ensures L.Apply(PairDesk(t, lo, hi, n, 2, 0), L.Take(t)) == PairDesk(t, lo, hi, n, 2, 1)
  {
  }

  lemma PairTakesSecond(t: Tid, lo: Key, hi: Key, n: nat)
    requires lo < hi
    ensures L.CanMove(PairDesk(t, lo, hi, n, 2, 1), L.Take(t))
    ensures L.Apply(PairDesk(t, lo, hi, n, 2, 1), L.Take(t)) == PairDesk(t, lo, hi, n, 2, 2)
  {
    var a, b := L.Lock(lo, n), L.Lock(hi, n + 1);
    assert map[a := t][b := t] == map[a := t, b := t];
  }

  lemma PairRefer(w: World, t: Tid, op: Op, serial: nat, refs: nat)
    requires op.Move? && op.from != op.to && refs <= 1
    ensures CanStep(Pair(w, t, op, serial, refs, 0, Leasing), Refer(t))
    ensures Step(Pair(w, t, op, serial, refs, 0, Leasing), Refer(t)) == Pair(w, t, op, serial, refs + 1, 0, Leasing)
  {
    var lo, hi := Wants(op)[0], Wants(op)[1];
    assert lo < hi;
    hide L.Apply, L.CanMove, Wants;
    if refs == 0 { PairRefersFirst(t, lo, hi, serial); } else { PairRefersSecond(t, lo, hi, serial); }
  }

  lemma PairTake(w: World, t: Tid, op: Op, serial: nat, held: nat)
    requires op.Move? && op.from != op.to && held <= 1
    ensures CanStep(Pair(w, t, op, serial, 2, held, Leasing), Take(t))
    ensures Step(Pair(w, t, op, serial, 2, held, Leasing), Take(t)) ==
            Pair(w, t, op, serial, 2, held + 1, if held == 0 then Leasing else Gate(false, 0))
  {
    var lo, hi := Wants(op)[0], Wants(op)[1];
    assert lo < hi;
    hide L.Apply, L.CanMove, Wants;
    if held == 0 { PairTakesFirst(t, lo, hi, serial); } else { PairTakesSecond(t, lo, hi, serial); }
  }

  lemma PairGate(w: World, t: Tid, op: Op, serial: nat, i: nat)
    requires op.Move? && op.from != op.to && i <= 1 && SessionMaps.Inv(w) && w.closing == map[]
    ensures CanStep(Pair(w, t, op, serial, 2, 2, Gate(false, i)), Advance(t))
    ensures Step(Pair(w, t, op, serial, 2, 2, Gate(false, i)), Advance(t)) ==
            Pair(w, t, op, serial, 2, 2, if i == 0 then Gate(false, 1) else Compare)
  {
    hide SessionMaps.Inv;
    SessionsAreBackends(w);
  }

  /** There is such a rebind: two lone starts, and a move from the one key to the other. */
  lemma MoveAtCompare(t: Tid, from: Key, to: Key) returns (s: State)
    requires from != to
    ensures Reachable(s) && t in s.threads && s.threads[t] == Thread(Move(from, to), Compare)
    ensures from in s.world.sessions && to in s.world.sessions
  {
    hide Run, CanStep, Step, SessionMaps.Inv, Inv, PairDesk, Wants;
    var labels, s1 := IdleWithSession(t, from);
    ReachableInv(s1);
    WorldFacts(s1);
    var s2;
    labels, s2 := LoneInstalls(INITIAL, labels, s1, t, to);
    ReachableInv(s2);
    WorldFacts(s2);
    var w, op, n := s2.world, Move(from, to), s2.desk.created;
    PairBegin(s2, t, op);
    labels := Then(INITIAL, labels, s2, Begin(t, op));
    PairRefer(w, t, op, n, 0);
    labels := Then(INITIAL, labels, Pair(w, t, op, n, 0, 0, Leasing), Refer(t));
    PairRefer(w, t, op, n, 1);
    labels := Then(INITIAL, labels, Pair(w, t, op, n, 1, 0, Leasing), Refer(t));
    PairTake(w, t, op, n, 0);
    labels := Then(INITIAL, labels, Pair(w, t, op, n, 2, 0, Leasing), Take(t));
    PairTake(w, t, op, n, 1);
    labels := Then(INITIAL, labels, Pair(w, t, op, n, 2, 1, Leasing), Take(t));
    PairGate(w, t, op, n, 0);
    labels := Then(INITIAL, labels, Pair(w, t, op, n, 2, 2, Gate(false, 0)), Advance(t));
    PairGate(w, t, op, n, 1);
    labels := Then(INITIAL, labels, Pair(w, t, op, n, 2, 2, Gate(false, 1)), Advance(t));
    s := Pair(w, t, op, n, 2, 2, Compare);
  }
}
