/** The two dictionaries of ACPSessionManager (src/acp/manager.py), installed sessions and
    closing tombstones, with the critical sections that change them. A history of where
    every backend ever spawned is now accompanies them. */
module SessionMaps {
  type Key = nat
  type Tid = nat
  /** A backend, numbered in spawn order. */
  type Sid = nat
  /** A closing state object, numbered in creation order. */
  type Cid = nat

  /** A close worker stores an error, if any, before it sets `completed`. */
  datatype Phase = Running | Finished(ok: bool, announced: bool)

  datatype Tomb = Tomb(key: Key, backend: Sid, phase: Phase)

  predicate Failed(p: Phase) { p.Finished? && !p.ok }
  predicate Completed(p: Phase) { p.Finished? && p.announced }
  predicate Over(p: Phase) { Completed(p) && p.ok }

  datatype Place =
    | InHand(t: Tid)        // a local variable of one thread
    | Installed             // the session of its key
    | Closing(c: Cid)       // being closed by the worker of c
    | Closed(c: Cid)
    | CloseFailed(c: Cid)
    | Lost                  // nobody refers to it and nobody closed it

  datatype Backend = Backend(home: Key, place: Place)

  datatype World = World(sessions: map<Key, Sid>, closing: map<Key, Cid>, tombs: seq<Tomb>, backends: seq<Backend>)

  const NOTHING := World(map[], map[], [], [])

  function PhaseOf(w: World, c: Cid): Phase {
    if c < |w.tombs| then w.tombs[c].phase else Running
  }

  // ---- Critical sections ----

  /** `_register_closing_session_unlocked` raises: the key's close failed or is not over. */
  predicate Refused(w: World, k: Key) {
    k in w.closing && !Over(PhaseOf(w, w.closing[k]))
  }

  function Put(w: World, b: Sid, place: Place): World
    requires b < |w.backends|
  {
    w.(backends := w.backends[b := w.backends[b].(place := place)])
  }

  /** A new tombstone for k whose worker closes b. */
  function Register(w: World, k: Key, b: Sid): World
    requires b < |w.backends|
  {
    var c := |w.tombs|;
    Put(w, b, Closing(c)).(tombs := w.tombs + [Tomb(k, b, Running)], closing := w.closing[k := c])
  }

  /** `_detach_forced_session_unlocked` by thread t. */
  function Detach(w: World, k: Key, t: Tid): World
    requires k in w.sessions && w.sessions[k] < |w.backends|
  {
    Put(w, w.sessions[k], InHand(t)).(sessions := w.sessions - {k})
  }

  /** `_end_session_unlocked`: register the close, then forget the session; a refused
      registration leaves both maps as they were. */
  function End(w: World, k: Key): World
    requires k in w.sessions ==> w.sessions[k] < |w.backends|
  {
    if k !in w.sessions || Refused(w, k) then w
    else Register(w, k, w.sessions[k]).(sessions := w.sessions - {k})
  }

  function Spawn(w: World, k: Key, t: Tid): World {
    w.(backends := w.backends + [Backend(k, InHand(t))])
  }

  function Install(w: World, k: Key, b: Sid): World
    requires b < |w.backends|
  {
    Put(w, b, Installed).(sessions := w.sessions[k := b])
  }

  /** The commit of `rebind_thread`; it does not look at the tombstones. */
  function Rebind(w: World, from: Key, to: Key): World
    requires from in w.sessions && w.sessions[from] < |w.backends|
  {
    var b := w.sessions[from];
    w.(sessions := w.sessions[to := b] - {from}, backends := w.backends[b := Backend(to, Installed)])
  }

  /** `rebind_thread` between equal keys deletes the entry and closes nothing. */
  function Unbind(w: World, k: Key): World
    requires k in w.sessions && w.sessions[k] < |w.backends|
  {
    Put(w, w.sessions[k], Lost).(sessions := w.sessions - {k})
  }

  function SetPhase(w: World, c: Cid, phase: Phase): World
    requires c < |w.tombs|
  {
    w.(tombs := w.tombs[c := w.tombs[c].(phase := phase)])
  }

  /** The worker's `session.close()` returned or raised. */
  function Close(w: World, c: Cid, ok: bool): World
    requires c < |w.tombs| && w.tombs[c].backend < |w.backends|
  {
    Put(SetPhase(w, c, Finished(ok, false)), w.tombs[c].backend, if ok then Closed(c) else CloseFailed(c))
  }

  function Announce(w: World, c: Cid): World
    requires c < |w.tombs| && w.tombs[c].phase.Finished?
  {
    SetPhase(w, c, w.tombs[c].phase.(announced := true))
  }

  /** The removal shared by the worker, the gate and `cleanup_all`: only this very state, only
      when its close is over. */
  function Pop(w: World, k: Key, c: Cid): World {
    if k in w.closing && w.closing[k] == c && Over(PhaseOf(w, c)) then w.(closing := w.closing - {k}) else w
  }

  // ---- What every critical section keeps ----

  predicate SessionOk(w: World, k: Key)
    requires k in w.sessions
  {
    w.sessions[k] < |w.backends| && w.backends[w.sessions[k]] == Backend(k, Installed)
  }

  predicate BackendOk(w: World, b: Sid)
    requires b < |w.backends|
  {
    var home := w.backends[b].home;
    match w.backends[b].place
    case Installed => home in w.sessions && w.sessions[home] == b
    case Closing(c) => c < |w.tombs| && w.tombs[c] == Tomb(home, b, Running)
    case Closed(c) => c < |w.tombs| && w.tombs[c].key == home && w.tombs[c].backend == b && w.tombs[c].phase.Finished? && w.tombs[c].phase.ok
    case CloseFailed(c) => c < |w.tombs| && w.tombs[c].key == home && w.tombs[c].backend == b && Failed(w.tombs[c].phase)
    case _ => true
  }

  predicate TombOk(w: World, c: Cid)
    requires c < |w.tombs|
  {
    var tomb := w.tombs[c];
    && tomb.backend < |w.backends|
    && w.backends[tomb.backend] == Backend(tomb.key, if tomb.phase.Running? then Closing(c) else if tomb.phase.ok then Closed(c) else CloseFailed(c))
    && (!Over(tomb.phase) ==> tomb.key in w.closing && w.closing[tomb.key] == c)
  }

  predicate ClosingOk(w: World, k: Key)
    requires k in w.closing
  {
    w.closing[k] < |w.tombs| && w.tombs[w.closing[k]].key == k
  }

  ghost predicate Inv(w: World) {
    && (forall k :: k in w.sessions ==> SessionOk(w, k))
    && (forall b :: 0 <= b < |w.backends| ==> BackendOk(w, b))
    && (forall c :: 0 <= c < |w.tombs| ==> TombOk(w, c))
    && (forall k :: k in w.closing ==> ClosingOk(w, k))
  }

  /** A detached backend may be handed to a worker when its key's tombstone allows it. */
  lemma RegisterKeepsInv(w: World, k: Key, b: Sid)
    requires Inv(w) && b < |w.backends| && w.backends[b].home == k && w.backends[b].place.InHand? && !Refused(w, k)
    ensures Inv(Register(w, k, b))
  {
    var v := Register(w, k, b);
    forall j | j in v.sessions ensures SessionOk(v, j) { assert SessionOk(w, j); }
    forall a | 0 <= a < |v.backends| ensures BackendOk(v, a) { assert BackendOk(w, a); }
    forall c | 0 <= c < |v.tombs| ensures TombOk(v, c) { if c < |w.tombs| { assert TombOk(w, c); } }
    forall j | j in v.closing ensures ClosingOk(v, j) { if j != k { assert ClosingOk(w, j); } }
  }

  lemma DetachKeepsInv(w: World, k: Key, t: Tid)
    requires Inv(w) && k in w.sessions
    ensures w.sessions[k] < |w.backends| && Inv(Detach(w, k, t))
  {
    assert SessionOk(w, k);
    var v := Detach(w, k, t);
    forall j | j in v.sessions ensures SessionOk(v, j) { assert SessionOk(w, j); }
    forall a | 0 <= a < |v.backends| ensures BackendOk(v, a) { assert BackendOk(w, a); }
    forall c | 0 <= c < |v.tombs| ensures TombOk(v, c) { assert TombOk(w, c); }
    forall j | j in v.closing ensures ClosingOk(v, j) { assert ClosingOk(w, j); }
  }

  lemma EndKeepsInv(w: World, k: Key)
    requires Inv(w)
    ensures k in w.sessions ==> w.sessions[k] < |w.backends|
    ensures Inv(End(w, k))
  {
    if k in w.sessions && !Refused(w, k) {
      DetachKeepsInv(w, k, 0);
      var b := w.sessions[k];
      assert SessionOk(w, k);
      RegisterKeepsInv(Detach(w, k, 0), k, b);
      assert End(w, k) == Register(Detach(w, k, 0), k, b);
    } else if k in w.sessions {
      assert SessionOk(w, k);
    }
  }

  /** Ending a session is refused exactly while a close of its key failed or is not over, and
      then changes nothing; otherwise it takes the session away and leaves it to be closed
      under a new tombstone of its key. */
  lemma EndsExactly(w: World, k: Key)
    requires Inv(w) && k in w.sessions
    ensures w.sessions[k] < |w.backends|
    ensures var v, b, c := End(w, k), w.sessions[k], |w.tombs|;
            if k in w.closing && !(Completed(PhaseOf(w, w.closing[k])) && !Failed(PhaseOf(w, w.closing[k]))) then v == w
            else
              && v.sessions == w.sessions - {k} && v.closing == w.closing[k := c]
              && |v.tombs| == c + 1 && v.tombs[c] == Tomb(k, b, Running) && v.tombs[..c] == w.tombs
              && v.backends == w.backends[b := Backend(k, Closing(c))]
  {
    assert SessionOk(w, k);
  }

  lemma SpawnKeepsInv(w: World, k: Key, t: Tid)
    requires Inv(w)
    ensures Inv(Spawn(w, k, t))
  {
    var v := Spawn(w, k, t);
    forall j | j in v.sessions ensures SessionOk(v, j) { assert SessionOk(w, j); }
    forall a | 0 <= a < |v.backends| ensures BackendOk(v, a) { if a < |w.backends| { assert BackendOk(w, a); } }
    forall c | 0 <= c < |v.tombs| ensures TombOk(v, c) { assert TombOk(w, c); }
    forall j | j in v.closing ensures ClosingOk(v, j) { assert ClosingOk(w, j); }
  }

  lemma InstallKeepsInv(w: World, k: Key, b: Sid)
    requires Inv(w) && b < |w.backends| && w.backends[b].home == k && w.backends[b].place.InHand? && k !in w.sessions
    ensures Inv(Install(w, k, b))
  {
    var v := Install(w, k, b);
    forall j | j in v.sessions ensures SessionOk(v, j) { if j != k { assert SessionOk(w, j); } }
    forall a | 0 <= a < |v.backends| ensures BackendOk(v, a) { assert BackendOk(w, a); }
    forall c | 0 <= c < |v.tombs| ensures TombOk(v, c) { assert TombOk(w, c); }
    forall j | j in v.closing ensures ClosingOk(v, j) { assert ClosingOk(w, j); }
  }

  lemma RebindKeepsInv(w: World, from: Key, to: Key)
    requires Inv(w) && from in w.sessions && to !in w.sessions
    ensures w.sessions[from] < |w.backends| && Inv(Rebind(w, from, to))
  {
    assert SessionOk(w, from);
    var v := Rebind(w, from, to);
    forall j | j in v.sessions ensures SessionOk(v, j) { if j != to { assert SessionOk(w, j); } }
    forall a | 0 <= a < |v.backends| ensures BackendOk(v, a) { assert BackendOk(w, a); }
    forall c | 0 <= c < |v.tombs| ensures TombOk(v, c) { assert TombOk(w, c); }
    forall j | j in v.closing ensures ClosingOk(v, j) { assert ClosingOk(w, j); }
  }

  lemma LoseKeepsInv(w: World, b: Sid)
    requires Inv(w) && b < |w.backends| && w.backends[b].place.InHand?
    ensures Inv(Put(w, b, Lost))
  {
    var v := Put(w, b, Lost);
    forall j | j in v.sessions ensures SessionOk(v, j) { assert SessionOk(w, j); }
    forall a | 0 <= a < |v.backends| ensures BackendOk(v, a) { assert BackendOk(w, a); }
    forall c | 0 <= c < |v.tombs| ensures TombOk(v, c) { assert TombOk(w, c); }
    forall j | j in v.closing ensures ClosingOk(v, j) { assert ClosingOk(w, j); }
  }

  lemma UnbindKeepsInv(w: World, k: Key)
    requires Inv(w) && k in w.sessions
    ensures w.sessions[k] < |w.backends| && Inv(Unbind(w, k))
  {
    DetachKeepsInv(w, k, 0);
    LoseKeepsInv(Detach(w, k, 0), w.sessions[k]);
    assert Unbind(w, k) == Put(Detach(w, k, 0), w.sessions[k], Lost);
  }

  lemma CloseKeepsInv(w: World, c: Cid, ok: bool)
    requires Inv(w) && c < |w.tombs| && w.tombs[c].phase.Running?
    ensures w.tombs[c].backend < |w.backends| && Inv(Close(w, c, ok))
  {
    assert TombOk(w, c);
    var v := Close(w, c, ok);
    forall j | j in v.sessions ensures SessionOk(v, j) { assert SessionOk(w, j); }
    forall a | 0 <= a < |v.backends| ensures BackendOk(v, a) { assert BackendOk(w, a); }
    forall e | 0 <= e < |v.tombs| ensures TombOk(v, e) { assert TombOk(w, e); }
    forall j | j in v.closing ensures ClosingOk(v, j) { assert ClosingOk(w, j); }
  }

  lemma AnnounceKeepsInv(w: World, c: Cid)
    requires Inv(w) && c < |w.tombs| && w.tombs[c].phase.Finished?
    ensures Inv(Announce(w, c))
  {
    var v := Announce(w, c);
    forall j | j in v.sessions ensures SessionOk(v, j) { assert SessionOk(w, j); }
    forall a | 0 <= a < |v.backends| ensures BackendOk(v, a) { assert BackendOk(w, a); }
    forall e | 0 <= e < |v.tombs| ensures TombOk(v, e) { assert TombOk(w, e); }
    forall j | j in v.closing ensures ClosingOk(v, j) { assert ClosingOk(w, j); }
  }

  lemma PopKeepsInv(w: World, k: Key, c: Cid)
    requires Inv(w)
    ensures Inv(Pop(w, k, c))
  {
    var v := Pop(w, k, c);
    forall j | j in v.sessions ensures SessionOk(v, j) { assert SessionOk(w, j); }
    forall a | 0 <= a < |v.backends| ensures BackendOk(v, a) { assert BackendOk(w, a); }
    forall e | 0 <= e < |v.tombs| ensures TombOk(v, e) { assert TombOk(w, e); }
    forall j | j in v.closing ensures ClosingOk(v, j) { assert ClosingOk(w, j); }
  }

  // ---- What the invariant says about backends ----

  /** No backend is handed to two close workers. */
  lemma ClosedOnce(w: World, c: Cid, d: Cid)
    requires Inv(w) && c < |w.tombs| && d < |w.tombs| && w.tombs[c].backend == w.tombs[d].backend
    ensures c == d
  {
    assert TombOk(w, c) && TombOk(w, d);
  }

  /** A key with no session and no tombstone has no backend left but ones that are closed,
      in a thread's hand, or lost. */
  lemma ClearKey(w: World, k: Key, b: Sid)
    requires Inv(w) && k !in w.sessions && k !in w.closing && b < |w.backends| && w.backends[b].home == k
    ensures w.backends[b].place.InHand? || w.backends[b].place.Closed? || w.backends[b].place.Lost?
  {
    assert BackendOk(w, b);
    var place := w.backends[b].place;
    assert place.Closing? || place.CloseFailed? ==> TombOk(w, place.c);
  }
}
