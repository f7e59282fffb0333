/** ACPSessionManager's critical sections as updates in place (src/acp/manager.py). Each one
    leaves exactly the maps that the interleaving model says, and keeps the invariant that
    gives every backend one place. */
module SessionManagers {
  import opened Wrappers
  import opened SessionMaps

  class SessionManager {
    var sessions: map<Key, Sid>
    var closing: map<Key, Cid>
    /** The closing state objects created so far, and the error and completed flags in them. */
    var states: seq<Tomb>
    ghost var backends: seq<Backend>

    ghost function Now(): World
      reads this
    {
      World(sessions, closing, states, backends)
    }

    ghost predicate Valid()
      reads this
    {
      SessionMaps.Inv(Now())
    }

    constructor ()
      ensures Valid() && Now() == NOTHING
    {
      sessions, closing, states, backends := map[], map[], [], [];
    }

    /** `_register_closing_session_unlocked`; None when it raises. */
    method RegisterClosing(k: Key, b: Sid) returns (state: Option<Cid>)
      requires Valid() && b < |backends|
      modifies this
      ensures state.None? <==> Refused(old(Now()), k)
      ensures Now() == if state.None? then old(Now()) else Register(old(Now()), k, b)
      ensures state.Some? ==> state.value == |old(states)|
    {
      if k in closing {
        assert ClosingOk(Now(), k);
        var previous := states[closing[k]].phase;
        if previous.Finished? && !previous.ok { return None; }
        if !previous.Finished? || !previous.announced { return None; }
      }
      state := Some(|states|);
      closing := closing[k := |states|];
      states := states + [Tomb(k, b, Running)];
      backends := backends[b := backends[b].(place := Closing(state.value))];
    }

    /** `_end_session_unlocked`; raised when the registration is refused. */
    method EndSession(k: Key) returns (raised: bool)
      requires Valid()
      modifies this
      ensures (k in old(sessions) ==> old(sessions)[k] < |old(backends)|) && Now() == End(old(Now()), k)
      ensures raised <==> k in old(sessions) && Refused(old(Now()), k)
      ensures Valid()
    {
      EndKeepsInv(Now(), k);
      raised := false;
      if k !in sessions { return; }
      var state := RegisterClosing(k, sessions[k]);
      if state.None? { return true; }
      sessions := sessions - {k};
    }

    /** `_detach_forced_session_unlocked` on behalf of thread t. */
    method DetachForced(k: Key, expected: Option<Sid>, ghost t: Tid) returns (detached: Option<Sid>)
      requires Valid()
      modifies this
      ensures detached == if k in old(sessions) && (expected.Some? ==> old(sessions)[k] == expected.value) then Some(old(sessions)[k]) else None
      ensures detached.Some? ==> old(sessions)[k] < |old(backends)| && Now() == Detach(old(Now()), k, t)
      ensures detached.None? ==> Now() == old(Now())
      ensures Valid()
    {
      if k !in sessions { return None; }
      if expected.Some? && sessions[k] != expected.value { return None; }
      DetachKeepsInv(Now(), k, t);
      detached := Some(sessions[k]);
      backends := backends[sessions[k] := backends[sessions[k]].(place := InHand(t))];
      sessions := sessions - {k};
    }

    /** The tail of a close worker and of the gate: forget this very state once it is over. */
    method Forget(k: Key, c: Cid)
      requires Valid() && c < |states|
      modifies this`closing
      ensures Now() == Pop(old(Now()), k, c) && Valid()
    {
      PopKeepsInv(Now(), k, c);
      if k in closing && closing[k] == c && states[c].phase.Finished? && states[c].phase.ok && states[c].phase.announced {
        closing := closing - {k};
      }
    }

    /** What the close worker stores: the error first, then `completed`. */
    method WorkerResult(c: Cid, ok: bool)
      requires Valid() && c < |states| && states[c].phase.Running?
      modifies this`states, this`backends
      ensures states == old(states)[c := old(states)[c].(phase := Finished(ok, false))]
      ensures old(states)[c].backend < |old(backends)| && Now() == Close(old(Now()), c, ok) && Valid()
    {
      CloseKeepsInv(Now(), c, ok);
      states := states[c := states[c].(phase := Finished(ok, false))];
      backends := backends[states[c].backend := backends[states[c].backend].(place := if ok then Closed(c) else CloseFailed(c))];
    }

    /** The last section of a start: the spawned backend becomes the session of its key. */
    method InstallSession(k: Key, b: Sid)
      requires Valid() && b < |backends| && backends[b].home == k && backends[b].place.InHand? && k !in sessions
      modifies this
      ensures Now() == Install(old(Now()), k, b) && Valid()
    {
      InstallKeepsInv(Now(), k, b);
      sessions := sessions[k := b];
      backends := backends[b := backends[b].(place := Installed)];
    }

    /** The commit of `rebind_thread`; true when the session moved. */
    method RebindCommit(from: Key, to: Key, session: Sid) returns (moved: bool)
      requires Valid()
      modifies this
      ensures moved <==> from in old(sessions) && old(sessions)[from] == session && to !in old(sessions)
      ensures moved ==> old(sessions)[from] < |old(backends)| && Now() == Rebind(old(Now()), from, to)
      ensures !moved ==> Now() == old(Now())
      ensures Valid()
    {
      if from !in sessions || sessions[from] != session { return false; }
      if to in sessions { return false; }
      RebindKeepsInv(Now(), from, to);
      sessions := sessions[to := session];
      sessions := sessions - {from};
      backends := backends[session := Backend(to, Installed)];
      return true;
    }
  }
}
