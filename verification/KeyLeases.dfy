/** The per-key startup leases of src/acp/manager.py: a registry of reference-counted lock
    objects that forgets a key when nobody refers to it, and the threads that wait for,
    hold and give back those locks. */
module KeyLeases {
  type Key = nat
  type Tid = nat

  /** The identity of a lock object; each object is created for one key. */
  datatype Lock = Lock(key: Key, serial: nat)

  datatype Entry = Entry(lock: Lock, refs: int)

  /** What one thread has: references to the first |locks| of its wanted keys (the first
      `dropped` of them given back already), and the first `held` of those locks. */
  datatype Lease = Lease(wants: seq<Key>, locks: seq<Lock>, held: nat, dropped: nat)

  datatype Desk = Desk(registry: map<Key, Entry>, holder: map<Lock, Tid>, created: nat, leases: map<Tid, Lease>)

  const EMPTY := Desk(map[], map[], 0, map[])

  datatype Move = Open(t: Tid, wants: seq<Key>) | Refer(t: Tid) | Take(t: Tid) | Free(t: Tid) | Drop(t: Tid)

  predicate Sorted(ks: seq<Key>) {
    forall i, j :: 0 <= i < j < |ks| ==> ks[i] < ks[j]
  }

  // ---- The two registry operations ----

  /** `_get_key_lock`: find or create the entry, then count one more reference. */
  function GetKeyLock(registry: map<Key, Entry>, created: nat, k: Key): map<Key, Entry> {
    var entry := if k in registry then registry[k] else Entry(Lock(k, created), 0);
    registry[k := entry.(refs := entry.refs + 1)]
  }

  /** `_release_key_lock`: count one reference less and forget an unreferenced key. */
  function ReleaseKeyLock(registry: map<Key, Entry>, k: Key): map<Key, Entry> {
    if k !in registry then registry
    else if registry[k].refs - 1 <= 0 then registry - {k}
    else registry[k := registry[k].(refs := registry[k].refs - 1)]
  }

  class KeyLockRegistry {
    var entries: map<Key, Entry>
    var created: nat

    constructor ()
      ensures entries == map[] && created == 0
    {
      entries, created := map[], 0;
    }

    method Get(k: Key) returns (lock: Lock)
      modifies this
      ensures entries == GetKeyLock(old(entries), old(created), k)
      ensures lock == entries[k].lock && old(created) <= created <= old(created) + 1
      ensures created == old(created) <==> k in old(entries)
    {
      if k !in entries {
        entries := entries[k := Entry(Lock(k, created), 0)];
        created := created + 1;
      }
      entries := entries[k := entries[k].(refs := entries[k].refs + 1)];
      return entries[k].lock;
    }

    method Release(k: Key)
      modifies this`entries
      ensures entries == ReleaseKeyLock(old(entries), k)
    {
      if k !in entries { return; }
      entries := entries[k := entries[k].(refs := entries[k].refs - 1)];
      if entries[k].refs <= 0 { entries := entries - {k}; }
    }
  }

  // ---- Every interleaving ----

  predicate CanMove(d: Desk, m: Move) {
    if m.Open? then m.t !in d.leases && Sorted(m.wants) && m.wants != []
    else
      && m.t in d.leases
      && var l := d.leases[m.t];
         match m
         case Refer(_) => |l.locks| < |l.wants|
         case Take(_) => |l.locks| == |l.wants| && l.held < |l.wants| && l.dropped == 0 && l.locks[l.held] !in d.holder
         case Free(_) => l.held > 0 && l.held <= |l.locks|
         case Drop(_) => l.held == 0 && |l.locks| == |l.wants| && l.dropped < |l.wants|
  }

  function Apply(d: Desk, m: Move): Desk
    requires CanMove(d, m)
  {
    match m
    case Open(t, wants) => d.(leases := d.leases[t := Lease(wants, [], 0, 0)])
    case Refer(t) =>
      var l := d.leases[t];
      var registry := GetKeyLock(d.registry, d.created, l.wants[|l.locks|]);
      d.(registry := registry, created := d.created + (if l.wants[|l.locks|] in d.registry then 0 else 1),
         leases := d.leases[t := l.(locks := l.locks + [registry[l.wants[|l.locks|]].lock])])
    case Take(t) =>
      var l := d.leases[t];
      d.(holder := d.holder[l.locks[l.held] := t], leases := d.leases[t := l.(held := l.held + 1)])
    case Free(t) =>
      var l := d.leases[t];
      d.(holder := d.holder - {l.locks[l.held - 1]}, leases := d.leases[t := l.(held := l.held - 1)])
    case Drop(t) =>
      var l := d.leases[t];
      d.(registry := ReleaseKeyLock(d.registry, l.wants[l.dropped]),
         leases := if l.dropped + 1 == |l.wants| then d.leases - {t} else d.leases[t := l.(dropped := l.dropped + 1)])
  }

  predicate Refers(l: Lease, k: Key) {
    exists i :: l.dropped <= i < |l.locks| && i < |l.wants| && l.wants[i] == k
  }

  /** t has the lock of k. */
  predicate Holds(d: Desk, t: Tid, k: Key) {
    t in d.leases && exists i :: 0 <= i < d.leases[t].held && i < |d.leases[t].wants| && d.leases[t].wants[i] == k
  }

  /** The threads with an outstanding reference to k. */
  ghost function Users(d: Desk, k: Key): set<Tid> {
    set t | t in d.leases && Refers(d.leases[t], k)
  }

  ghost predicate LeaseOk(d: Desk, t: Tid)
    requires t in d.leases
  {
    var l := d.leases[t];
    && Sorted(l.wants) && |l.locks| <= |l.wants| && l.held <= |l.locks| && l.dropped < |l.wants|
    && (l.held > 0 ==> |l.locks| == |l.wants|)
    && (l.dropped > 0 ==> l.held == 0 && |l.locks| == |l.wants|)
    && (forall i :: 0 <= i < |l.locks| ==> l.locks[i].key == l.wants[i])
    && (forall i :: l.dropped <= i < |l.locks| ==> l.wants[i] in d.registry && d.registry[l.wants[i]].lock == l.locks[i])
    && (forall i :: 0 <= i < l.held ==> l.locks[i] in d.holder && d.holder[l.locks[i]] == t)
  }

  ghost predicate EntryOk(d: Desk, k: Key)
    requires k in d.registry
  {
    d.registry[k].lock.key == k && d.registry[k].refs == |Users(d, k)| && d.registry[k].refs >= 1
  }

  ghost predicate HolderOk(d: Desk, lock: Lock)
    requires lock in d.holder
  {
    && d.holder[lock] in d.leases
    && var l := d.leases[d.holder[lock]];
       exists i :: 0 <= i < l.held && i < |l.locks| && l.locks[i] == lock
  }

  ghost predicate Inv(d: Desk) {
    && (forall t :: t in d.leases ==> LeaseOk(d, t))
    && (forall k :: k in d.registry ==> EntryOk(d, k))
    && (forall lock :: lock in d.holder ==> HolderOk(d, lock))
  }

  lemma OnlyOneChanges(d: Desk, e: Desk, t: Tid, k: Key)
    requires forall u :: u != t ==> (u in d.leases <==> u in e.leases) && (u in d.leases ==> d.leases[u] == e.leases[u])
    ensures Users(e, k) - {t} == Users(d, k) - {t}
  {
  }

  lemma UsersSize(d: Desk, e: Desk, t: Tid, k: Key)
    requires forall u :: u != t ==> (u in d.leases <==> u in e.leases) && (u in d.leases ==> d.leases[u] == e.leases[u])
    ensures |Users(e, k)| - (if t in Users(e, k) then 1 else 0) == |Users(d, k)| - (if t in Users(d, k) then 1 else 0)
  {
    OnlyOneChanges(d, e, t, k);
    SizeWithout(Users(e, k), t);
    SizeWithout(Users(d, k), t);
  }

  lemma SizeWithout(s: set<Tid>, t: Tid)
    ensures |s| == |s - {t}| + (if t in s then 1 else 0)
  {
    if t in s { assert s == (s - {t}) + {t}; } else { assert s == s - {t}; }
  }

  /** A step that leaves the references alone leaves the users of every key alone. */
  lemma SameUsers(d: Desk, e: Desk, t: Tid, k: Key)
    requires t in d.leases && t in e.leases && e.leases == d.leases[t := e.leases[t]]
    requires Refers(d.leases[t], k) <==> Refers(e.leases[t], k)
    ensures Users(e, k) == Users(d, k)
  {
  }

  lemma NobodyUses(d: Desk, k: Key)
    requires Inv(d) && k !in d.registry
    ensures Users(d, k) == {}
  {
    forall t | t in d.leases ensures !Refers(d.leases[t], k) { assert LeaseOk(d, t); }
  }

  lemma OpenEntry(d: Desk, t: Tid, wants: seq<Key>, k: Key)
    requires CanMove(d, Open(t, wants)) && k in d.registry && EntryOk(d, k)
    ensures EntryOk(Apply(d, Open(t, wants)), k)
  {
    UsersSize(d, Apply(d, Open(t, wants)), t, k);
  }

  lemma OpenLease(d: Desk, t: Tid, wants: seq<Key>, u: Tid)
    requires CanMove(d, Open(t, wants)) && u in Apply(d, Open(t, wants)).leases
    requires u in d.leases ==> LeaseOk(d, u)
    ensures LeaseOk(Apply(d, Open(t, wants)), u)
  {
  }

  lemma OpenKeepsInv(d: Desk, t: Tid, wants: seq<Key>)
    requires Inv(d) && CanMove(d, Open(t, wants))
    ensures Inv(Apply(d, Open(t, wants)))
  {
    hide LeaseOk, EntryOk;
    var e := Apply(d, Open(t, wants));
    forall k | k in e.registry ensures EntryOk(e, k) { OpenEntry(d, t, wants, k); }
    forall u | u in e.leases ensures LeaseOk(e, u) { OpenLease(d, t, wants, u); }
    forall lock | lock in e.holder ensures HolderOk(e, lock) { assert HolderOk(d, lock); }
  }

  /** The new reference, and the only one, is to the key asked for. */
  lemma ReferRefs(d: Desk, t: Tid, k: Key)
    requires CanMove(d, Refer(t)) && LeaseOk(d, t)
    ensures var l := d.leases[t];
            var wanted := l.wants[|l.locks|];
            && !Refers(l, wanted)
            && (Refers(Apply(d, Refer(t)).leases[t], k) <==> (Refers(l, k) || k == wanted))
  {
    hide GetKeyLock;
    var l, m := d.leases[t], Apply(d, Refer(t)).leases[t];
    assert m.wants[|l.locks|] == l.wants[|l.locks|];
  }

  lemma ReferEntry(d: Desk, t: Tid, k: Key)
    requires CanMove(d, Refer(t)) && LeaseOk(d, t) && k in Apply(d, Refer(t)).registry
    requires if k in d.registry then EntryOk(d, k) else Users(d, k) == {}
    ensures EntryOk(Apply(d, Refer(t)), k)
  {
    ReferRefs(d, t, k);
    UsersSize(d, Apply(d, Refer(t)), t, k);
  }

  lemma ReferLease(d: Desk, t: Tid, u: Tid)
    requires CanMove(d, Refer(t)) && u in d.leases && LeaseOk(d, u)
    requires forall k :: k in d.registry ==> d.registry[k].lock.key == k
    ensures LeaseOk(Apply(d, Refer(t)), u)
  {
    hide Users;
    var registry := GetKeyLock(d.registry, d.created, d.leases[t].wants[|d.leases[t].locks|]);
    assert forall k :: k in registry ==> registry[k].lock.key == k;
    assert forall k :: k in d.registry ==> k in registry && registry[k].lock == d.registry[k].lock;
  }

  lemma ReferHolder(d: Desk, t: Tid, lock: Lock)
    requires CanMove(d, Refer(t)) && lock in d.holder && HolderOk(d, lock)
    ensures HolderOk(Apply(d, Refer(t)), lock)
  {
    var u := d.holder[lock];
    var i :| 0 <= i < d.leases[u].held && i < |d.leases[u].locks| && d.leases[u].locks[i] == lock;
    assert Apply(d, Refer(t)).leases[u].locks[i] == lock;
  }

  lemma ReferKeepsInv(d: Desk, t: Tid)
    requires Inv(d) && CanMove(d, Refer(t))
    ensures Inv(Apply(d, Refer(t)))
  {
    hide LeaseOk, Users;
    var e := Apply(d, Refer(t));
    assert forall k :: k in d.registry ==> EntryOk(d, k);
    forall k | k in e.registry ensures EntryOk(e, k) {
      if k !in d.registry { NobodyUses(d, k); }
      ReferEntry(d, t, k);
    }
    forall u | u in e.leases ensures LeaseOk(e, u) { ReferLease(d, t, u); }
    forall lock | lock in e.holder ensures HolderOk(e, lock) { ReferHolder(d, t, lock); }
  }

  lemma TakeLease(d: Desk, t: Tid, u: Tid)
    requires CanMove(d, Take(t)) && u in d.leases && LeaseOk(d, u)
    ensures LeaseOk(Apply(d, Take(t)), u)
  {
  }

  lemma TakeHolder(d: Desk, t: Tid, lock: Lock)
    requires CanMove(d, Take(t)) && lock in Apply(d, Take(t)).holder
    requires lock in d.holder ==> HolderOk(d, lock)
    ensures HolderOk(Apply(d, Take(t)), lock)
  {
    var l := d.leases[t];
    if lock == l.locks[l.held] {
      assert Apply(d, Take(t)).leases[t].locks[l.held] == lock;
    } else {
      var i :| 0 <= i < d.leases[d.holder[lock]].held && i < |d.leases[d.holder[lock]].locks| && d.leases[d.holder[lock]].locks[i] == lock;
      assert Apply(d, Take(t)).leases[d.holder[lock]].locks[i] == lock;
    }
  }

  lemma EntrySurvives(d: Desk, e: Desk, t: Tid, k: Key)
    requires k in d.registry && EntryOk(d, k) && e.registry == d.registry
    requires t in d.leases && t in e.leases && e.leases == d.leases[t := e.leases[t]]
    requires e.leases[t] == d.leases[t].(held := e.leases[t].held)
    ensures EntryOk(e, k)
  {
    SameUsers(d, e, t, k);
  }

  lemma TakeKeepsInv(d: Desk, t: Tid)
    requires Inv(d) && CanMove(d, Take(t))
    ensures Inv(Apply(d, Take(t)))
  {
    hide LeaseOk, HolderOk, EntryOk;
    var e := Apply(d, Take(t));
    forall k | k in e.registry ensures EntryOk(e, k) { EntrySurvives(d, e, t, k); }
    forall u | u in e.leases ensures LeaseOk(e, u) { TakeLease(d, t, u); }
    forall lock | lock in e.holder ensures HolderOk(e, lock) { TakeHolder(d, t, lock); }
  }

  lemma FreeLease(d: Desk, t: Tid, u: Tid)
    requires CanMove(d, Free(t)) && u in d.leases && LeaseOk(d, u) && LeaseOk(d, t)
    ensures LeaseOk(Apply(d, Free(t)), u)
  {
    var l := d.leases[t];
    var e := Apply(d, Free(t));
    forall i | 0 <= i < e.leases[u].held ensures e.leases[u].locks[i] != l.locks[l.held - 1] {
      if u == t { assert l.locks[i].key == l.wants[i] < l.wants[l.held - 1] == l.locks[l.held - 1].key; }
    }
  }

  lemma FreeHolder(d: Desk, t: Tid, lock: Lock)
    requires CanMove(d, Free(t)) && lock in Apply(d, Free(t)).holder && HolderOk(d, lock)
    ensures HolderOk(Apply(d, Free(t)), lock)
  {
    var u := d.holder[lock];
    var i :| 0 <= i < d.leases[u].held && i < |d.leases[u].locks| && d.leases[u].locks[i] == lock;
    assert Apply(d, Free(t)).leases[u].locks[i] == lock;
  }

  lemma FreeKeepsInv(d: Desk, t: Tid)
    requires Inv(d) && CanMove(d, Free(t))
    ensures Inv(Apply(d, Free(t)))
  {
    hide LeaseOk, HolderOk, EntryOk;
    var e := Apply(d, Free(t));
    forall k | k in e.registry ensures EntryOk(e, k) { EntrySurvives(d, e, t, k); }
    forall u | u in e.leases ensures LeaseOk(e, u) { FreeLease(d, t, u); }
    forall lock | lock in e.holder ensures HolderOk(e, lock) { FreeHolder(d, t, lock); }
  }

  /** A key somebody still refers to stays in the registry with its lock. */
  lemma DropSpares(d: Desk, t: Tid, k: Key, u: Tid)
    requires CanMove(d, Drop(t)) && LeaseOk(d, t) && k in d.registry && EntryOk(d, k)
    requires u in Users(Apply(d, Drop(t)), k)
    ensures k in Apply(d, Drop(t)).registry && Apply(d, Drop(t)).registry[k].lock == d.registry[k].lock
  {
    hide LeaseOk, Users;
    DropUsers(d, t, k);
    assert |Users(Apply(d, Drop(t)), k)| > 0;
  }

  lemma DropLease(d: Desk, t: Tid, u: Tid)
    requires Inv(d) && CanMove(d, Drop(t)) && u in Apply(d, Drop(t)).leases
    ensures LeaseOk(Apply(d, Drop(t)), u)
  {
    hide EntryOk, HolderOk, ReleaseKeyLock;
    var e := Apply(d, Drop(t));
    assert LeaseOk(d, u) && LeaseOk(d, t);
    var m := e.leases[u];
    forall i | m.dropped <= i < |m.locks| ensures m.wants[i] in e.registry && e.registry[m.wants[i]].lock == m.locks[i] {
      assert Refers(m, m.wants[i]) && u in Users(e, m.wants[i]);
      DropSpares(d, t, m.wants[i], u);
    }
  }

  lemma DropEntry(d: Desk, t: Tid, k: Key)
    requires CanMove(d, Drop(t)) && k in Apply(d, Drop(t)).registry && LeaseOk(d, t) && EntryOk(d, k)
    ensures EntryOk(Apply(d, Drop(t)), k)
  {
    hide Users, LeaseOk;
    DropUsers(d, t, k);
  }

  lemma DropKeepsInv(d: Desk, t: Tid)
    requires Inv(d) && CanMove(d, Drop(t))
    ensures Inv(Apply(d, Drop(t)))
  {
    hide LeaseOk, EntryOk, Users;
    var e := Apply(d, Drop(t));
    forall k | k in e.registry ensures EntryOk(e, k) { DropEntry(d, t, k); }
    forall u | u in e.leases ensures LeaseOk(e, u) { DropLease(d, t, u); }
    forall lock | lock in e.holder ensures HolderOk(e, lock) { assert HolderOk(d, lock); }
  }

  lemma DropRefs(d: Desk, t: Tid, k: Key)
    requires CanMove(d, Drop(t)) && LeaseOk(d, t)
    ensures var l := d.leases[t];
            var e := Apply(d, Drop(t));
            && Refers(l, l.wants[l.dropped])
            && (t in e.leases && Refers(e.leases[t], k) <==> Refers(l, k) && k != l.wants[l.dropped])
  {
    hide ReleaseKeyLock, Users;
    var l := d.leases[t];
    assert l.dropped < |l.locks|;
    assert forall i :: l.dropped < i < |l.wants| ==> l.wants[l.dropped] < l.wants[i];
  }

  /** Giving a reference back takes the thread out of that key's users and of no other's. */
  lemma DropUsers(d: Desk, t: Tid, k: Key)
    requires CanMove(d, Drop(t)) && LeaseOk(d, t)
    ensures |Users(Apply(d, Drop(t)), k)| == |Users(d, k)| - (if k == d.leases[t].wants[d.leases[t].dropped] then 1 else 0)
  {
    hide Refers, LeaseOk, ReleaseKeyLock;
    DropRefs(d, t, k);
    UsersSize(d, Apply(d, Drop(t)), t, k);
  }

  lemma StepKeepsInv(d: Desk, m: Move)
    requires Inv(d) && CanMove(d, m)
    ensures Inv(Apply(d, m))
  {
    match m
    case Open(t, wants) => OpenKeepsInv(d, t, wants);
    case Refer(t) => ReferKeepsInv(d, t);
    case Take(t) => TakeKeepsInv(d, t);
    case Free(t) => FreeKeepsInv(d, t);
    case Drop(t) => DropKeepsInv(d, t);
  }

  /** The counts are exact, and a key is in the registry exactly while somebody refers to it. */
  lemma RefcountsAreExact(d: Desk, k: Key)
    requires Inv(d)
    ensures k in d.registry <==> Users(d, k) != {}
    ensures k in d.registry ==> d.registry[k].refs == |Users(d, k)|
  {
    if k in d.registry { assert EntryOk(d, k); } else { NobodyUses(d, k); }
  }

  /** At most one thread holds a key, although the registry forgets and recreates entries. */
  lemma HoldersExclude(d: Desk, t: Tid, u: Tid, k: Key)
    requires Inv(d) && Holds(d, t, k) && Holds(d, u, k)
    ensures t == u
  {
    assert LeaseOk(d, t) && LeaseOk(d, u);
  }

  lemma LeaseHoldersShareTheLock(d: Desk, t: Tid, u: Tid, k: Key)
    requires Inv(d) && t in Users(d, k) && u in Users(d, k)
    ensures k in d.registry
    ensures exists i, j :: 0 <= i < |d.leases[t].locks| && 0 <= j < |d.leases[u].locks|
              && d.leases[t].locks[i] == d.leases[u].locks[j] == d.registry[k].lock
    ensures Holds(d, t, k) && Holds(d, u, k) ==> t == u
  {
    assert LeaseOk(d, t) && LeaseOk(d, u);
    if Holds(d, t, k) && Holds(d, u, k) { HoldersExclude(d, t, u, k); }
  }

  // ---- No deadlock ----

  /** t has all its references and waits for a lock somebody has. */
  predicate Blocked(d: Desk, t: Tid) {
    t in d.leases && var l := d.leases[t];
    |l.locks| == |l.wants| && l.held < |l.wants| && l.dropped == 0 && l.locks[l.held] in d.holder
  }

  function Awaited(d: Desk, t: Tid): Key
    requires Blocked(d, t)
  {
    d.leases[t].wants[d.leases[t].held]
  }

  /** Locks are taken in key order, so whoever has the awaited lock awaits only a larger key. */
  lemma WaitsGoUp(d: Desk, t: Tid) returns (u: Tid)
    requires Inv(d) && Blocked(d, t)
    ensures u in d.leases && Holds(d, u, Awaited(d, t))
    ensures Blocked(d, u) ==> Awaited(d, t) < Awaited(d, u)
  {
    var l := d.leases[t];
    var lock := l.locks[l.held];
    assert LeaseOk(d, t) && HolderOk(d, lock);
    u := d.holder[lock];
    assert LeaseOk(d, u);
    var i :| 0 <= i < d.leases[u].held && d.leases[u].locks[i] == lock;
    assert d.leases[u].wants[i] == lock.key == Awaited(d, t);
  }

  /** However many threads wait, following holders from any of them reaches one that does not. */
  lemma {:induction false} SomeHolderIsNotBlocked(d: Desk, t: Tid, bound: nat) returns (u: Tid)
    requires Inv(d) && Blocked(d, t)
    requires forall v :: Blocked(d, v) ==> Awaited(d, v) <= bound
    ensures u in d.leases && d.leases[u].held > 0 && !Blocked(d, u)
    decreases bound - Awaited(d, t)
  {
    u := WaitsGoUp(d, t);
    if Blocked(d, u) { u := SomeHolderIsNotBlocked(d, u, bound); }
  }

  function LargestWant(ks: seq<Key>): (r: nat)
    ensures forall i :: 0 <= i < |ks| ==> ks[i] <= r
  {
    if ks == [] then 0
    else
      var r := LargestWant(ks[..|ks| - 1]);
      if r < ks[|ks| - 1] then ks[|ks| - 1] else r
  }

  lemma {:induction false} WantsAreBounded(leases: map<Tid, Lease>) returns (bound: nat)
    ensures forall t, i :: t in leases && 0 <= i < |leases[t].wants| ==> leases[t].wants[i] <= bound
    decreases |leases|
  {
    if leases == map[] { return 0; }
    var t :| t in leases;
    var rest := WantsAreBounded(leases - {t});
    var mine := LargestWant(leases[t].wants);
    bound := if rest < mine then mine else rest;
    forall u, i | u in leases && 0 <= i < |leases[u].wants| ensures leases[u].wants[i] <= bound {
      if u != t { assert u in leases - {t} && (leases - {t})[u] == leases[u]; }
    }
  }

  /** No interleaving deadlocks: while some thread waits for a lock, some thread that has a
      lock is not itself waiting for one. */
  lemma NoDeadlock(d: Desk, t: Tid) returns (u: Tid)
    requires Inv(d) && Blocked(d, t)
    ensures u in d.leases && d.leases[u].held > 0 && !Blocked(d, u)
  {
    var bound := WantsAreBounded(d.leases);
    u := SomeHolderIsNotBlocked(d, t, bound);
  }
}
