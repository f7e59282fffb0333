/** Attribution of changed local images to prompts (src/acp/client.py): the registry of
    active snapshots, which marks overlapping ones for good, and the emission budget. */
module ImageSnapshots {
  import opened Wrappers

  /** A canonical directory as its path components. */
  type Root = seq<string>

  datatype Snapshot = Snapshot(root: Root, complete: bool, conflicted: bool, active: bool)

  /** Every snapshot taken so far, numbered, and the numbers of the active ones by root. */
  datatype Registry = Registry(snapshots: seq<Snapshot>, active: map<Root, seq<nat>>)

  const EMPTY := Registry([], map[])

  /** `_image_roots_overlap`: one directory contains the other. */
  predicate Overlap(a: Root, b: Root) {
    a <= b || b <= a
  }

  /** Directory c lies in the tree of a. */
  predicate Inside(c: Root, a: Root) { a <= c }

  /** Two trees overlap exactly if some directory lies in both. */
  lemma OverlapExactly(a: Root, b: Root)
    ensures Overlap(a, b) <==> exists c :: Inside(c, a) && Inside(c, b)
  {
    if Overlap(a, b) { assert Inside(if a <= b then b else a, a) && Inside(if a <= b then b else a, b); }
    if c :| Inside(c, a) && Inside(c, b) {
      if |a| <= |b| { assert a == c[..|a|] == b[..|a|]; } else { assert b == c[..|b|] == a[..|b|]; }
    }
  }

  function Conflict(s: Snapshot): Snapshot { s.(conflicted := true) }

  // ---- Operations ----

  datatype Action = Take(root: Option<Root>) | Scanned(i: nat, complete: bool) | Release(i: nat)

  /** The active snapshots listed under roots that overlap the given one. */
  predicate Overlapped(r: Registry, root: Root, i: nat) {
    exists other :: other in r.active && Overlap(root, other) && i in r.active[other]
  }

  function MarkOverlapping(r: Registry, root: Root): (s: seq<Snapshot>)
    ensures |s| == |r.snapshots|
    ensures forall i :: 0 <= i < |s| ==> s[i] == if Overlapped(r, root, i) then Conflict(r.snapshots[i]) else r.snapshots[i]
  {
    seq(|r.snapshots|, i requires 0 <= i < |r.snapshots| => if Overlapped(r, root, i) then Conflict(r.snapshots[i]) else r.snapshots[i])
  }

  predicate AnyOverlapped(r: Registry, root: Root) {
    exists other :: other in r.active && Overlap(root, other) && r.active[other] != []
  }

  function Remove(xs: seq<nat>, x: nat): (r: seq<nat>)
    ensures forall y :: y in r ==> y in xs
    ensures forall y :: y in xs && y != x ==> y in r
  {
    if xs == [] then []
    else if xs[0] == x then xs[1..]
    else [xs[0]] + Remove(xs[1..], x)
  }

  function Apply(r: Registry, a: Action): Registry {
    match a
    case Take(None) => r.(snapshots := r.snapshots + [Snapshot([], false, false, false)])
    case Take(Some(root)) =>
      var mine := |r.snapshots|;
      var listed := if root in r.active then r.active[root] else [];
      Registry(MarkOverlapping(r, root) + [Snapshot(root, true, AnyOverlapped(r, root), true)], r.active[root := listed + [mine]])
    case Scanned(i, complete) =>
      if i >= |r.snapshots| then r else r.(snapshots := r.snapshots[i := r.snapshots[i].(complete := complete)])
    case Release(i) =>
      if i >= |r.snapshots| || !r.snapshots[i].active then r
      else
        var root := r.snapshots[i].root;
        var rest := if root in r.active then Remove(r.active[root], i) else [];
        Registry(r.snapshots[i := r.snapshots[i].(active := false)], if rest == [] then r.active - {root} else r.active[root := rest])
  }

  function Run(actions: seq<Action>): Registry {
    if actions == [] then EMPTY else Apply(Run(actions[..|actions| - 1]), actions[|actions| - 1])
  }

  /** `_snapshot_allows_local_image` for a file under the given root. */
  predicate Allows(r: Registry, i: nat, root: Root, changed: bool) {
    && i < |r.snapshots|
    && r.snapshots[i].complete && !r.snapshots[i].conflicted && r.snapshots[i].active && r.snapshots[i].root == root
    && changed
  }

  // ---- Invariant ----

  predicate ListOk(r: Registry, root: Root)
    requires root in r.active
  {
    && Distinct(r.active[root]) && r.active[root] != []
    && forall i :: i in r.active[root] ==> i < |r.snapshots| && r.snapshots[i].active && r.snapshots[i].root == root
  }

  predicate SnapshotOk(r: Registry, i: nat)
    requires i < |r.snapshots|
  {
    r.snapshots[i].active ==> r.snapshots[i].root in r.active && i in r.active[r.snapshots[i].root]
  }

  /** i and j are active at once over trees that share a directory. */
  predicate Together(r: Registry, i: nat, j: nat) {
    && i < |r.snapshots| && j < |r.snapshots| && i != j
    && r.snapshots[i].active && r.snapshots[j].active && Overlap(r.snapshots[i].root, r.snapshots[j].root)
  }

  ghost predicate Inv(r: Registry) {
    && (forall root :: root in r.active ==> ListOk(r, root))
    && (forall i :: 0 <= i < |r.snapshots| ==> SnapshotOk(r, i))
    && (forall i: nat, j: nat :: Together(r, i, j) ==> r.snapshots[i].conflicted)
  }

  /** The overlapping snapshots the source collects are the active ones over shared trees. */
  lemma OverlappedMeans(r: Registry, root: Root, i: nat)
    requires Inv(r)
    ensures Overlapped(r, root, i) <==> i < |r.snapshots| && r.snapshots[i].active && Overlap(root, r.snapshots[i].root)
  {
    if i < |r.snapshots| { assert SnapshotOk(r, i); }
    if Overlapped(r, root, i) {
      var other :| other in r.active && Overlap(root, other) && i in r.active[other];
      assert ListOk(r, other);
    }
  }

  lemma AnyOverlappedMeans(r: Registry, root: Root)
    requires Inv(r)
    ensures AnyOverlapped(r, root) <==> exists i: nat :: Overlapped(r, root, i)
  {
    if AnyOverlapped(r, root) {
      var other :| other in r.active && Overlap(root, other) && r.active[other] != [];
      assert r.active[other][0] in r.active[other];
      assert Overlapped(r, root, r.active[other][0]);
    }
  }

  lemma DistinctSnoc(xs: seq<nat>, x: nat)
    requires Distinct(xs) && x !in xs
    ensures Distinct(xs + [x])
  {
    forall i, j | 0 <= i < j < |xs| + 1 ensures (xs + [x])[i] != (xs + [x])[j] { assert xs[i] in xs; }
  }

  lemma TakeLists(r: Registry, root: Root)
    requires Inv(r)
    ensures var e := Apply(r, Take(Some(root)));
            && (forall k :: k in e.active ==> ListOk(e, k))
            && (forall i :: 0 <= i < |e.snapshots| ==> SnapshotOk(e, i))
  {
    hide Overlapped, AnyOverlapped;
    var e := Apply(r, Take(Some(root)));
    var mine := |r.snapshots|;
    forall k | k in e.active ensures ListOk(e, k) {
      if k in r.active { assert ListOk(r, k) && mine !in r.active[k]; }
      if k == root {
        var listed := if k in r.active then r.active[k] else [];
        assert e.active[k] == listed + [mine];
        DistinctSnoc(listed, mine);
      }
    }
    forall i | 0 <= i < |e.snapshots| ensures SnapshotOk(e, i) {
      if i < mine { assert SnapshotOk(r, i); } else { assert e.active[root][|e.active[root]| - 1] == mine; }
    }
  }

  lemma TakeKeepsInv(r: Registry, root: Root)
    requires Inv(r)
    ensures Inv(Apply(r, Take(Some(root))))
  {
    hide Overlapped, AnyOverlapped, ListOk, SnapshotOk;
    var e := Apply(r, Take(Some(root)));
    TakeLists(r, root);
    AnyOverlappedMeans(r, root);
    forall i: nat, j: nat | Together(e, i, j) ensures e.snapshots[i].conflicted {
      OverlappedMeans(r, root, i);
      OverlappedMeans(r, root, j);
      if i < |r.snapshots| && j < |r.snapshots| { assert Together(r, i, j); }
    }
  }

  lemma {:induction false} RemoveDistinct(xs: seq<nat>, x: nat)
    requires Distinct(xs)
    ensures Distinct(Remove(xs, x)) && x !in Remove(xs, x)
  {
    if xs != [] {
      var rest := xs[1..];
      assert Distinct(rest) by { assert forall i :: 0 <= i < |rest| ==> rest[i] == xs[i + 1]; }
      RemoveDistinct(rest, x);
      assert xs[0] !in rest;
    }
  }

  lemma ReleaseKeepsInv(r: Registry, i: nat)
    requires Inv(r) && i < |r.snapshots| && r.snapshots[i].active
    ensures Inv(Apply(r, Release(i)))
  {
    var e := Apply(r, Release(i));
    var root := r.snapshots[i].root;
    assert SnapshotOk(r, i) && ListOk(r, root);
    RemoveDistinct(r.active[root], i);
    forall k | k in e.active ensures ListOk(e, k) { assert ListOk(r, k); }
    forall j | 0 <= j < |e.snapshots| ensures SnapshotOk(e, j) {
      assert SnapshotOk(r, j);
      if j != i && r.snapshots[j].active && r.snapshots[j].root == root { assert j in Remove(r.active[root], i); }
    }
    forall j: nat, k: nat | Together(e, j, k) ensures e.snapshots[j].conflicted { assert Together(r, j, k); }
  }

  lemma OtherActionsKeepInv(r: Registry, a: Action)
    requires Inv(r) && (a.Scanned? || a == Take(None))
    ensures Inv(Apply(r, a))
  {
    var e := Apply(r, a);
    forall k | k in e.active ensures ListOk(e, k) { assert ListOk(r, k); }
    forall j | 0 <= j < |e.snapshots| ensures SnapshotOk(e, j) { if j < |r.snapshots| { assert SnapshotOk(r, j); } }
    forall j: nat, k: nat | Together(e, j, k) ensures e.snapshots[j].conflicted { assert Together(r, j, k); }
  }

  lemma {:induction false} RunKeepsInv(actions: seq<Action>)
    ensures Inv(Run(actions))
  {
    hide Apply;
    if actions != [] {
      var r, a := Run(actions[..|actions| - 1]), actions[|actions| - 1];
      RunKeepsInv(actions[..|actions| - 1]);
      match a
      case Take(Some(root)) => TakeKeepsInv(r, root);
      case Release(i) => if i < |r.snapshots| && r.snapshots[i].active { ReleaseKeepsInv(r, i); } else { ReleaseAgain(r, i); }
      case _ => OtherActionsKeepInv(r, a);
    }
  }

  /** Releasing twice is releasing once. */
  lemma ReleaseAgain(r: Registry, i: nat)
    ensures i >= |r.snapshots| || !r.snapshots[i].active ==> Apply(r, Release(i)) == r
    ensures Apply(Apply(r, Release(i)), Release(i)) == Apply(r, Release(i))
  {
  }

  // ---- Conflicts are exact and permanent ----

  /** At some moment of the run i was active together with another snapshot over a shared tree. */
  ghost predicate EverTogether(actions: seq<Action>, i: nat) {
    (exists j: nat :: Together(Run(actions), i, j)) || (actions != [] && EverTogether(actions[..|actions| - 1], i))
  }

  lemma {:induction false} OnceTogether(actions: seq<Action>, n: nat, i: nat, j: nat)
    requires n <= |actions| && Together(Run(actions[..n]), i, j)
    ensures EverTogether(actions, i)
  {
    hide Run, Together;
    if n == |actions| {
      assert actions[..n] == actions;
    } else {
      assert actions[..|actions| - 1][..n] == actions[..n];
      OnceTogether(actions[..|actions| - 1], n, i, j);
    }
  }

  /** One action conflicts exactly those that it leaves active together with another. */
  lemma ConflictStep(r: Registry, a: Action, i: nat)
    requires Inv(r) && i < |Apply(r, a).snapshots|
    ensures Apply(r, a).snapshots[i].conflicted <==>
            (i < |r.snapshots| && r.snapshots[i].conflicted) || exists j: nat :: Together(Apply(r, a), i, j)
  {
    var e := Apply(r, a);
    match a
    case Take(Some(root)) => TakeConflicts(r, root, i);
    case _ =>
      if j: nat :| Together(e, i, j) { assert Together(r, i, j); }
  }

  lemma TakeConflicts(r: Registry, root: Root, i: nat)
    requires Inv(r) && i <= |r.snapshots|
    ensures Apply(r, Take(Some(root))).snapshots[i].conflicted <==>
            (i < |r.snapshots| && r.snapshots[i].conflicted) || exists j: nat :: Together(Apply(r, Take(Some(root))), i, j)
  {
    hide Overlapped, AnyOverlapped, ListOk, SnapshotOk;
    var e := Apply(r, Take(Some(root)));
    var mine := |r.snapshots|;
    AnyOverlappedMeans(r, root);
    OverlappedMeans(r, root, i);
    TakeKeepsInv(r, root);
    if i < mine {
      if Overlapped(r, root, i) { assert Together(e, i, mine); }
    } else if AnyOverlapped(r, root) {
      var j: nat :| Overlapped(r, root, j);
      OverlappedMeans(r, root, j);
      assert Together(e, mine, j);
    }
  }

  /** A snapshot is conflicted exactly if it was ever active together with another over a
      shared tree, however the two were released since. */
  lemma {:induction false} ConflictedExactly(actions: seq<Action>, i: nat)
    requires i < |Run(actions).snapshots|
    ensures Run(actions).snapshots[i].conflicted <==> EverTogether(actions, i)
  {
    hide Apply, Together;
    if actions != [] {
      var shorter, a := actions[..|actions| - 1], actions[|actions| - 1];
      var r := Run(shorter);
      RunKeepsInv(shorter);
      ConflictStep(r, a, i);
      if i < |r.snapshots| { ConflictedExactly(shorter, i); } else { NotYetTaken(shorter, i); }
    }
  }

  lemma {:induction false} NotYetTaken(actions: seq<Action>, i: nat)
    requires i >= |Run(actions).snapshots|
    ensures !EverTogether(actions, i)
  {
    hide Apply;
    if actions != [] {
      SnapshotsGrow(Run(actions[..|actions| - 1]), actions[|actions| - 1]);
      NotYetTaken(actions[..|actions| - 1], i);
    }
  }

  lemma SnapshotsGrow(r: Registry, a: Action)
    ensures |r.snapshots| <= |Apply(r, a).snapshots|
  {
  }

  /** So no image is ever attributed to either of two such snapshots again. */
  lemma NeverAttributedAgain(actions: seq<Action>, n: nat, i: nat, j: nat, root: Root, changed: bool)
    requires n <= |actions| && Together(Run(actions[..n]), i, j)
    ensures !Allows(Run(actions), i, root, changed) && !Allows(Run(actions), j, root, changed)
  {
    hide Run;
    assert Together(Run(actions[..n]), j, i);
    OnceTogether(actions, n, i, j);
    OnceTogether(actions, n, j, i);
    if i < |Run(actions).snapshots| { ConflictedExactly(actions, i); }
    if j < |Run(actions).snapshots| { ConflictedExactly(actions, j); }
  }

  /** The root snapshot i was taken for, if its root could be resolved. */
  function TakenFor(actions: seq<Action>, i: nat): Option<Root> {
    if actions == [] then None
    else
      var last := actions[|actions| - 1];
      if last.Take? && |Run(actions[..|actions| - 1]).snapshots| == i then last.root else TakenFor(actions[..|actions| - 1], i)
  }

  /** Snapshot i, already taken, was released. */
  predicate WasReleased(actions: seq<Action>, i: nat) {
    actions != [] &&
    (WasReleased(actions[..|actions| - 1], i)
     || (actions[|actions| - 1] == Release(i) && i < |Run(actions[..|actions| - 1]).snapshots|))
  }

  /** What the last scan of snapshot i reported, if there was one. */
  function LastScan(actions: seq<Action>, i: nat): bool {
    if actions == [] then true
    else
      var last := actions[|actions| - 1];
      if last.Scanned? && last.i == i && i < |Run(actions[..|actions| - 1]).snapshots| then last.complete
      else LastScan(actions[..|actions| - 1], i)
  }

  lemma {:induction false} NothingBefore(actions: seq<Action>, i: nat)
    requires i >= |Run(actions).snapshots|
    ensures TakenFor(actions, i).None? && !WasReleased(actions, i) && LastScan(actions, i)
  {
    hide Apply;
    if actions != [] {
      SnapshotsGrowBy(Run(actions[..|actions| - 1]), actions[|actions| - 1]);
      NothingBefore(actions[..|actions| - 1], i);
    }
  }

  lemma SnapshotsGrowBy(r: Registry, a: Action)
    ensures |Apply(r, a).snapshots| == |r.snapshots| + (if a.Take? then 1 else 0)
  {
  }

  lemma {:induction false} SnapshotHistory(actions: seq<Action>, i: nat)
    requires i < |Run(actions).snapshots|
    ensures var snapshot := Run(actions).snapshots[i];
            if TakenFor(actions, i).Some? then
              && snapshot.root == TakenFor(actions, i).value
              && (snapshot.active <==> !WasReleased(actions, i))
              && (snapshot.complete <==> LastScan(actions, i))
            else !snapshot.active
  {
    if actions != [] {
      var r, a := Run(actions[..|actions| - 1]), actions[|actions| - 1];
      SnapshotsGrowBy(r, a);
      if i < |r.snapshots| {
        SnapshotHistory(actions[..|actions| - 1], i);
      } else {
        NothingBefore(actions[..|actions| - 1], i);
      }
    }
  }

  /** An image is attributed to a prompt exactly if it changed since the prompt's snapshot, the
      snapshot was taken for this root, scanned completely and not released, and no other
      snapshot was ever active together with it over a shared tree. */
  lemma AllowsExactly(actions: seq<Action>, i: nat, root: Root, changed: bool)
    requires i < |Run(actions).snapshots|
    ensures Allows(Run(actions), i, root, changed) <==>
            && changed && TakenFor(actions, i) == Some(root) && LastScan(actions, i) && !WasReleased(actions, i)
            && !EverTogether(actions, i)
  {
    hide Run, EverTogether;
    SnapshotHistory(actions, i);
    ConflictedExactly(actions, i);
  }

  // ---- The registry, updated in place ----

  class SnapshotRegistry {
    var snapshots: seq<Snapshot>
    var active: map<Root, seq<nat>>

    ghost function Now(): Registry
      reads this
    {
      Registry(snapshots, active)
    }

    constructor ()
      ensures Now() == EMPTY && Inv(Now())
    {
      snapshots, active := [], map[];
    }

    /** The registered snapshots whose roots overlap. */
    method Collect(root: Root) returns (overlapping: seq<nat>)
      ensures forall i :: i in overlapping <==> Overlapped(Now(), root, i)
      ensures overlapping != [] <==> AnyOverlapped(Now(), root)
    {
      overlapping := [];
      var todo, done := active.Keys, {};
      while todo != {}
        invariant done + todo == active.Keys && done !! todo
        invariant forall i :: i in overlapping <==> exists k :: k in done && Overlap(root, k) && i in active[k]
        invariant overlapping != [] <==> exists k :: k in done && Overlap(root, k) && active[k] != []
        decreases |todo|
      {
        var k :| k in todo;
        todo, done := todo - {k}, done + {k};
        if Overlap(root, k) { overlapping := overlapping + active[k]; }
      }
    }

    /** `snapshot_local_image_artifacts` up to its scan. */
    method TakeSnapshot(root: Option<Root>) returns (mine: nat)
      requires Inv(Now())
      modifies this
      ensures Now() == Apply(old(Now()), Take(root)) && Inv(Now()) && mine == |old(snapshots)|
    {
      mine := |snapshots|;
      if root.None? {
        OtherActionsKeepInv(Now(), Take(None));
        snapshots := snapshots + [Snapshot([], false, false, false)];
        return;
      }
      TakeKeepsInv(Now(), root.value);
      var overlapping := Collect(root.value);
      forall i | i in overlapping ensures i < |snapshots| { OverlappedMeans(Now(), root.value, i); }
      ghost var before := Now();
      MarkAll(overlapping);
      assert snapshots == MarkOverlapping(before, root.value);
      snapshots := snapshots + [Snapshot(root.value, true, overlapping != [], true)];
      active := active[root.value := (if root.value in active then active[root.value] else []) + [mine]];
    }

    method MarkAll(overlapping: seq<nat>)
      requires forall i :: i in overlapping ==> i < |snapshots|
      modifies this`snapshots
      ensures |snapshots| == |old(snapshots)|
      ensures forall i :: 0 <= i < |snapshots| ==> snapshots[i] == if i in overlapping then Conflict(old(snapshots)[i]) else old(snapshots)[i]
    {
      for n := 0 to |overlapping|
        invariant |snapshots| == |old(snapshots)|
        invariant forall i :: 0 <= i < |snapshots| ==> snapshots[i] == if i in overlapping[..n] then Conflict(old(snapshots)[i]) else old(snapshots)[i]
      {
        assert overlapping[n] in overlapping;
        snapshots := snapshots[overlapping[n] := snapshots[overlapping[n]].(conflicted := true)];
        assert overlapping[..n + 1] == overlapping[..n] + [overlapping[n]];
      }
      assert overlapping[..|overlapping|] == overlapping;
    }

    /** `release_local_image_artifact_snapshot` */
    method ReleaseSnapshot(i: nat)
      requires Inv(Now()) && i < |snapshots|
      modifies this
      ensures Now() == Apply(old(Now()), Release(i)) && Inv(Now())
    {
      if !snapshots[i].active { return; }
      ReleaseKeepsInv(Now(), i);
      var root := snapshots[i].root;
      snapshots := snapshots[i := snapshots[i].(active := false)];
      if root !in active { return; }
      var rest := Remove(active[root], i);
      active := if rest == [] then active - {root} else active[root := rest];
    }
  }

  // ---- The emission budget ----

  /** A readable image: its identity and its real content, emitted as base64. */
  datatype Image = Image(id: string, content: seq<bv8>)

  /** The length of the base64 text of n bytes. */
  function EncodedLength(n: nat): nat { (n + 2) / 3 * 4 }

  function ContentBytes(images: seq<Image>): nat {
    if images == [] then 0 else ContentBytes(images[..|images| - 1]) + |images[|images| - 1].content|
  }

  /** The estimate from the text length never falls below the real size. */
  lemma EstimateCovers(n: nat)
    ensures n <= EncodedLength(n) * 3 / 4 <= n + 2
  {
    assert EncodedLength(n) * 3 / 4 == (n + 2) / 3 * 3;
  }

  class Budget {
    const maxImages: nat
    const maxBytes: nat
    var seen: set<string>
    var count: nat
    var bytes: nat
    /** Everything emitted through this budget. */
    ghost var log: seq<Image>

    ghost predicate Valid()
      reads this
    {
      && count == |log| <= maxImages
      && ContentBytes(log) <= bytes <= maxBytes
      && (forall i :: 0 <= i < |log| ==> log[i].id in seen)
      && forall i, j :: 0 <= i < j < |log| ==> log[i].id != log[j].id
    }

    constructor (maxImages: nat, maxBytes: nat)
      ensures Valid() && log == [] && seen == {} && this.maxImages == maxImages && this.maxBytes == maxBytes
    {
      this.maxImages, this.maxBytes := maxImages, maxBytes;
      seen, count, bytes, log := {}, 0, 0, [];
    }

    /** `_discover_changed_images` adds the ids that were emitted some other way. */
    method MarkSeen(ids: set<string>)
      requires Valid()
      modifies this`seen
      ensures Valid() && seen == old(seen) + ids
    {
      seen := seen + ids;
    }

    method EmitOne(image: Image, size: nat)
      requires Valid() && image.id !in seen && count < maxImages && bytes + size <= maxBytes && |image.content| <= size
      modifies this`seen, this`count, this`bytes, this`log
      ensures Valid() && log == old(log) + [image] && seen == old(seen) + {image.id}
    {
      assert (log + [image])[..|log|] == log;
      seen, count, bytes := seen + {image.id}, count + 1, bytes + size;
      log := log + [image];
    }

    /** The loop over referenced paths; None is a path that reads as no changed image. Nothing
        seen before is emitted, nothing is emitted twice, and over all calls on one budget
        neither the number of images nor their real size exceeds its limit. It stops only at the
        image limit or at a new image that does not fit. */
    method Emit(candidates: seq<Option<Image>>) returns (emitted: seq<Image>, ghost stop: nat)
      requires Valid()
      modifies this`seen, this`count, this`bytes, this`log
      ensures Valid() && log == old(log) + emitted
      ensures ContentBytes(log) <= maxBytes && |log| <= maxImages
      ensures forall k :: 0 <= k < |emitted| ==> Some(emitted[k]) in candidates && emitted[k].id !in old(seen)
      ensures seen == old(seen) + Ids(emitted)
      ensures stop <= |candidates| && emitted == Unseen(candidates[..stop], old(seen))
      ensures stop < |candidates| && count < maxImages ==>
                candidates[stop].Some? && candidates[stop].value.id !in seen && bytes + Estimate(candidates[stop].value) > maxBytes
    {
      hide ContentBytes;
      emitted, stop := [], 0;
      for n := 0 to |candidates|
        invariant Valid() && log == old(log) + emitted
        invariant forall k :: 0 <= k < |emitted| ==> Some(emitted[k]) in candidates && emitted[k].id !in old(seen)
        invariant seen == old(seen) + Ids(emitted)
        invariant stop == n && emitted == Unseen(candidates[..stop], old(seen))
      {
        if count >= maxImages { break; }
        assert candidates[..n + 1][..n] == candidates[..n];
        stop := n + 1;
        if candidates[n].None? || candidates[n].value.id in seen { continue; }
        var image := candidates[n].value;
        var size := Estimate(image);
        if bytes + size > maxBytes { stop := n; break; }
        EstimateCovers(|image.content|);
        EmitOne(image, size);
        assert (emitted + [image])[..|emitted|] == emitted;
        emitted := emitted + [image];
      }
    }
  }

  /** The source's estimate of an image's size from its base64 text. */
  function Estimate(image: Image): nat { EncodedLength(|image.content|) * 3 / 4 }

  /** The readable candidates whose ids are new, each id once, in order. */
  function Unseen(candidates: seq<Option<Image>>, seen: set<string>): seq<Image> {
    if candidates == [] then []
    else
      var rest, last := Unseen(candidates[..|candidates| - 1], seen), candidates[|candidates| - 1];
      if last.Some? && last.value.id !in seen && last.value.id !in Ids(rest) then rest + [last.value] else rest
  }

  function Ids(images: seq<Image>): set<string> {
    if images == [] then {} else Ids(images[..|images| - 1]) + {images[|images| - 1].id}
  }
}
