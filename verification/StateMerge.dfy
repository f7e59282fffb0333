/** `merge_child_state_snapshots` of src/acp/collaboration.py: one entry per child in
    first-seen order, sticky terminal entries, and every invalid item kept. */
module StateMerge {
  import opened Wrappers
  import opened ChildModel

  datatype Folded = Folded(known: seq<Item>, invalid: seq<Item>)

  const EMPTY := Folded([], [])

  /** A terminal entry is sticky against a stale transient one. */
  function Resolve(prior: Item, item: Item): Item {
    if Terminal(prior.status) && Transient(item.status) then prior else item
  }

  predicate Has(known: seq<Item>, s: string) {
    exists i :: 0 <= i < |known| && known[i].source == s
  }

  function Put(known: seq<Item>, item: Item): (r: seq<Item>) {
    if known == [] then [item]
    else if known[0].source == item.source then [Resolve(known[0], item)] + known[1..]
    else [known[0]] + Put(known[1..], item)
  }

  function Ingest(f: Folded, item: Item): Folded {
    if item.valid then f.(known := Put(f.known, item))
    else if item in f.invalid then f
    else f.(invalid := f.invalid + [item])
  }

  function IngestAll(f: Folded, items: seq<Item>): Folded {
    if items == [] then f
    else Ingest(IngestAll(f, items[..|items| - 1]), items[|items| - 1])
  }

  function DropSources(known: seq<Item>, resets: set<string>): seq<Item> {
    if known == [] then []
    else if known[0].source in resets then DropSources(known[1..], resets)
    else [known[0]] + DropSources(known[1..], resets)
  }

  function Flatten(f: Folded): seq<Item> { f.known + f.invalid }

  function Forget(f: Folded, resets: set<string>): Folded {
    f.(known := DropSources(f.known, resets))
  }

  function MergeFold(previous: seq<Item>, current: seq<Item>, resets: set<string>): Folded {
    IngestAll(Forget(IngestAll(EMPTY, previous), resets), current)
  }

  function MergeItems(previous: seq<Item>, current: seq<Item>, resets: set<string>): seq<Item> {
    Flatten(MergeFold(previous, current, resets))
  }

  function MergeStates(previous: States, current: States, resets: set<string>): States {
    StateList(RawAll(MergeItems(DecodeAll(StateItems(previous)), DecodeAll(StateItems(current)), resets)))
  }

  // ---- The reference reading: entries of one child, the last terminal or else the last ----

  function ItemsOf(xs: seq<Item>, s: string): (r: seq<Item>)
    ensures forall x :: x in r ==> x in xs && x.valid && x.source == s
  {
    if xs == [] then []
    else
      var rest := ItemsOf(xs[..|xs| - 1], s);
      var x := xs[|xs| - 1];
      if x.valid && x.source == s then rest + [x] else rest
  }

  /** x is the last terminal entry of xs, or its last entry when none is terminal. */
  predicate LastTerminalElseLast(xs: seq<Item>, x: Item) {
    exists i :: 0 <= i < |xs| && xs[i] == x
      && (forall j :: i < j < |xs| ==> Transient(xs[j].status))
      && (Terminal(x.status) || (i == |xs| - 1 && forall j :: 0 <= j < i ==> Transient(xs[j].status)))
  }

  function FirstSeen(xs: seq<Item>): seq<string> {
    if xs == [] then []
    else
      var rest := FirstSeen(xs[..|xs| - 1]);
      var x := xs[|xs| - 1];
      if x.valid && x.source !in rest then rest + [x.source] else rest
  }

  function Sources(known: seq<Item>): (r: seq<string>)
    ensures |r| == |known|
    ensures forall i :: 0 <= i < |known| ==> r[i] == known[i].source
  {
    seq(|known|, i requires 0 <= i < |known| => known[i].source)
  }

  predicate WellFolded(f: Folded) {
    && (forall i :: 0 <= i < |f.known| ==> f.known[i].valid)
    && (forall i :: 0 <= i < |f.invalid| ==> !f.invalid[i].valid)
    && Distinct(Sources(f.known))
    && Distinct(f.invalid)
  }

  // ---- Put ----

  /** Put replaces the child's own slot in place, or appends a new one. */
  lemma {:induction false} PutAt(known: seq<Item>, item: Item, j: nat)
    requires j <= |known|
    requires forall i :: 0 <= i < j ==> known[i].source != item.source
    requires j < |known| ==> known[j].source == item.source
    ensures Put(known, item) ==
            if j < |known| then known[j := Resolve(known[j], item)] else known + [item]
  {
    if known == [] {
    } else if j == 0 {
    } else {
      PutAt(known[1..], item, j - 1);
    }
  }

  lemma DistinctTail(known: seq<Item>)
    requires known != [] && Distinct(Sources(known))
    ensures Distinct(Sources(known[1..]))
  {
    var t := Sources(known[1..]);
    forall i, j | 0 <= i < j < |t| ensures t[i] != t[j] {
      assert t[i] == Sources(known)[i + 1] && t[j] == Sources(known)[j + 1];
    }
  }

  lemma IndexOf(known: seq<Item>, s: string) returns (j: nat)
    ensures j <= |known|
    ensures forall i :: 0 <= i < j ==> known[i].source != s
    ensures j < |known| ==> known[j].source == s
    ensures j < |known| <==> Has(known, s)
  {
    j := 0;
    while j < |known| && known[j].source != s
      invariant j <= |known|
      invariant forall i :: 0 <= i < j ==> known[i].source != s
    {
      j := j + 1;
    }
  }

  lemma IngestKeepsWellFolded(f: Folded, item: Item)
    requires WellFolded(f)
    ensures WellFolded(Ingest(f, item))
  {
    if item.valid {
      var j := IndexOf(f.known, item.source);
      PutAt(f.known, item, j);
      assert Sources(Put(f.known, item)) ==
             if j < |f.known| then Sources(f.known) else Sources(f.known) + [item.source];
    }
  }

  lemma {:induction false} FoldIsWellFolded(f: Folded, items: seq<Item>)
    requires WellFolded(f)
    ensures WellFolded(IngestAll(f, items))
  {
    if items != [] {
      FoldIsWellFolded(f, items[..|items| - 1]);
      IngestKeepsWellFolded(IngestAll(f, items[..|items| - 1]), items[|items| - 1]);
    }
  }

  // ---- Algebra of the fold ----

  lemma {:induction false} PutTwice(k: seq<Item>, a: Item, b: Item)
    requires a.source == b.source
    requires forall i :: 0 <= i < |k| ==> k[i].valid
    ensures Put(Put(k, a), b) == Put(k, Resolve(a, b))
  {
    if k == [] {
    } else if k[0].source == a.source {
      assert Put(k, a)[1..] == k[1..];
    } else {
      PutTwice(k[1..], a, b);
      assert Put(k, a)[1..] == Put(k[1..], a);
    }
  }

  lemma {:induction false} PutCommutes(k: seq<Item>, a: Item, b: Item)
    requires a.source != b.source
    requires Has(k, a.source)
    ensures Put(Put(k, b), a) == Put(Put(k, a), b)
  {
    if k[0].source == a.source {
      assert Put(k, b)[1..] == Put(k[1..], b);
      assert Put(k, a)[1..] == k[1..];
    } else if k[0].source == b.source {
      assert Put(k, b)[1..] == k[1..];
      assert Put(k, a)[1..] == Put(k[1..], a);
    } else {
      HasTail(k, a.source);
      PutCommutes(k[1..], a, b);
      assert Put(k, b)[1..] == Put(k[1..], b);
      assert Put(k, a)[1..] == Put(k[1..], a);
    }
  }

  lemma HasTail(k: seq<Item>, s: string)
    requires Has(k, s) && k[0].source != s
    ensures Has(k[1..], s)
  {
    var i :| 0 <= i < |k| && k[i].source == s;
    assert k[1..][i - 1] == k[i];
  }

  lemma {:induction false} PutHas(k: seq<Item>, item: Item, s: string)
    ensures Has(Put(k, item), s) <==> Has(k, s) || s == item.source
  {
    if k == [] {
      assert Put(k, item)[0] == item;
    } else if k[0].source == item.source {
      var p := Put(k, item);
      assert p[0].source == k[0].source;
      assert forall i :: 0 < i < |k| ==> p[i] == k[i];
    } else {
      PutHas(k[1..], item, s);
      var p := Put(k, item);
      assert p[0] == k[0] && p[1..] == Put(k[1..], item);
      if Has(p, s) && p[0].source != s { HasTail(p, s); }
      if Has(k, s) && k[0].source != s { HasTail(k, s); }
      if Has(p[1..], s) { var i :| 0 <= i < |p[1..]| && p[1..][i].source == s; assert p[i + 1] == p[1..][i]; }
      if Has(k[1..], s) { var i :| 0 <= i < |k[1..]| && k[1..][i].source == s; assert k[i + 1] == k[1..][i]; }
    }
  }

  lemma {:induction false} IngestConcat(f: Folded, xs: seq<Item>, ys: seq<Item>)
    ensures IngestAll(f, xs + ys) == IngestAll(IngestAll(f, xs), ys)
  {
    if ys == [] {
      assert xs + ys == xs;
    } else {
      IngestConcat(f, xs, ys[..|ys| - 1]);
      assert (xs + ys)[..|xs + ys| - 1] == xs + ys[..|ys| - 1];
    }
  }

  /** An update of a child already present may be moved past entries of other children. */
  lemma {:induction false} UpdateMovesEarlier(f: Folded, xs: seq<Item>, a: Item)
    requires a.valid
    requires forall i :: 0 <= i < |xs| && xs[i].valid ==> xs[i].source != a.source && Has(f.known, a.source)
    ensures Ingest(IngestAll(f, xs), a) == IngestAll(Ingest(f, a), xs)
    ensures Has(f.known, a.source) ==> Has(IngestAll(f, xs).known, a.source)
  {
    if xs != [] {
      var ys, y := xs[..|xs| - 1], xs[|xs| - 1];
      UpdateMovesEarlier(f, ys, a);
      var g := IngestAll(f, ys);
      if y.valid {
        PutCommutes(g.known, a, y);
        PutHas(g.known, y, a.source);
      }
    }
  }

  lemma {:induction false} InvalidKept(f: Folded, xs: seq<Item>, x: Item)
    requires !x.valid
    ensures x in IngestAll(f, xs).invalid <==> x in f.invalid || x in xs
  {
    if xs != [] {
      InvalidKept(f, xs[..|xs| - 1], x);
      assert xs == xs[..|xs| - 1] + [xs[|xs| - 1]];
    }
  }

  /** Folding the folded form is folding the original: merging is a normal form. */
  lemma {:induction false} Refold(f: Folded, xs: seq<Item>)
    requires WellFolded(f)
    ensures IngestAll(f, Flatten(IngestAll(EMPTY, xs))) == IngestAll(f, xs)
  {
    if xs != [] {
      var ys, x := xs[..|xs| - 1], xs[|xs| - 1];
      Refold(f, ys);
      FoldIsWellFolded(EMPTY, ys);
      RefoldStep(f, IngestAll(EMPTY, ys), x);
    }
  }

  lemma RefoldStep(f: Folded, g: Folded, x: Item)
    requires WellFolded(f) && WellFolded(g)
    ensures IngestAll(f, Flatten(Ingest(g, x))) == Ingest(IngestAll(f, Flatten(g)), x)
  {
    if !x.valid {
      if x in g.invalid {
        InvalidKept(f, Flatten(g), x);
      } else {
        assert Flatten(Ingest(g, x)) == Flatten(g) + [x];
        IngestConcat(f, Flatten(g), [x]);
        OneItem(IngestAll(f, Flatten(g)), x);
      }
    } else {
      var j := IndexOf(g.known, x.source);
      PutAt(g.known, x, j);
      if j == |g.known| {
        RefoldNew(f, g, x);
      } else {
        RefoldUpdate(f, g, x, j);
      }
    }
  }

  lemma OneItem(f: Folded, x: Item)
    ensures IngestAll(f, [x]) == Ingest(f, x)
  {
    assert [x][..0] == [];
    assert IngestAll(f, [x][..0]) == f;
  }

  lemma RefoldNew(f: Folded, g: Folded, x: Item)
    requires WellFolded(f) && WellFolded(g) && x.valid
    ensures IngestAll(f, g.known + [x] + g.invalid) == Ingest(IngestAll(f, Flatten(g)), x)
  {
    var h := IngestAll(f, g.known);
    IngestConcat(f, g.known + [x], g.invalid);
    IngestConcat(f, g.known, [x]);
    OneItem(h, x);
    UpdateMovesEarlier(h, g.invalid, x);
    IngestConcat(f, g.known, g.invalid);
  }

  lemma IngestAround(f: Folded, before: seq<Item>, k: Item, after: seq<Item>)
    ensures IngestAll(f, before + [k] + after) == IngestAll(Ingest(IngestAll(f, before), k), after)
  {
    IngestConcat(f, before + [k], after);
    IngestConcat(f, before, [k]);
    OneItem(IngestAll(f, before), k);
  }

  /** Nothing after position j of a folded list speaks about the child at j. */
  lemma OthersAfter(g: Folded, j: nat, after: seq<Item>)
    requires WellFolded(g) && j < |g.known| && after == g.known[j + 1..] + g.invalid
    ensures forall i :: 0 <= i < |after| && after[i].valid ==> after[i].source != g.known[j].source
  {
    forall i | 0 <= i < |after| && after[i].valid ensures after[i].source != g.known[j].source {
      if i < |g.known| - j - 1 {
        assert Sources(g.known)[j + 1 + i] != Sources(g.known)[j];
      }
    }
  }

  lemma RefoldUpdate(f: Folded, g: Folded, x: Item, j: nat)
    requires WellFolded(f) && WellFolded(g) && x.valid
    requires j < |g.known| && g.known[j].source == x.source
    ensures IngestAll(f, g.known[j := Resolve(g.known[j], x)] + g.invalid) == Ingest(IngestAll(f, Flatten(g)), x)
  {
    var k := g.known[j];
    var r := Resolve(k, x);
    var before, after := g.known[..j], g.known[j + 1..] + g.invalid;
    assert Flatten(g) == before + [k] + after;
    assert g.known[j := r] + g.invalid == before + [r] + after;
    OthersAfter(g, j, after);
    KnownAreValid(g, j);
    hide IngestAll, Flatten, WellFolded;
    FoldIsWellFolded(f, before);
    IngestAround(f, before, k, after);
    IngestAround(f, before, r, after);
    UpdateReplaces(IngestAll(f, before), k, after, x);
  }

  lemma KnownAreValid(g: Folded, j: nat)
    requires WellFolded(g) && j < |g.known|
    ensures g.known[j].valid
  {
  }

  /** Updating a child after the entries of others is updating it in its place. */
  lemma UpdateReplaces(h: Folded, k: Item, after: seq<Item>, x: Item)
    requires WellFolded(h) && k.valid && x.valid && k.source == x.source
    requires forall i :: 0 <= i < |after| && after[i].valid ==> after[i].source != x.source
    ensures Ingest(IngestAll(Ingest(h, k), after), x) == IngestAll(Ingest(h, Resolve(k, x)), after)
  {
    PutHas(h.known, k, k.source);
    PutTwice(h.known, k, x);
    IngestKeepsWellFolded(h, k);
    UpdateMovesEarlier(Ingest(h, k), after, x);
  }

  // ---- Main results ----

  lemma DropNothing(known: seq<Item>)
    ensures DropSources(known, {}) == known
  {
  }

  lemma MergeWithoutResets(a: seq<Item>, b: seq<Item>)
    ensures MergeItems(a, b, {}) == Flatten(IngestAll(EMPTY, a + b))
  {
    DropNothing(IngestAll(EMPTY, a).known);
    IngestConcat(EMPTY, a, b);
  }

  lemma NormalFormLeft(xs: seq<Item>, c: seq<Item>)
    ensures IngestAll(EMPTY, Flatten(IngestAll(EMPTY, xs)) + c) == IngestAll(EMPTY, xs + c)
  {
    IngestConcat(EMPTY, Flatten(IngestAll(EMPTY, xs)), c);
    Refold(EMPTY, xs);
    IngestConcat(EMPTY, xs, c);
  }

  lemma NormalFormRight(a: seq<Item>, xs: seq<Item>)
    ensures IngestAll(EMPTY, a + Flatten(IngestAll(EMPTY, xs))) == IngestAll(EMPTY, a + xs)
  {
    IngestConcat(EMPTY, a, Flatten(IngestAll(EMPTY, xs)));
    FoldIsWellFolded(EMPTY, a);
    Refold(IngestAll(EMPTY, a), xs);
    IngestConcat(EMPTY, a, xs);
  }

  /** Without resets, merging is associative on whole snapshots. */
  lemma MergeAssociative(a: seq<Item>, b: seq<Item>, c: seq<Item>)
    ensures MergeItems(MergeItems(a, b, {}), c, {}) == MergeItems(a, MergeItems(b, c, {}), {})
  {
    calc {
      MergeItems(MergeItems(a, b, {}), c, {});
    ==  { MergeWithoutResets(a, b); MergeWithoutResets(Flatten(IngestAll(EMPTY, a + b)), c); }
      Flatten(IngestAll(EMPTY, Flatten(IngestAll(EMPTY, a + b)) + c));
    ==  { NormalFormLeft(a + b, c); }
      Flatten(IngestAll(EMPTY, a + b + c));
    ==  { assert a + b + c == a + (b + c); NormalFormRight(a, b + c); }
      Flatten(IngestAll(EMPTY, a + Flatten(IngestAll(EMPTY, b + c))));
    ==  { MergeWithoutResets(b, c); MergeWithoutResets(a, Flatten(IngestAll(EMPTY, b + c))); }
      MergeItems(a, MergeItems(b, c, {}), {});
    }
  }

  /** k already holds everything item could tell about its child. */
  predicate Absorbs(k: seq<Item>, item: Item) {
    exists i :: 0 <= i < |k| && k[i].source == item.source && Resolve(k[i], item) == k[i]
  }

  lemma {:induction false} AbsorbedPut(k: seq<Item>, item: Item)
    requires Distinct(Sources(k)) && Absorbs(k, item)
    ensures Put(k, item) == k
  {
    var i :| 0 <= i < |k| && k[i].source == item.source && Resolve(k[i], item) == k[i];
    forall m | 0 <= m < i ensures k[m].source != item.source {
      assert Sources(k)[m] != Sources(k)[i];
    }
    PutAt(k, item, i);
  }

  lemma PutAbsorbs(k: seq<Item>, item: Item, other: Item)
    requires Distinct(Sources(k))
    requires other == item || (other.source != item.source && Absorbs(k, other))
    ensures Absorbs(Put(k, item), other)
  {
    var j := IndexOf(k, item.source);
    PutAt(k, item, j);
    var p := Put(k, item);
    if other == item {
      assert p[j].source == item.source && Resolve(p[j], item) == p[j];
    } else {
      var i :| 0 <= i < |k| && k[i].source == other.source && Resolve(k[i], other) == k[i];
      assert p[i] == k[i];
    }
  }

  lemma {:induction false} FoldAbsorbs(f: Folded, xs: seq<Item>, i: nat)
    requires WellFolded(f) && i < |xs| && xs[i].valid
    requires forall j :: i < j < |xs| && xs[j].valid ==> xs[j].source != xs[i].source
    ensures Absorbs(IngestAll(f, xs).known, xs[i])
  {
    var ys, y := xs[..|xs| - 1], xs[|xs| - 1];
    FoldIsWellFolded(f, ys);
    var g := IngestAll(f, ys);
    if i < |xs| - 1 {
      FoldAbsorbs(f, ys, i);
    }
    if y.valid {
      PutAbsorbs(g.known, y, xs[i]);
    }
  }

  lemma {:induction false} FoldOfAbsorbed(f: Folded, xs: seq<Item>)
    requires WellFolded(f)
    requires forall i :: 0 <= i < |xs| ==> if xs[i].valid then Absorbs(f.known, xs[i]) else xs[i] in f.invalid
    ensures IngestAll(f, xs) == f
  {
    if xs != [] {
      FoldOfAbsorbed(f, xs[..|xs| - 1]);
      var x := xs[|xs| - 1];
      if x.valid {
        AbsorbedPut(f.known, x);
      }
    }
  }

  /** Replaying the second snapshot changes nothing. */
  lemma MergeIdempotent(a: seq<Item>, b: seq<Item>)
    ensures MergeItems(MergeItems(a, b, {}), b, {}) == MergeItems(a, b, {})
  {
    MergeWithoutResets(a, b);
    MergeWithoutResets(MergeItems(a, b, {}), b);
    IngestConcat(EMPTY, MergeItems(a, b, {}), b);
    Refold(EMPTY, a + b);
    IngestConcat(EMPTY, a, b);
    var f := IngestAll(EMPTY, a);
    var h := IngestAll(f, b);
    FoldIsWellFolded(EMPTY, a);
    FoldIsWellFolded(f, b);
    var nb := IngestAll(EMPTY, b);
    FoldIsWellFolded(EMPTY, b);
    var xs := Flatten(nb);
    Refold(f, b);
    Refold(h, b);
    forall i | 0 <= i < |xs| ensures if xs[i].valid then Absorbs(h.known, xs[i]) else xs[i] in h.invalid {
      if xs[i].valid {
        assert i < |nb.known|;
        forall j | i < j < |xs| && xs[j].valid ensures xs[j].source != xs[i].source {
          assert j < |nb.known|;
          assert Sources(nb.known)[i] != Sources(nb.known)[j];
        }
        FoldAbsorbs(f, xs, i);
      } else {
        InvalidKept(f, xs, xs[i]);
      }
    }
    FoldOfAbsorbed(h, xs);
  }

  // ---- What a merged snapshot means ----

  /** The entries of child s that still count: those of `previous` unless reset, then `current`. */
  function History(previous: seq<Item>, current: seq<Item>, resets: set<string>, s: string): seq<Item> {
    (if s in resets then [] else ItemsOf(previous, s)) + ItemsOf(current, s)
  }

  predicate Tracks(known: seq<Item>, s: string, h: seq<Item>) {
    && (Has(known, s) <==> h != [])
    && (forall i :: 0 <= i < |known| && known[i].source == s ==> LastTerminalElseLast(h, known[i]))
  }

  lemma ResolveExtends(h: seq<Item>, e: Item, x: Item)
    requires LastTerminalElseLast(h, e)
    ensures LastTerminalElseLast(h + [x], Resolve(e, x))
  {
    var i :| 0 <= i < |h| && h[i] == e
      && (forall j :: i < j < |h| ==> Transient(h[j].status))
      && (Terminal(e.status) || (i == |h| - 1 && forall j :: 0 <= j < i ==> Transient(h[j].status)));
    var g := h + [x];
    if Resolve(e, x) == x {
      assert g[|h|] == x;
    } else {
      assert g[i] == e;
    }
  }

  lemma PutTracks(known: seq<Item>, item: Item, s: string, h: seq<Item>)
    requires Distinct(Sources(known)) && Tracks(known, s, h)
    ensures Tracks(Put(known, item), s, if item.source == s then h + [item] else h)
  {
    var j := IndexOf(known, item.source);
    PutAt(known, item, j);
    PutHas(known, item, s);
    var p := Put(known, item);
    if item.source == s {
      forall i | 0 <= i < |p| && p[i].source == s ensures LastTerminalElseLast(h + [item], p[i]) {
        if j < |known| {
          assert Sources(known)[i] == Sources(known)[j];
          ResolveExtends(h, known[j], item);
        } else {
          assert i == j && h == [];
          assert (h + [item])[0] == item;
        }
      }
    }
  }

  lemma KnownAreDistinct(f: Folded)
    requires WellFolded(f)
    ensures Distinct(Sources(f.known))
  {
  }

  lemma {:induction false} FoldTracks(f: Folded, xs: seq<Item>, s: string, h: seq<Item>)
    requires WellFolded(f) && Tracks(f.known, s, h)
    ensures Tracks(IngestAll(f, xs).known, s, h + ItemsOf(xs, s))
  {
    hide Tracks, Put;
    if xs == [] {
      assert h + ItemsOf(xs, s) == h;
    } else {
      var ys, x := xs[..|xs| - 1], xs[|xs| - 1];
      FoldTracks(f, ys, s, h);
      FoldIsWellFolded(f, ys);
      KnownAreDistinct(IngestAll(f, ys));
      hide WellFolded;
      if x.valid {
        PutTracks(IngestAll(f, ys).known, x, s, h + ItemsOf(ys, s));
        assert h + (ItemsOf(ys, s) + [x]) == h + ItemsOf(ys, s) + [x];
      }
    }
  }

  lemma {:induction false} DropSourcesMeaning(known: seq<Item>, resets: set<string>)
    requires Distinct(Sources(known))
    ensures forall x :: x in DropSources(known, resets) <==> x in known && x.source !in resets
    ensures Distinct(Sources(DropSources(known, resets)))
  {
    if known != [] {
      DistinctTail(known);
      DropSourcesMeaning(known[1..], resets);
      assert known == [known[0]] + known[1..];
      var d := DropSources(known[1..], resets);
      if known[0].source !in resets {
        forall i | 0 <= i < |d| ensures d[i].source != known[0].source {
          assert d[i] in known[1..];
          var m :| 0 <= m < |known[1..]| && known[1..][m] == d[i];
          assert Sources(known)[m + 1] != Sources(known)[0];
        }
      }
    }
  }

  lemma ForgetKeeps(f: Folded, resets: set<string>)
    requires WellFolded(f)
    ensures WellFolded(Forget(f, resets))
    ensures forall s, h :: Tracks(f.known, s, h) ==> Tracks(Forget(f, resets).known, s, if s in resets then [] else h)
  {
    DropSourcesMeaning(f.known, resets);
    var d := DropSources(f.known, resets);
    forall i | 0 <= i < |d| ensures d[i].valid { assert d[i] in f.known; }
    forall s, h | Tracks(f.known, s, h) ensures Tracks(d, s, if s in resets then [] else h) {
      forall i | 0 <= i < |d| && d[i].source == s ensures s !in resets && LastTerminalElseLast(h, d[i]) {
        assert d[i] in f.known;
      }
      if s !in resets && Has(f.known, s) {
        var i :| 0 <= i < |f.known| && f.known[i].source == s;
        assert f.known[i] in d;
      }
    }
  }

  /** The merged snapshot holds exactly one entry per child that still counts, namely the
      last terminal entry or else the last one; every invalid item of either side is kept
      and none is invented; resets touch nothing but the named children. */
  lemma MergeMeaning(previous: seq<Item>, current: seq<Item>, resets: set<string>)
    ensures WellFolded(MergeFold(previous, current, resets))
    ensures forall s :: Tracks(MergeFold(previous, current, resets).known, s, History(previous, current, resets, s))
    ensures forall x: Item :: !x.valid ==>
              (x in MergeFold(previous, current, resets).invalid <==> x in previous || x in current)
  {
    var f := IngestAll(EMPTY, previous);
    FoldIsWellFolded(EMPTY, previous);
    ForgetKeeps(f, resets);
    FoldIsWellFolded(Forget(f, resets), current);
    forall s ensures Tracks(MergeFold(previous, current, resets).known, s, History(previous, current, resets, s)) {
      FoldTracks(EMPTY, previous, s, []);
      assert [] + ItemsOf(previous, s) == ItemsOf(previous, s);
      FoldTracks(Forget(f, resets), current, s, if s in resets then [] else ItemsOf(previous, s));
    }
    forall x: Item | !x.valid
      ensures x in MergeFold(previous, current, resets).invalid <==> x in previous || x in current
    {
      InvalidKept(EMPTY, previous, x);
      InvalidKept(Forget(f, resets), current, x);
    }
  }

  /** Without resets the children appear in the order in which they were first seen. */
  lemma {:induction false} FirstSeenOrder(xs: seq<Item>)
    ensures Sources(IngestAll(EMPTY, xs).known) == FirstSeen(xs)
  {
    if xs != [] {
      var ys, x := xs[..|xs| - 1], xs[|xs| - 1];
      FirstSeenOrder(ys);
      FoldIsWellFolded(EMPTY, ys);
      var k := IngestAll(EMPTY, ys).known;
      if x.valid {
        var j := IndexOf(k, x.source);
        PutAt(k, x, j);
        if j < |k| { assert Sources(k)[j] == x.source; }
        assert x.source in FirstSeen(ys) <==> j < |k|;
        assert Sources(Put(k, x)) == if j < |k| then Sources(k) else Sources(k) + [x.source];
      }
    }
  }

  /** Every entry of a merged snapshot was an entry of one side. */
  lemma {:induction false} FoldFrom(f: Folded, xs: seq<Item>, x: Item)
    requires WellFolded(f)
    requires x in Flatten(IngestAll(f, xs))
    ensures x in Flatten(f) || x in xs
  {
    if xs != [] {
      var ys, y := xs[..|xs| - 1], xs[|xs| - 1];
      assert y in xs && forall z :: z in ys ==> z in xs;
      FoldIsWellFolded(f, ys);
      var g := IngestAll(f, ys);
      if y.valid {
        var j := IndexOf(g.known, y.source);
        PutAt(g.known, y, j);
      }
      if x != y {
        assert x in Flatten(g);
        FoldFrom(f, ys, x);
      }
    }
  }

  lemma MergedItemsAreDecoded(a: seq<StateItem>, b: seq<StateItem>, resets: set<string>)
    ensures var m := MergeItems(DecodeAll(a), DecodeAll(b), resets); DecodeAll(RawAll(m)) == m
  {
    var f := IngestAll(EMPTY, DecodeAll(a));
    FoldIsWellFolded(EMPTY, DecodeAll(a));
    ForgetKeeps(f, resets);
    DropSourcesMeaning(f.known, resets);
    var m := MergeItems(DecodeAll(a), DecodeAll(b), resets);
    forall i | 0 <= i < |m| ensures m[i] == Decode(m[i].raw) {
      FoldFrom(Forget(f, resets), DecodeAll(b), m[i]);
      if m[i] !in DecodeAll(b) {
        assert m[i] in Flatten(f);
        FoldFrom(EMPTY, DecodeAll(a), m[i]);
      }
    }
  }

  /** Merging whole snapshots is associative and replaying the newer one is harmless. */
  lemma SnapshotsMergeAssociatively(a: States, b: States, c: States)
    ensures MergeStates(MergeStates(a, b, {}), c, {}) == MergeStates(a, MergeStates(b, c, {}), {})
    ensures MergeStates(MergeStates(a, b, {}), b, {}) == MergeStates(a, b, {})
  {
    var x, y, z := StateItems(a), StateItems(b), StateItems(c);
    MergedItemsAreDecoded(x, y, {});
    MergedItemsAreDecoded(y, z, {});
    MergeAssociative(DecodeAll(x), DecodeAll(y), DecodeAll(z));
    MergeIdempotent(DecodeAll(x), DecodeAll(y));
  }

  // ---- The loops of the source: an insertion-ordered dictionary and a list ----

  /** The dictionary (key order and values) holds exactly the folded entries. */
  ghost predicate Mirrors(order: seq<string>, byKey: map<string, Item>, known: seq<Item>) {
    && |order| == |known|
    && (forall k :: k in byKey <==> k in order)
    && (forall i :: 0 <= i < |known| ==> order[i] == known[i].source && order[i] in byKey && byKey[order[i]] == known[i])
    && Distinct(Sources(known))
  }

  lemma MirrorUpdate(order: seq<string>, byKey: map<string, Item>, known: seq<Item>, item: Item, j: nat)
    requires Mirrors(order, byKey, known) && j < |known| && known[j].source == item.source
    ensures item.source in byKey
    ensures Mirrors(order, byKey[item.source := Resolve(byKey[item.source], item)], known[j := Resolve(known[j], item)])
  {
    var p := known[j := Resolve(known[j], item)];
    assert Sources(p) == Sources(known);
    forall i | 0 <= i < |p| && i != j ensures order[i] != item.source {
      assert Sources(known)[i] != Sources(known)[j];
    }
  }

  lemma MirrorAppend(order: seq<string>, byKey: map<string, Item>, known: seq<Item>, item: Item)
    requires Mirrors(order, byKey, known) && item.source !in byKey
    ensures Mirrors(order + [item.source], byKey[item.source := item], known + [item])
  {
    assert Sources(known) == order;
    assert Sources(known + [item]) == Sources(known) + [item.source];
  }

  lemma MirrorPut(order: seq<string>, byKey: map<string, Item>, known: seq<Item>, item: Item)
    requires Mirrors(order, byKey, known)
    ensures item.source in byKey ==>
              Mirrors(order, byKey[item.source := Resolve(byKey[item.source], item)], Put(known, item))
    ensures item.source !in byKey ==>
              Mirrors(order + [item.source], byKey[item.source := item], Put(known, item))
  {
    MirrorHas(order, byKey, known, item.source);
    hide Mirrors, Has;
    var j := IndexOf(known, item.source);
    PutAt(known, item, j);
    if item.source in byKey {
      MirrorUpdate(order, byKey, known, item, j);
    } else {
      MirrorAppend(order, byKey, known, item);
    }
  }

  lemma MirrorHas(order: seq<string>, byKey: map<string, Item>, known: seq<Item>, s: string)
    requires Mirrors(order, byKey, known)
    ensures s in byKey <==> Has(known, s)
    ensures Distinct(Sources(known))
  {
  }

  method IngestLoop(order0: seq<string>, byKey0: map<string, Item>, invalid0: seq<Item>, items: seq<Item>, ghost f: Folded)
    returns (order: seq<string>, byKey: map<string, Item>, invalid: seq<Item>)
    requires Mirrors(order0, byKey0, f.known) && invalid0 == f.invalid
    ensures Mirrors(order, byKey, IngestAll(f, items).known)
    ensures invalid == IngestAll(f, items).invalid
  {
    order, byKey, invalid := order0, byKey0, invalid0;
    for n := 0 to |items|
      invariant Mirrors(order, byKey, IngestAll(f, items[..n]).known)
      invariant invalid == IngestAll(f, items[..n]).invalid
    {
      var item := items[n];
      assert items[..n + 1][..n] == items[..n];
      if !item.valid {
        if item !in invalid {
          invalid := invalid + [item];
        }
      } else {
        MirrorPut(order, byKey, IngestAll(f, items[..n]).known, item);
        if item.source !in byKey {
          order := order + [item.source];
          byKey := byKey[item.source := item];
        } else if !(Terminal(byKey[item.source].status) && Transient(item.status)) {
          byKey := byKey[item.source := item];
        } else {
          assert byKey[item.source := byKey[item.source]] == byKey;
        }
      }
    }
    assert items[..|items|] == items;
  }

  method DropLoop(order0: seq<string>, byKey0: map<string, Item>, resets: set<string>, ghost known: seq<Item>)
    returns (order: seq<string>, byKey: map<string, Item>)
    requires Mirrors(order0, byKey0, known)
    ensures Mirrors(order, byKey, DropSources(known, resets))
  {
    order, byKey := [], byKey0 - resets;
    for n := 0 to |order0|
      invariant order == Sources(DropSources(known[..n], resets))
    {
      DropAppend(known[..n], known[n], resets);
      assert known[..n + 1] == known[..n] + [known[n]];
      if order0[n] !in resets {
        order := order + [order0[n]];
      }
    }
    assert known[..|known|] == known;
    MirrorsDrop(order0, byKey0, resets, known);
  }

  lemma MirrorsDrop(order0: seq<string>, byKey0: map<string, Item>, resets: set<string>, known: seq<Item>)
    requires Mirrors(order0, byKey0, known)
    ensures Mirrors(Sources(DropSources(known, resets)), byKey0 - resets, DropSources(known, resets))
  {
    DropSourcesMeaning(known, resets);
    var d := DropSources(known, resets);
    var order, byKey := Sources(d), byKey0 - resets;
    forall i | 0 <= i < |d| ensures order[i] in byKey && byKey[order[i]] == d[i] {
      assert d[i] in known && d[i].source !in resets;
    }
    forall k | k in byKey ensures k in order {
      var i :| 0 <= i < |order0| && order0[i] == k;
      assert known[i] in d;
      var m :| 0 <= m < |d| && d[m] == known[i];
      assert order[m] == k;
    }
  }

  lemma {:induction false} DropAppend(known: seq<Item>, x: Item, resets: set<string>)
    ensures DropSources(known + [x], resets) ==
            DropSources(known, resets) + (if x.source in resets then [] else [x])
  {
    if known == [] {
      assert known + [x] == [x];
      assert [x][1..] == [];
    } else {
      assert (known + [x])[1..] == known[1..] + [x];
      DropAppend(known[1..], x, resets);
    }
  }

  method MergeChildStates(previous: States, current: States, resets: set<string>) returns (merged: States)
    ensures merged == MergeStates(previous, current, resets)
  {
    var a, b := DecodeAll(StateItems(previous)), DecodeAll(StateItems(current));
    var order, byKey, invalid := IngestLoop([], map[], [], a, EMPTY);
    ghost var f := IngestAll(EMPTY, a);
    order, byKey := DropLoop(order, byKey, resets, f.known);
    order, byKey, invalid := IngestLoop(order, byKey, invalid, b, Forget(f, resets));
    ghost var g := IngestAll(Forget(f, resets), b);
    var values := seq(|order|, i requires 0 <= i < |order| && order[i] in byKey => byKey[order[i]]);
    assert values == g.known;
    merged := StateList(RawAll(values + invalid));
  }
}
