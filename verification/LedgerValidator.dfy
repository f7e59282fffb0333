/** `_validate_events` of scripts/validate_workflow_tenant.py: a one-pass machine over the
    card-event ledger against the rules a correct multi-page run obeys. */
module LedgerValidator {
  import opened Wrappers

  /** A decoded JSON value; numbers are finite. */
  datatype Json = JBool(b: bool) | JInt(i: int) | JReal(r: real) | JText(s: string) | JOther

  /** A raw ledger entry: an object with exactly the six expected fields, or anything else. */
  datatype RawEvent =
    | Fields(sequence: Json, kind: Json, page: Json, messageHash: Json, payloadHash: Json, capturedAt: Json)
    | WrongShape

  datatype Kind = Create | Patch | Freeze | Finish

  datatype Event = Event(kind: Kind, page: nat, hash: string, at: real)

  predicate IsDigest(v: Json) {
    v.JText? && |v.s| == 64 && forall i :: 0 <= i < 64 ==> '0' <= v.s[i] <= '9' || 'a' <= v.s[i] <= 'f'
  }

  predicate EqualsNumber(v: Json, n: int) {
    v == JInt(n) || v == JReal(n as real)
  }

  function ReadKind(v: Json): Option<Kind> {
    if v == JText("create") then Some(Create)
    else if v == JText("patch") then Some(Patch)
    else if v == JText("freeze") then Some(Freeze)
    else if v == JText("finish") then Some(Finish)
    else None
  }

  function ReadNumber(v: Json): Option<real> {
    match v
    case JInt(i) => Some(i as real)
    case JReal(r) => Some(r)
    case _ => None
  }

  /** The checks on one entry by itself, for its position in the ledger (from 1). */
  function Read(raw: RawEvent, position: nat): Option<Event> {
    if raw.WrongShape? || !EqualsNumber(raw.sequence, position) then None
    else if !raw.page.JInt? || raw.page.i < 0 || ReadKind(raw.kind).None? then None
    else if ReadNumber(raw.capturedAt).None? || ReadNumber(raw.capturedAt).value <= 0.0 then None
    else if !IsDigest(raw.messageHash) || !IsDigest(raw.payloadHash) then None
    else Some(Event(ReadKind(raw.kind).value, raw.page.i, raw.messageHash.s, ReadNumber(raw.capturedAt).value))
  }

  /** An entry written for an event at a position, with any payload digest. */
  function Write(e: Event, position: nat, payload: string): RawEvent {
    Fields(JInt(position),
      JText(match e.kind case Create => "create" case Patch => "patch" case Freeze => "freeze" case Finish => "finish"),
      JInt(e.page), JText(e.hash), JText(payload), JReal(e.at))
  }

  /** Numbers may be written as integers or not. */
  predicate SameNumber(v: Json, w: Json) {
    v == w || (v.JInt? && w.JReal? && v.i as real == w.r) || (v.JReal? && w.JInt? && v.r == w.i as real)
  }

  /** An entry reads as e exactly if it is an entry written for e, up to how its number fields
      are written: the message digest is the event's hash and the payload digest any digest. */
  lemma ReadExactly(raw: RawEvent, position: nat, e: Event)
    ensures Read(raw, position) == Some(e) <==>
            && raw.Fields? && e.at > 0.0 && IsDigest(raw.messageHash) && IsDigest(raw.payloadHash)
            && var w := Write(e, position, raw.payloadHash.s);
               && raw.kind == w.kind && raw.page == w.page && raw.messageHash == w.messageHash
               && SameNumber(raw.sequence, w.sequence) && SameNumber(raw.capturedAt, w.capturedAt)
  {
  }

  /** es are the entries of raws, all well-formed and numbered from 1. */
  ghost predicate Decodes(raws: seq<RawEvent>, es: seq<Event>) {
    |es| == |raws| && forall i :: 0 <= i < |raws| ==> Read(raws[i], i + 1) == Some(es[i])
  }

  // ---- The rules ----

  /** Some event before position n has the given kind and page. */
  predicate Happened(es: seq<Event>, n: nat, kind: Kind, page: nat)
    requires n <= |es|
  {
    exists k :: 0 <= k < n && es[k].kind == kind && es[k].page == page
  }

  /** Event i is legal after the events before it: nothing follows the finish, time does not go
      back and a page keeps its message; pages are created once in contiguous order; a page
      is patched only between its creation and its freeze, and frozen once, after its
      successor exists; only the newest page finishes. */
  ghost predicate EventOk(es: seq<Event>, i: nat)
    requires i < |es|
  {
    var e := es[i];
    && (forall k :: 0 <= k < i ==> es[k].kind != Finish && es[k].at <= e.at && (es[k].page == e.page ==> es[k].hash == e.hash))
    && match e.kind
       case Create => forall q: nat :: Happened(es, i, Create, q) <==> q < e.page
       case Patch => Happened(es, i, Create, e.page) && !Happened(es, i, Freeze, e.page)
       case Freeze => Happened(es, i, Create, e.page) && !Happened(es, i, Freeze, e.page) && Happened(es, i, Create, e.page + 1)
       case Finish => Happened(es, i, Create, e.page) && !Happened(es, i, Create, e.page + 1)
  }

  /** At the end there are at least two pages, every page was patched, every page with a
      successor was frozen, and the newest page finished. */
  ghost predicate Complete(es: seq<Event>) {
    && Happened(es, |es|, Create, 1)
    && (forall p: nat :: Happened(es, |es|, Create, p) ==>
          && Happened(es, |es|, Patch, p)
          && (if Happened(es, |es|, Create, p + 1) then Happened(es, |es|, Freeze, p) else Happened(es, |es|, Finish, p)))
  }

  ghost predicate ValidLedger(es: seq<Event>) {
    (forall i :: 0 <= i < |es| ==> EventOk(es, i)) && Complete(es)
  }

  // ---- The machine ----

  /** The validator's loop variables; created pages are 0 .. pages - 1. */
  datatype State = State(
    pages: nat,
    patched: set<nat>,
    frozen: set<nat>,
    hashes: map<nat, string>,
    previousAt: real,
    finished: Option<nat>)

  const START := State(0, {}, {}, map[], 0.0, None)

  function Step(s: State, e: Event): Option<State> {
    if e.at < s.previousAt || s.finished.Some? then None
    else if e.page in s.hashes && s.hashes[e.page] != e.hash then None
    else
      var t := s.(previousAt := e.at);
      if e.kind == Create then
        if e.page != s.pages then None else Some(t.(pages := s.pages + 1, hashes := s.hashes[e.page := e.hash]))
      else if e.page >= s.pages then None
      else if e.kind == Patch then
        if e.page in s.frozen then None else Some(t.(patched := s.patched + {e.page}))
      else if e.kind == Freeze then
        if e.page in s.frozen || e.page + 1 >= s.pages then None else Some(t.(frozen := s.frozen + {e.page}))
      else
        if e.page in s.frozen || e.page != s.pages - 1 then None else Some(t.(finished := Some(e.page)))
  }

  function Fold(es: seq<Event>): Option<State> {
    if es == [] then Some(START)
    else
      var before := Fold(es[..|es| - 1]);
      if before.None? then None else Step(before.value, es[|es| - 1])
  }

  predicate Accepts(s: State) {
    && s.pages >= 2
    && s.patched == Upto(s.pages)
    && s.frozen == Upto(s.pages - 1)
    && s.finished == Some(s.pages - 1)
  }

  function Upto(n: nat): (r: set<nat>)
    ensures forall p: nat :: p in r <==> p < n
    ensures |r| == n
  {
    if n == 0 then {} else Upto(n - 1) + {n - 1}
  }

  /** s is what the machine should remember of es. */
  ghost predicate Reflects(s: State, es: seq<Event>) {
    && (forall p: nat :: Happened(es, |es|, Create, p) <==> p < s.pages)
    && (forall p: nat :: Happened(es, |es|, Patch, p) <==> p in s.patched)
    && (forall p: nat :: Happened(es, |es|, Freeze, p) <==> p in s.frozen)
    && (forall p: nat :: Happened(es, |es|, Finish, p) <==> s.finished == Some(p))
    && (forall p: nat :: p in s.hashes <==> p < s.pages)
    && (forall k :: 0 <= k < |es| ==> es[k].page in s.hashes && s.hashes[es[k].page] == es[k].hash)
    && (forall k :: 0 <= k < |es| ==> es[k].at <= s.previousAt)
    && (s.previousAt == 0.0 || exists k :: 0 <= k < |es| && es[k].at == s.previousAt)
    && (forall p :: p in s.frozen ==> p + 1 < s.pages)
    && (forall p :: p in s.patched ==> p < s.pages)
  }

  lemma HappenedPrefix(es: seq<Event>, m: nat, n: nat, kind: Kind, page: nat)
    requires n <= m <= |es|
    ensures Happened(es[..m], n, kind, page) <==> Happened(es, n, kind, page)
  {
    if Happened(es, n, kind, page) {
      var k :| 0 <= k < n && es[k].kind == kind && es[k].page == page;
      assert es[..m][k] == es[k];
    }
  }

  lemma HappenedExtends(es: seq<Event>, kind: Kind, page: nat)
    requires es != []
    ensures var n := |es| - 1;
            Happened(es, |es|, kind, page) <==> Happened(es[..n], n, kind, page) || (es[n].kind == kind && es[n].page == page)
  {
    HappenedPrefix(es, |es| - 1, |es| - 1, kind, page);
  }

  lemma EventOkPrefix(es: seq<Event>, i: nat)
    requires i < |es| - 1
    ensures EventOk(es[..|es| - 1], i) <==> EventOk(es, i)
  {
    var n := |es| - 1;
    assert forall k :: 0 <= k < n ==> es[..n][k] == es[k];
    forall kind, p: nat ensures Happened(es[..n], i, kind, p) <==> Happened(es, i, kind, p) { HappenedPrefix(es, n, i, kind, p); }
  }

  /** The machine steps exactly when the event is legal. */
  lemma StepMeetsRule(s: State, es: seq<Event>)
    requires es != [] && Reflects(s, es[..|es| - 1]) && es[|es| - 1].at > 0.0
    ensures Step(s, es[|es| - 1]).Some? <==> EventOk(es, |es| - 1)
  {
    var n := |es| - 1;
    var e := es[n];
    var before := es[..n];
    forall kind, p: nat ensures Happened(before, n, kind, p) <==> Happened(es, n, kind, p) { HappenedPrefix(es, n, n, kind, p); }
    assert forall k :: 0 <= k < n ==> before[k] == es[k];
    assert e.at < s.previousAt <==> exists k :: 0 <= k < n && e.at < es[k].at;
    FinishedMeansSo(s, before);
    HashesMeanSo(s, before, e);
    if e.kind == Create && e.page != s.pages {
      assert Happened(before, n, Create, e.page) || !Happened(before, n, Create, e.page);
      if e.page > s.pages { assert !Happened(before, n, Create, s.pages); }
    }
  }

  lemma FinishedMeansSo(s: State, es: seq<Event>)
    requires Reflects(s, es)
    ensures s.finished.Some? <==> exists k :: 0 <= k < |es| && es[k].kind == Finish
  {
    if s.finished.Some? { assert Happened(es, |es|, Finish, s.finished.value); }
    if k :| 0 <= k < |es| && es[k].kind == Finish { assert Happened(es, |es|, Finish, es[k].page); }
  }

  lemma HashesMeanSo(s: State, es: seq<Event>, e: Event)
    requires Reflects(s, es)
    ensures (e.page in s.hashes && s.hashes[e.page] != e.hash) <==> exists k :: 0 <= k < |es| && es[k].page == e.page && es[k].hash != e.hash
  {
    if e.page in s.hashes && s.hashes[e.page] != e.hash {
      assert Happened(es, |es|, Create, e.page);
      var k :| 0 <= k < |es| && es[k].kind == Create && es[k].page == e.page;
      assert es[k].hash == s.hashes[e.page];
    }
  }

  lemma StepReflects(s: State, es: seq<Event>)
    requires es != [] && Reflects(s, es[..|es| - 1]) && Step(s, es[|es| - 1]).Some?
    ensures Reflects(Step(s, es[|es| - 1]).value, es)
  {
    var n := |es| - 1;
    var t := Step(s, es[n]).value;
    forall kind, p: nat
      ensures Happened(es, |es|, kind, p) <==> Happened(es[..n], n, kind, p) || (es[n].kind == kind && es[n].page == p)
    {
      HappenedExtends(es, kind, p);
    }
    assert forall k :: 0 <= k < n ==> es[..n][k] == es[k];
    assert t.previousAt == es[n].at;
  }

  lemma StartReflects()
    ensures Reflects(START, [])
  {
  }

  lemma {:induction false} FoldMeetsRules(es: seq<Event>)
    requires forall i :: 0 <= i < |es| ==> es[i].at > 0.0
    ensures Fold(es).Some? <==> forall i :: 0 <= i < |es| ==> EventOk(es, i)
    ensures Fold(es).Some? ==> Reflects(Fold(es).value, es)
  {
    hide Step, Happened, EventOk, Reflects;
    if es == [] {
      StartReflects();
    } else {
      var n := |es| - 1;
      FoldMeetsRules(es[..n]);
      forall i: nat | i < n ensures EventOk(es[..n], i) <==> EventOk(es, i) { EventOkPrefix(es, i); }
      if Fold(es[..n]).Some? {
        StepMeetsRule(Fold(es[..n]).value, es);
        if Fold(es).Some? { StepReflects(Fold(es[..n]).value, es); }
      }
    }
  }

  lemma AcceptsImpliesComplete(s: State, es: seq<Event>)
    requires Reflects(s, es) && Accepts(s)
    ensures Complete(es)
  {
    hide Happened;
    forall p: nat | Happened(es, |es|, Create, p)
      ensures Happened(es, |es|, Patch, p)
      ensures if Happened(es, |es|, Create, p + 1) then Happened(es, |es|, Freeze, p) else Happened(es, |es|, Finish, p)
    {
      assert p in s.patched;
    }
  }

  lemma CompletePages(s: State, es: seq<Event>)
    requires Reflects(s, es) && Complete(es)
    ensures s.pages >= 2
    ensures forall p: nat :: p in s.patched <==> p < s.pages
    ensures forall p: nat :: p in s.frozen <==> p < s.pages - 1
  {
    hide Happened;
    forall p: nat ensures (p in s.patched <==> p < s.pages) && (p in s.frozen <==> p < s.pages - 1) {
      assert Happened(es, |es|, Create, p) <==> p < s.pages;
      assert Happened(es, |es|, Create, p + 1) <==> p + 1 < s.pages;
    }
  }

  lemma CompleteImpliesAccepts(s: State, es: seq<Event>)
    requires Reflects(s, es) && Complete(es)
    ensures Accepts(s)
  {
    hide Happened;
    CompletePages(s, es);
    var newest: nat := s.pages - 1;
    assert Happened(es, |es|, Create, newest) && !Happened(es, |es|, Create, newest + 1);
  }

  // ---- At least three events per page ----

  function CountKind(es: seq<Event>, kind: Kind): nat {
    if es == [] then 0 else CountKind(es[..|es| - 1], kind) + (if es[|es| - 1].kind == kind then 1 else 0)
  }

  function PagesOf(es: seq<Event>, kind: Kind): (r: set<nat>)
    ensures |r| <= CountKind(es, kind)
  {
    if es == [] then {}
    else
      var e := es[|es| - 1];
      PagesOf(es[..|es| - 1], kind) + (if e.kind == kind then {e.page} else {})
  }

  lemma {:induction false} PagesOfHas(es: seq<Event>, kind: Kind, k: nat)
    requires k < |es| && es[k].kind == kind
    ensures es[k].page in PagesOf(es, kind)
  {
    if k < |es| - 1 { PagesOfHas(es[..|es| - 1], kind, k); }
  }

  lemma {:induction false} KindsCoverEvents(es: seq<Event>)
    ensures |es| == CountKind(es, Create) + CountKind(es, Patch) + CountKind(es, Freeze) + CountKind(es, Finish)
  {
    if es != [] { KindsCoverEvents(es[..|es| - 1]); }
  }

  lemma KindCount(es: seq<Event>, kind: Kind, n: nat)
    requires forall p: nat :: p < n ==> Happened(es, |es|, kind, p)
    ensures CountKind(es, kind) >= n
  {
    forall p: nat | p < n ensures p in PagesOf(es, kind) {
      assert Happened(es, |es|, kind, p);
      var k :| 0 <= k < |es| && es[k].kind == kind && es[k].page == p;
      PagesOfHas(es, kind, k);
    }
    SubsetSize(Upto(n), PagesOf(es, kind));
  }

  lemma ThreeEventsPerPage(s: State, es: seq<Event>)
    requires Reflects(s, es) && Accepts(s)
    ensures |es| >= 3 * s.pages
  {
    KindCount(es, Create, s.pages);
    KindCount(es, Patch, s.pages);
    KindCount(es, Freeze, s.pages - 1);
    assert Happened(es, |es|, Finish, s.pages - 1);
    var k :| 0 <= k < |es| && es[k].kind == Finish && es[k].page == s.pages - 1;
    PagesOfHas(es, Finish, k);
    SubsetSize({s.pages - 1}, PagesOf(es, Finish));
    KindsCoverEvents(es);
  }

  // ---- The loop of the source ----

  /** One pass of the loop body: the checks on an entry against what was seen so far. */
  method CheckEvent(e: Event, created: set<nat>, patched: set<nat>, frozen: set<nat>, hashes: map<nat, string>,
                    previousAt: real, finished: Option<nat>)
    returns (ok: bool, created': set<nat>, patched': set<nat>, frozen': set<nat>, hashes': map<nat, string>, finished': Option<nat>)
    requires created == Upto(|created|)
    ensures Step(State(|created|, patched, frozen, hashes, previousAt, finished), e) ==
            if ok then Some(State(|created'|, patched', frozen', hashes', e.at, finished')) else None
    ensures created' == Upto(|created'|)
  {
    created', patched', frozen', hashes', finished' := created, patched, frozen, hashes, finished;
    ok := false;
    if e.at < previousAt || finished.Some? { return; }
    if e.page in hashes && hashes[e.page] != e.hash { return; }
    if e.kind == Create {
      if e.page != |created| || e.page in created { return; }
      created' := created + {e.page};
      hashes' := hashes[e.page := e.hash];
      assert created' == Upto(|created| + 1);
    } else if e.page !in created {
      return;
    } else if e.kind == Patch {
      if e.page in frozen { return; }
      patched' := patched + {e.page};
    } else if e.kind == Freeze {
      if e.page in frozen || e.page + 1 !in created { return; }
      frozen' := frozen + {e.page};
    } else {
      if e.page in frozen || e.page != |created| - 1 { return; }
      finished' := Some(e.page);
    }
    ok := true;
  }

  /** The entries are well-formed and obey the rules. */
  ghost predicate Valid(raws: seq<RawEvent>) {
    exists es :: Decodes(raws, es) && ValidLedger(es)
  }

  /** The loop: what it remembers after the last entry, unless it stopped at a bad one. */
  method ScanEvents(raws: seq<RawEvent>) returns (ok: bool, end: State, ghost es: seq<Event>)
    ensures !ok ==> !Valid(raws)
    ensures ok ==> Decodes(raws, es) && Fold(es) == Some(end)
  {
    hide Read, Step, Decodes, Valid, Fold;
    es := [];
    end := START;
    var created: set<nat>, patched: set<nat>, frozen: set<nat> := {}, {}, {};
    var hashes: map<nat, string> := map[];
    var previousAt := 0.0;
    var finished: Option<nat> := None;
    var i := 0;
    NothingDecoded(raws);
    assert |created| == 0;
    while i < |raws|
      invariant i <= |raws| && Decodes(raws[..i], es)
      invariant Fold(es) == Some(State(|created|, patched, frozen, hashes, previousAt, finished))
      invariant created == Upto(|created|)
    {
      var event := Read(raws[i], i + 1);
      if event.None? { NoDecoding(raws, i); return false, end, es; }
      DecodesExtends(raws, i, es, event.value);
      FoldSnoc(es, event.value);
      es := es + [event.value];
      ok, created, patched, frozen, hashes, finished := CheckEvent(event.value, created, patched, frozen, hashes, previousAt, finished);
      if !ok { RejectedPrefix(raws, i + 1, es); return; }
      previousAt, i := event.value.at, i + 1;
    }
    assert raws[..|raws|] == raws;
    return true, State(|created|, patched, frozen, hashes, previousAt, finished), es;
  }

  lemma FoldSnoc(es: seq<Event>, e: Event)
    requires Fold(es).Some?
    ensures Fold(es + [e]) == Step(Fold(es).value, e)
  {
    hide Step;
    assert (es + [e])[..|es|] == es;
  }

  /** A ledger is accepted exactly when its entries are well-formed and obey the rules; the
      counts returned are those of its events and pages, at least three events per page. */
  method ValidateEvents(raws: seq<RawEvent>) returns (r: Option<(nat, nat)>)
    ensures r.Some? <==> Valid(raws)
    ensures r.Some? ==>
              && r.value.0 == |raws| && 3 * r.value.1 <= |raws|
              && forall es, p: nat :: Decodes(raws, es) ==> (Happened(es, |es|, Create, p) <==> p < r.value.1)
  {
    hide Decodes, Valid, Happened, Fold, Reflects;
    var ok, end, es := ScanEvents(raws);
    if !ok { return None; }
    Verdict(raws, es);
    if end.pages < 2 || end.patched != Upto(end.pages) || end.frozen != Upto(end.pages - 1) || end.finished != Some(end.pages - 1) {
      return None;
    }
    ThreeEventsPerPage(end, es);
    DecodedLength(raws, es);
    PagesMean(end, es);
    return Some((|raws|, end.pages));
  }

  lemma PagesMean(s: State, es: seq<Event>)
    requires Reflects(s, es)
    ensures forall p: nat :: Happened(es, |es|, Create, p) <==> p < s.pages
  {
    hide Happened;
  }

  lemma NothingDecoded(raws: seq<RawEvent>)
    ensures Decodes(raws[..0], []) && Fold([]) == Some(START) && Upto(0) == {}
  {
  }

  lemma DecodesExtends(raws: seq<RawEvent>, i: nat, es: seq<Event>, e: Event)
    requires i < |raws| && Decodes(raws[..i], es) && Read(raws[i], i + 1) == Some(e)
    ensures Decodes(raws[..i + 1], es + [e])
  {
    hide Read;
    forall k | 0 <= k < i + 1 ensures Read(raws[..i + 1][k], k + 1) == Some((es + [e])[k]) {
      if k < i { assert raws[..i][k] == raws[k]; }
    }
  }

  lemma DecodedLength(raws: seq<RawEvent>, es: seq<Event>)
    requires Decodes(raws, es)
    ensures |es| == |raws|
  {
  }

  lemma NoDecoding(raws: seq<RawEvent>, i: nat)
    requires i < |raws| && Read(raws[i], i + 1).None?
    ensures !Valid(raws)
  {
  }

  lemma DecodedTimes(raws: seq<RawEvent>, es: seq<Event>)
    requires Decodes(raws, es)
    ensures forall i :: 0 <= i < |es| ==> es[i].at > 0.0
  {
    forall i | 0 <= i < |es| ensures es[i].at > 0.0 { assert Read(raws[i], i + 1) == Some(es[i]); }
  }

  lemma DecodingIsUnique(raws: seq<RawEvent>, n: nat, es: seq<Event>, fs: seq<Event>)
    requires n <= |raws| && Decodes(raws[..n], es) && Decodes(raws, fs)
    ensures fs[..n] == es
  {
    forall i | 0 <= i < n ensures fs[i] == es[i] {
      assert raws[..n][i] == raws[i];
      assert Read(raws[i], i + 1) == Some(fs[i]) && Read(raws[..n][i], i + 1) == Some(es[i]);
    }
  }

  lemma {:induction false} PrefixRules(es: seq<Event>, n: nat)
    requires n <= |es| && forall i :: 0 <= i < |es| ==> EventOk(es, i)
    ensures forall i :: 0 <= i < n ==> EventOk(es[..n], i)
    decreases |es| - n
  {
    if n < |es| {
      PrefixRules(es, n + 1);
      forall i: nat | i < n ensures EventOk(es[..n], i) {
        EventOkPrefix(es[..n + 1], i);
        assert es[..n + 1][..n] == es[..n];
      }
    } else {
      assert es[..n] == es;
    }
  }

  lemma RejectedPrefix(raws: seq<RawEvent>, n: nat, es: seq<Event>)
    requires n <= |raws| && Decodes(raws[..n], es) && Fold(es).None?
    ensures !Valid(raws)
  {
    forall fs | Decodes(raws, fs) && ValidLedger(fs) ensures false {
      DecodingIsUnique(raws, n, es, fs);
      PrefixRules(fs, n);
      DecodedTimes(raws[..n], es);
      FoldMeetsRules(es);
    }
  }

  lemma OnlyDecoding(raws: seq<RawEvent>, es: seq<Event>)
    requires Decodes(raws, es)
    ensures forall fs :: Decodes(raws, fs) ==> fs == es
  {
    hide Decodes;
    assert raws[..|raws|] == raws;
    DecodedLength(raws, es);
    forall fs | Decodes(raws, fs) ensures fs == es {
      DecodedLength(raws, fs);
      DecodingIsUnique(raws, |raws|, es, fs);
      assert fs[..|raws|] == fs;
    }
  }

  lemma Verdict(raws: seq<RawEvent>, es: seq<Event>)
    requires Decodes(raws, es) && Fold(es).Some?
    ensures Reflects(Fold(es).value, es)
    ensures Accepts(Fold(es).value) <==> Valid(raws)
    ensures forall fs :: Decodes(raws, fs) ==> fs == es
  {
    hide Decodes, Fold, Reflects, Accepts, Complete, EventOk;
    DecodedTimes(raws, es);
    FoldMeetsRules(es);
    OnlyDecoding(raws, es);
    if Accepts(Fold(es).value) {
      AcceptsImpliesComplete(Fold(es).value, es);
      assert ValidLedger(es);
    }
    if Complete(es) { CompleteImpliesAccepts(Fold(es).value, es); }
  }
}
