/** What merging two snapshots of one invocation does to the children it reports
    (`merge_tool_call_snapshot` of src/acp/collaboration.py). */
module SlotStates {
  import opened Wrappers
  import opened Strings
  import opened ChildModel
  import opened StateMerge
  import opened Collaboration
  import O = Outcome

  /** The action of a snapshot is what it declares; where it declares nothing, its known
      activity stands in. */
  lemma ChildActionExactly(t: ToolCall, a: string)
    requires a != ""
    ensures ChildAction(t) == a <==>
            || O.Declares(t, a)
            || ((forall d :: !O.Declares(t, d)) && KnownActivity(NormField(t.activity)) && a == "activity:" + NormField(t.activity))
  {
    hide Norm;
    var tool, title := NormField(t.tool), Norm(t.title);
    assert KnownAction(title) ==> title != "";
    if tool != "" {
      assert O.Declares(t, tool);
    } else if KnownAction(title) {
      assert O.Declares(t, title);
    } else {
      assert forall d :: !O.Declares(t, d);
    }
  }

  lemma GenerationIs(t: ToolCall)
    ensures GenerationOf(t) != "" <==> O.StartsGeneration(t)
    ensures O.Declares(t, "spawn_agent") ==> GenerationOf(t) == "spawn_agent"
    ensures O.Declares(t, "followup_task") ==> GenerationOf(t) == "followup_task"
  {
    hide Norm;
    ActivityIsNoGeneration(NormField(t.activity));
  }

  lemma ActivityIsNoGeneration(a: string)
    ensures !GenerationAction("activity:" + a)
  {
    assert ("activity:" + a)[0] == 'a';
  }

  /** The outer call is over exactly if its status reads as completed or failed. */
  lemma OuterTerminalExactly(t: ToolCall)
    ensures O.OuterTerminal(t) <==> StrictChildStatus(Text(t.status)) == Some(Completed) || StrictChildStatus(Text(t.status)) == Some(Failed)
  {
    hide Norm;
  }

  /** A snapshot reopens a generation exactly by declaring a spawn or follow-up, by a busy
      activity, or by a tool nobody knows that has anything about children. */
  lemma ReopensExactly(t: ToolCall)
    ensures ReopensGeneration(t) <==> O.StartsGeneration(t) || O.BusyActivity(t) || StrangeTool(t)
  {
    hide Norm, O.StartsGeneration, GenerationOf;
    GenerationIs(t);
    BusyIs(t);
  }

  /** A snapshot is about children exactly if it declares an action, reports any state,
      receiver, source or activity, or is malformed. */
  lemma ChildRelatedExactly(t: ToolCall)
    ensures ChildRelated(t) <==>
            || (exists a :: O.Declares(t, a)) || StateItems(t.states) != [] || ReceiverItems(t.receivers) != []
            || !Blank(t.source) || !Blank(t.activity) || MalformedMetadata(t)
  {
    hide Norm, BadActivity;
    var tool, title := NormField(t.tool), Norm(t.title);
    assert KnownAction(title) ==> title != "";
    if tool != "" { assert O.Declares(t, tool); } else if KnownAction(title) { assert O.Declares(t, title); }
    BlankIsNoActivity(t.activity);
  }

  lemma BlankIsNoActivity(f: Field)
    ensures KnownActivity(NormField(f)) ==> !Blank(f)
  {
    assert Norm("") == "";
  }

  /** The newer snapshot begins another spawn or follow-up than the older one declares. */
  ghost predicate BeginsGeneration(a: ToolCall, b: ToolCall) {
    || (O.Declares(b, "spawn_agent") && !O.Declares(a, "spawn_agent"))
    || (O.Declares(b, "followup_task") && !O.Declares(a, "followup_task"))
  }

  /** The newer snapshot names child s anywhere. */
  ghost predicate Names(b: ToolCall, s: string) {
    || O.Receives(b, s)
    || StrictSourceId(b.source) == Some(s)
    || (exists x :: x in StateItems(b.states) && x.Entry? && StrictSourceId(x.source) == Some(s))
  }

  /** A tool nobody knows, with anything about children. */
  predicate StrangeTool(b: ToolCall) {
    && NormField(b.tool) != "" && !KnownAction(NormField(b.tool))
    && (ReceiverItems(b.receivers) != [] || StateItems(b.states) != [] || Truthy(b.source) || Truthy(b.activity))
  }

  /** What the older snapshot said of child s does not count any more. */
  ghost predicate Outdates(a: ToolCall, b: ToolCall, s: string) {
    Names(b, s) && (BeginsGeneration(a, b) || O.BusyActivity(b) || StrangeTool(b))
  }

  lemma NamedExactly(b: ToolCall, s: string)
    ensures s in NamedSources(b) <==> Names(b, s)
  {
    hide StrictSourceId, StateItems, ReceiverItems;
  }

  lemma ResetsExactly(a: ToolCall, b: ToolCall, s: string)
    ensures s in SnapshotResets(a, b) <==> Outdates(a, b, s)
  {
    hide NamedSources, O.Declares, Norm, Names;
    NamedExactly(b, s);
    GenerationIs(a);
    GenerationIs(b);
    BusyIs(b);
  }

  lemma BusyIs(b: ToolCall)
    ensures ActivityIsTransient(b) <==> O.BusyActivity(b)
  {
    hide Norm;
  }

  /** The entries about child s that count after the merge. */
  ghost function Counting(a: ToolCall, b: ToolCall, s: string): seq<Item> {
    (if Outdates(a, b, s) then [] else ItemsOf(DecodeAll(StateItems(a.states)), s)) + ItemsOf(DecodeAll(StateItems(b.states)), s)
  }

  /** The merged snapshot has an entry for child s exactly if one counts, and it is the last
      terminal one of those that count, or else the last. */
  lemma MergedStatesMeaning(a: ToolCall, b: ToolCall, s: string)
    ensures var items := DecodeAll(StateItems(MergeSnapshot(a, b).states));
            && ((exists x :: x in items && x.valid && x.source == s) <==> Counting(a, b, s) != [])
            && (forall x :: x in items && x.valid && x.source == s ==> LastTerminalElseLast(Counting(a, b, s), x))
  {
    hide SnapshotResets, MergeFold, Outdates, ItemsOf, LastTerminalElseLast, Decode;
    var older, newer, resets := DecodeAll(StateItems(a.states)), DecodeAll(StateItems(b.states)), SnapshotResets(a, b);
    MergeMeaning(older, newer, resets);
    ResetsExactly(a, b, s);
    MergedItemsAreDecoded(StateItems(a.states), StateItems(b.states), resets);
    var f := MergeFold(older, newer, resets);
    assert DecodeAll(StateItems(MergeSnapshot(a, b).states)) == Flatten(f);
    assert History(older, newer, resets, s) == Counting(a, b, s);
    FoldedEntries(f, s, Counting(a, b, s));
  }

  lemma FoldedEntries(f: Folded, s: string, h: seq<Item>)
    requires WellFolded(f) && Tracks(f.known, s, h)
    ensures (exists x :: x in Flatten(f) && x.valid && x.source == s) <==> h != []
    ensures forall x :: x in Flatten(f) && x.valid && x.source == s ==> LastTerminalElseLast(h, x)
  {
    hide LastTerminalElseLast;
    if h != [] {
      var i :| 0 <= i < |f.known| && f.known[i].source == s;
      assert f.known[i] in Flatten(f);
    }
    forall x | x in Flatten(f) && x.valid && x.source == s ensures LastTerminalElseLast(h, x) {
      assert x in f.known;
    }
  }
}
