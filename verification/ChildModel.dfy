/** Values of src/acp/models.py as the evidence pipeline sees them.  Provider
    metadata is untyped, so a field may be missing, text, or something else, and a
    collection may arrive as a list or as a value of the wrong shape. */
module ChildModel {
  import opened Wrappers
  import opened Strings

  /** A provider value: `None`, a non-text value (with its Python truthiness), or text. */
  datatype Field = Absent | Other(truthy: bool) | Text(text: string)

  predicate Truthy(f: Field) {
    match f
    case Absent => false
    case Other(b) => b
    case Text(s) => s != ""
  }

  /** `value in (None, "")` */
  predicate Blank(f: Field) {
    f == Absent || f == Text("")
  }

  /** Python's `a or b`. */
  function Either(a: Field, b: Field): Field {
    if Truthy(a) then a else b
  }

  function NormField(f: Field): string {
    if f.Text? then Norm(f.text) else ""
  }

  /** One element of `subagent_states`. */
  datatype StateItem = NotMapping(tag: int) | Entry(source: Field, status: Field, message: Field)

  datatype States = StateList(items: seq<StateItem>) | BareState(entry: StateItem) | OpaqueStates(truthy: bool)

  datatype Receivers = ReceiverList(items: seq<Field>) | BareReceiver(text: string) | OpaqueReceivers

  datatype ToolCall = ToolCall(
    id: string,
    title: string,
    status: string,
    source: Field,
    path: Field,
    activity: Field,
    tool: Field,
    receivers: Receivers,
    states: States,
    malformed: bool)

  datatype ChildStatus = Pending | Running | Completed | Failed | Cancelled

  predicate Transient(s: ChildStatus) { s == Pending || s == Running }

  predicate Terminal(s: ChildStatus) { !Transient(s) }

  function StrictSourceId(f: Field): (r: Option<string>)
    ensures r.Some? ==> r.value != "" && Strip(r.value) == r.value
  {
    if f.Text? && Strip(f.text) != "" then StripIdempotent(f.text); Some(Strip(f.text)) else None
  }

  function StrictChildStatus(f: Field): Option<ChildStatus> {
    var s := NormField(f);
    if s == "pending" then Some(Pending)
    else if s == "running" then Some(Running)
    else if s == "completed" then Some(Completed)
    else if s == "failed" then Some(Failed)
    else if s == "cancelled" then Some(Cancelled)
    else None
  }

  function StateItems(s: States): seq<StateItem> {
    if s.StateList? then s.items else [Entry(Text(""), Text("malformed"), Text(""))]
  }

  function ReceiverItems(r: Receivers): seq<Field> {
    if r.ReceiverList? then r.items else []
  }

  /** A state entry as the fold reads it: an attributable observation of one child, or
      evidence that cannot be attributed.  The raw entry is carried along unchanged. */
  datatype Item = Item(valid: bool, source: string, status: ChildStatus, raw: StateItem)

  function Decode(raw: StateItem): (item: Item)
    ensures item.raw == raw
  {
    if raw.Entry? && StrictSourceId(raw.source).Some? && StrictChildStatus(raw.status).Some?
    then Item(true, StrictSourceId(raw.source).value, StrictChildStatus(raw.status).value, raw)
    else Item(false, "", Pending, raw)
  }

  function DecodeAll(raws: seq<StateItem>): (items: seq<Item>)
    ensures |items| == |raws|
    ensures forall i :: 0 <= i < |raws| ==> items[i] == Decode(raws[i])
  {
    seq(|raws|, i requires 0 <= i < |raws| => Decode(raws[i]))
  }

  function RawAll(items: seq<Item>): (raws: seq<StateItem>)
    ensures |raws| == |items|
    ensures forall i :: 0 <= i < |items| ==> raws[i] == items[i].raw
  {
    seq(|items|, i requires 0 <= i < |items| => items[i].raw)
  }

  predicate GenerationAction(a: string) { a == "followup_task" || a == "spawn_agent" }

  predicate PassiveAction(a: string) {
    a == "interrupt_agent" || a == "list_agents" || a == "send_message" || a == "wait_agent"
  }

  predicate KnownAction(a: string) { GenerationAction(a) || PassiveAction(a) }

  predicate KnownActivity(a: string) { a == "interacted" || a == "interrupted" || a == "started" }
}
