/**
 * One submission of the activity lifecycle reducer (src/activity/lifecycle.ts:30-42, 90-223, 255-315)
 * as a function from events to states. ActivityReducer.dfy holds the class that refines it.
 */
module Activity {
  import opened Common
  import opened Bounded
  import N = Narration

  type Descriptor = N.Descriptor

  type Status = N.Status

  const UNKNOWN := N.Descriptor(N.Run, N.UnknownFamily, None, "the request", false, N.Work)

  predicate Known(d: Descriptor) {
    d.target != N.UnknownFamily
  }

  function LabelId(d: Descriptor): Option<string> {
    if d.name.None? then None else Some(d.name.value.id)
  }

  /** The narration of a descriptor when it starts and when its batch succeeded, and two fixed statuses. */
  datatype Copy = Copy(
    started: Descriptor -> Status,
    succeeded: Descriptor -> Status,
    reassessing: Status,
    thinking: Status)

  /** What the program says: every copy is a narration. Work always has one. */
  function Spoken(checks: N.Checks): Copy {
    Copy((d: Descriptor) => N.Narrate(checks, Some(d), N.Started).UnwrapOr(N.THINKING),
         (d: Descriptor) => N.Narrate(checks, Some(d), N.Settled(true)).UnwrapOr(N.THINKING),
         N.Narrate(checks, Some(UNKNOWN), N.Settled(false)).UnwrapOr(N.THINKING),
         N.THINKING)
  }

  datatype Call = Call(id: string, descriptor: Descriptor, sequence: nat)

  datatype Fact = Fact(id: string, descriptor: Descriptor)

  datatype Sub = Sub(
    attempt: Option<int>,
    next: nat,
    active: seq<Call>,
    nonWork: seq<string>,
    seen: set<string>,
    facts: seq<Fact>,
    completed: seq<Descriptor>,
    unsuccessful: bool,
    suppressed: bool,
    last: Option<string>)

  const FRESH := Sub(None, 0, [], [], {}, [], [], false, false, None)

  const MAX_CALLS := 256

  datatype Out = Out(sub: Sub, status: Option<Status>)

  // ---- the insertion-ordered maps ----

  function CallOf(active: seq<Call>, id: string): (r: Option<Call>)
    ensures r.Some? ==> r.value in active && r.value.id == id
    ensures r.None? <==> forall c :: c in active ==> c.id != id
  {
    if active == [] then None
    else if active[0].id == id then Some(active[0])
    else CallOf(active[1..], id)
  }

  predicate Runs(active: seq<Call>, id: string) {
    CallOf(active, id).Some?
  }

  function WithoutCall(active: seq<Call>, id: string): seq<Call> {
    if active == [] then []
    else if active[0].id == id then WithoutCall(active[1..], id)
    else [active[0]] + WithoutCall(active[1..], id)
  }

  function Redescribed(active: seq<Call>, id: string, d: Descriptor): seq<Call> {
    if active == [] then []
    else [if active[0].id == id then active[0].(descriptor := d) else active[0]] + Redescribed(active[1..], id, d)
  }

  function FactOf(facts: seq<Fact>, id: string): Option<Descriptor> {
    if facts == [] then None
    else if facts[0].id == id then Some(facts[0].descriptor)
    else FactOf(facts[1..], id)
  }

  function WithoutFact(facts: seq<Fact>, id: string): seq<Fact> {
    if facts == [] then []
    else if facts[0].id == id then WithoutFact(facts[1..], id)
    else [facts[0]] + WithoutFact(facts[1..], id)
  }

  /** The newest running call with a known target. */
  function LatestKnown(active: seq<Call>): (r: Option<Call>)
    ensures r.Some? ==> r.value in active && Known(r.value.descriptor)
    ensures r.None? <==> forall c :: c in active ==> !Known(c.descriptor)
  {
    if active == [] then None
    else
      var c := active[|active| - 1];
      if Known(c.descriptor) then Some(c)
      else
        assert active == active[..|active| - 1] + [c];
        LatestKnown(active[..|active| - 1])
  }

  /** `latestActiveCall`. */
  function Latest(active: seq<Call>): (r: Option<Call>)
    ensures r.Some? ==> r.value in active
    ensures r.None? <==> active == []
  {
    if active == [] then None
    else if LatestKnown(active).Some? then LatestKnown(active)
    else Some(active[|active| - 1])
  }

  // ---- one event ----

  function Emit(sub: Sub, status: Status): Out {
    if sub.last == Some(status.text) then Out(sub, None)
    else Out(sub.(last := Some(status.text)), Some(status))
  }

  function Suppress(sub: Sub): Sub {
    sub.(active := [], nonWork := [], facts := [], completed := [], unsuccessful := true, suppressed := true)
  }

  function Reset(sub: Sub): Sub {
    FRESH.(attempt := sub.attempt)
  }

  /** `recordNewCall` for a call id that was not seen. */
  predicate Full(sub: Sub) {
    |sub.seen| >= MAX_CALLS
  }

  function Start(copy: Copy, sub: Sub, id: string, baseline: Descriptor): Out {
    if Runs(sub.active, id) || id in sub.nonWork || id in sub.seen then Out(sub, None)
    else if Full(sub) then Out(Suppress(sub), None)
    else
      var d := FactOf(sub.facts, id).UnwrapOr(baseline);
      var recorded := sub.(seen := sub.seen + {id}, facts := WithoutFact(sub.facts, id));
      if d.role != N.Work then StartHidden(copy, recorded, id, d) else StartWork(copy, recorded, id, d)
  }

  function StartHidden(copy: Copy, sub: Sub, id: string, d: Descriptor): Out {
    var hidden := sub.(nonWork := Added(sub.nonWork, id, MAX_CALLS));
    if d.role != N.AnswerGeneration || sub.active != [] then Out(hidden, None) else Emit(hidden, copy.started(d))
  }

  function StartWork(copy: Copy, sub: Sub, id: string, d: Descriptor): Out {
    var running := sub.(active := sub.active + [Call(id, d, sub.next)], next := sub.next + 1);
    if Latest(running.active).value.id != id then Out(running, None) else Emit(running, copy.started(d))
  }

  /** `successfulBatchReview` of at least one descriptor. */
  function Review(copy: Copy, ds: seq<Descriptor>): Status
    requires ds != []
  {
    copy.succeeded(if forall i :: 0 <= i < |ds| ==> SameObject(ds[i], ds[0]) then ds[0] else UNKNOWN)
  }

  predicate SameObject(d: Descriptor, first: Descriptor) {
    d.target == first.target && d.item == first.item && LabelId(d) == LabelId(first)
  }

  function Settle(copy: Copy, sub: Sub, id: string, isError: Option<bool>): Out {
    if id in sub.nonWork then Out(sub.(nonWork := Without(sub.nonWork, id)), None)
    else
      match CallOf(sub.active, id)
      case None =>
        if id in sub.seen then Out(sub, None)
        else if Full(sub) then Out(Suppress(sub), None)
        else Out(sub.(seen := sub.seen + {id}), None)
      case Some(call) =>
        var left := WithoutCall(sub.active, id);
        var completed := sub.completed + [call.descriptor];
        var unsuccessful := sub.unsuccessful || isError != Some(false);
        match Latest(left)
        case Some(remaining) =>
          Emit(sub.(active := left, completed := completed, unsuccessful := unsuccessful),
               copy.started(remaining.descriptor))
        case None =>
          Emit(sub.(active := left, completed := [], unsuccessful := false),
               if unsuccessful then copy.reassessing else Review(copy, completed))
  }

  /** `registerInvocationFact` on a live submission. */
  function Register(copy: Copy, sub: Sub, id: string, d: Descriptor): Out {
    if sub.suppressed || (id in sub.seen && !Runs(sub.active, id)) then Out(sub, None)
    else
      var noted := sub.(facts := Newest(WithoutFact(sub.facts, id) + [Fact(id, d)], MAX_CALLS));
      if !Runs(sub.active, id) || d.role != N.Work then Out(noted, None)
      else
        var renamed := noted.(active := Redescribed(sub.active, id, d));
        if renamed.active == [] || Latest(renamed.active).value.id != id then Out(renamed, None)
        else Emit(renamed, copy.started(d))
  }

  /** `observeAttempt`; the count is absent when it is not an integer. */
  function Attempt(copy: Copy, sub: Sub, count: Option<int>): Out {
    if count.None? || count.value < 1 then Out(sub, None)
    else if sub.attempt.None? then Out(sub.(attempt := count), None)
    else if count.value <= sub.attempt.value then Out(sub, None)
    else Emit(Reset(sub.(attempt := count)), copy.thinking)
  }

  /** What the reducer is told about one submission. */
  datatype Event =
    | Queued
    | Running(count: Option<int>)
    | ToolStart(id: string, descriptor: Descriptor)
    | ToolEnd(id: string, isError: Option<bool>)
    | Told(id: string, descriptor: Descriptor)

  function Apply(copy: Copy, sub: Sub, e: Event): Out {
    match e
    case Queued => Out(sub, None)
    case Running(count) => Attempt(copy, sub, count)
    case ToolStart(id, d) => if sub.suppressed then Out(sub, None) else Start(copy, sub, id, d)
    case ToolEnd(id, isError) => if sub.suppressed then Out(sub, None) else Settle(copy, sub, id, isError)
    case Told(id, d) => Register(copy, sub, id, d)
  }

  /** The state after `es`. */
  function Run(copy: Copy, es: seq<Event>): Sub
    decreases |es|
  {
    if es == [] then FRESH else Apply(copy, Run(copy, es[..|es| - 1]), es[|es| - 1]).sub
  }
}
