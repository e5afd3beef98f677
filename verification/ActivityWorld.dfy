/** All submissions of the activity reducer (src/activity/lifecycle.ts:47-144, 225-252, 317-339). */
module ActivityWorld {
  import opened Common
  import opened Bounded
  import opened Activity

  datatype Key = Key(instance: string, submission: string)

  /** Live submissions in the order of their last use, and the keys of settled ones. */
  datatype World = World(order: seq<Key>, subs: map<Key, Sub>, settled: seq<Key>)

  const MAX_SUBMISSIONS := 256

  const EMPTY := World([], map[], [])

  /** The `type` of an observation, with one value for all types the reducer does not know. */
  datatype Kind = SubmissionSettled | SubmissionQueued | SubmissionRunning | ToolStarted | ToolSettled | OtherKind

  datatype Observation = Observation(
    kind: Kind,
    instance: Option<string>,
    submission: Option<string>,
    toolCall: Option<string>,
    descriptor: Option<Descriptor>,
    isError: Option<bool>,
    attemptCount: Option<int>)

  /** The three entry points. */
  datatype Signal =
    | Observe(observation: Observation)
    | Register(key: Key, id: string, descriptor: Descriptor)
    | ClearInstance(instance: string)

  /** What a signal asks for before any state is looked at. */
  datatype Plan = Nothing | Finish(key: Key) | Tell(key: Key, event: Event) | Clear(instance: string)

  predicate Absent(text: Option<string>) {
    text.None? || text.value == ""
  }

  function PlanOfObservation(o: Observation): Plan {
    if Absent(o.instance) || Absent(o.submission) then Nothing
    else
      var key := Key(o.instance.value, o.submission.value);
      if o.kind == SubmissionSettled then Finish(key)
      else if o.kind == SubmissionQueued then Tell(key, Queued)
      else if o.kind == SubmissionRunning then Tell(key, Running(o.attemptCount))
      else if o.kind != ToolStarted && o.kind != ToolSettled then Nothing
      else if Absent(o.toolCall) || o.descriptor.None? then Nothing
      else if o.kind == ToolStarted then Tell(key, ToolStart(o.toolCall.value, o.descriptor.value))
      else Tell(key, ToolEnd(o.toolCall.value, o.isError))
  }

  function PlanOf(s: Signal): Plan {
    match s
    case Observe(o) => PlanOfObservation(o)
    case Register(key, id, d) => Tell(key, Told(id, d))
    case ClearInstance(instance) => Clear(instance)
  }

  /** The eviction loop of `state`. */
  function Evict(w: World): World
    decreases |w.order|
  {
    if |w.order| <= MAX_SUBMISSIONS then w
    else
      var oldest := w.order[0];
      Evict(World(w.order[1..], w.subs - {oldest}, Added(w.settled, oldest, MAX_SUBMISSIONS)))
  }

  /** `state`: the submission of `k`, created if need be, becomes the newest. */
  function Touch(w: World, k: Key): World {
    if k in w.subs then w.(order := Without(w.order, k) + [k])
    else Evict(w.(order := w.order + [k], subs := w.subs[k := FRESH]))
  }

  function Keep(s: seq<Key>, instance: string): seq<Key> {
    if s == [] then []
    else if s[0].instance == instance then Keep(s[1..], instance)
    else [s[0]] + Keep(s[1..], instance)
  }

  /** The submissions of other instances. */
  function Elsewhere(subs: map<Key, Sub>, instance: string): map<Key, Sub> {
    map k | k in subs && k.instance != instance :: subs[k]
  }

  /** The state of `k` after `Touch(w, k)`. */
  function Current(w: World, k: Key): Sub {
    if k in w.subs then w.subs[k] else FRESH
  }

  datatype Reply = Reply(world: World, status: Option<Status>)

  function Step(copy: Copy, w: World, s: Signal): Reply {
    match PlanOf(s)
    case Nothing => Reply(w, None)
    case Finish(k) =>
      Reply(World(Without(w.order, k), w.subs - {k}, Added(w.settled, k, MAX_SUBMISSIONS)), None)
    case Tell(k, e) =>
      if k in w.settled then Reply(w, None)
      else
        var out := Apply(copy, Current(w, k), e);
        var touched := Touch(w, k);
        Reply(touched.(subs := touched.subs[k := out.sub]), out.status)
    case Clear(instance) =>
      Reply(World(Keep(w.order, instance), Elsewhere(w.subs, instance), Keep(w.settled, instance)), None)
  }

  /** The world after `ss`. */
  function After(copy: Copy, ss: seq<Signal>): World
    decreases |ss|
  {
    if ss == [] then EMPTY else Step(copy, After(copy, ss[..|ss| - 1]), ss[|ss| - 1]).world
  }
}
