/**
 * The worker pool that drains the gateway inbox (src/cloudflare.ts:3606-3710): claimed deliveries are
 * grouped by conversation, and workers shift whole groups from one queue. Each step below runs from
 * one `await` to the next; any order of steps is an interleaving.
 */
module InboxPool {
  import opened Common
  import A = InboxAdmit

  datatype Item = Item(id: nat, conversation: string)

  datatype Group = Group(conversation: string, items: seq<Item>)

  // ---- grouping ----

  /** The items of one conversation, in claimed order. */
  function Of(items: seq<Item>, c: string): seq<Item> {
    if items == [] then []
    else if items[0].conversation == c then [items[0]] + Of(items[1..], c)
    else Of(items[1..], c)
  }

  /** `groups.set(key, [...(groups.get(key) ?? []), item])` on an insertion-ordered map. */
  function Insert(groups: seq<Group>, item: Item): seq<Group> {
    if groups == [] then [Group(item.conversation, [item])]
    else if groups[0].conversation == item.conversation then
      [groups[0].(items := groups[0].items + [item])] + groups[1..]
    else [groups[0]] + Insert(groups[1..], item)
  }

  function Grouped(items: seq<Item>): seq<Group>
    decreases |items|
  {
    if items == [] then [] else Insert(Grouped(items[..|items| - 1]), items[|items| - 1])
  }

  // ---- the pool ----

  datatype Entry = Begun(item: Item) | Settled(item: Item, end: A.Admission)

  /** A worker shifts a group, or is at position `at` of one, before or inside an admission. */
  datatype Worker = Shifting | On(group: Group, at: nat, admitting: bool) | Finished

  datatype Pool = Pool(queue: seq<Group>, workers: seq<Worker>, needsRetry: bool, log: seq<Entry>)

  /** Which worker moves; one inside an admission moves when the processing ends, on the row as it then is. */
  datatype Choice = Go(worker: nat) | End(worker: nat, row: A.Row, processing: A.Processing)

  const LIMIT := 4

  function Workers(runner: bool, queue: nat): nat {
    var limit := if runner then LIMIT else 1;
    if limit < queue then limit else queue
  }

  function Start(items: seq<Item>, runner: bool): Pool {
    var groups := Grouped(items);
    Pool(groups, seq(Workers(runner, |groups|), _ => Shifting), false, [])
  }

  predicate Enabled(p: Pool, choice: Choice) {
    choice.worker < |p.workers| &&
    match p.workers[choice.worker]
    case Shifting => choice.Go?
    case On(group, at, admitting) => if admitting then choice.End? && at < |group.items| else choice.Go?
    case Finished => false
  }

  function Next(p: Pool, choice: Choice): Pool
    requires Enabled(p, choice)
  {
    var w := choice.worker;
    match p.workers[w]
    case Shifting =>
      if p.queue == [] then p.(workers := p.workers[w := Finished])
      else p.(queue := p.queue[1..], workers := p.workers[w := On(p.queue[0], 0, false)])
    case On(group, at, admitting) =>
      if admitting then
        var end := A.Admitted(choice.row, choice.processing);
        p.(workers := p.workers[w := On(group, at + 1, false)],
           needsRetry := p.needsRetry || end.needsRetry,
           log := p.log + [Settled(group.items[at], end)])
      else if at < |group.items| then
        p.(workers := p.workers[w := On(group, at, true)], log := p.log + [Begun(group.items[at])])
      else p.(workers := p.workers[w := Shifting])
  }

  /** The pool after a schedule of enabled steps. */
  ghost predicate Runs(p: Pool, schedule: seq<Choice>, q: Pool)
    decreases |schedule|
  {
    if schedule == [] then q == p
    else Enabled(p, schedule[0]) && Runs(Next(p, schedule[0]), schedule[1..], q)
  }

  predicate AllFinished(p: Pool) {
    forall w :: 0 <= w < |p.workers| ==> p.workers[w].Finished?
  }
}
