/**
 * Every interleaving of the inbox pool: order, no overlap, exactly once, the bound on what is in flight, and
 * the end.
 */
module InboxPoolTheorems {
  import opened Common
  import A = InboxAdmit
  import opened InboxPool

  // ---- groups partition the claimed items ----

  ghost predicate Keyed(groups: seq<Group>) {
    && (forall i, j :: 0 <= i < j < |groups| ==> groups[i].conversation != groups[j].conversation)
    && (forall i :: 0 <= i < |groups| ==> groups[i].items != [])
  }

  predicate Has(groups: seq<Group>, c: string) {
    exists i :: 0 <= i < |groups| && groups[i].conversation == c
  }

  function ItemsOf(groups: seq<Group>, c: string): seq<Item> {
    if groups == [] then []
    else if groups[0].conversation == c then groups[0].items
    else ItemsOf(groups[1..], c)
  }

  lemma {:induction false} OfSnoc(items: seq<Item>, item: Item, c: string)
    ensures Of(items + [item], c) == if item.conversation == c then Of(items, c) + [item] else Of(items, c)
  {
    if items == [] {
      assert items + [item] == [item];
    } else {
      assert (items + [item])[1..] == items[1..] + [item];
      OfSnoc(items[1..], item, c);
    }
  }

  lemma {:induction false} InsertKeys(groups: seq<Group>, item: Item)
    ensures var next := Insert(groups, item);
            && next != []
            && (Keyed(groups) ==> Keyed(next))
            && (forall i :: 0 <= i < |next| ==>
                 next[i].conversation == item.conversation || Has(groups, next[i].conversation))
  {
    if groups != [] && groups[0].conversation != item.conversation {
      var rest, next := groups[1..], Insert(groups[1..], item);
      InsertKeys(rest, item);
      forall i | 0 <= i < |next|
        ensures next[i].conversation == item.conversation || Has(groups, next[i].conversation)
        ensures Keyed(groups) ==> next[i].conversation != groups[0].conversation
      {
        if next[i].conversation != item.conversation {
          var j :| 0 <= j < |rest| && rest[j].conversation == next[i].conversation;
          assert groups[j + 1] == rest[j];
        }
      }
      assert Has(groups, groups[0].conversation);
    }
  }

  lemma {:induction false} InsertItems(groups: seq<Group>, item: Item, c: string)
    ensures ItemsOf(Insert(groups, item), c)
            == if item.conversation == c then ItemsOf(groups, c) + [item] else ItemsOf(groups, c)
  {
    if groups != [] && groups[0].conversation != item.conversation {
      InsertItems(groups[1..], item, c);
    }
  }

  lemma {:induction false} GroupedItems(items: seq<Item>, c: string)
    ensures Keyed(Grouped(items)) && ItemsOf(Grouped(items), c) == Of(items, c)
    decreases |items|
  {
    if items != [] {
      var init, item := items[..|items| - 1], items[|items| - 1];
      GroupedItems(init, c);
      InsertKeys(Grouped(init), item);
      InsertItems(Grouped(init), item, c);
      OfSnoc(init, item, c);
      assert items == init + [item];
    }
  }

  lemma {:induction false} ItemsAt(groups: seq<Group>, i: nat)
    requires Keyed(groups) && i < |groups|
    ensures ItemsOf(groups, groups[i].conversation) == groups[i].items
  {
    if i > 0 {
      assert groups[1..][i - 1] == groups[i];
      ItemsAt(groups[1..], i - 1);
    }
  }

  lemma {:induction false} NoItems(groups: seq<Group>, c: string)
    requires !Has(groups, c)
    ensures ItemsOf(groups, c) == []
  {
    if groups != [] {
      assert groups[0].conversation != c;
      forall i | 0 <= i < |groups[1..]| ensures groups[1..][i].conversation != c {
        assert groups[i + 1] == groups[1..][i];
      }
      NoItems(groups[1..], c);
    }
  }

  /** The groups are exactly the conversations, each with its items in claimed order. */
  lemma GroupsPartition(items: seq<Item>)
    ensures var groups := Grouped(items);
            && Keyed(groups)
            && (forall i :: 0 <= i < |groups| ==> groups[i].items == Of(items, groups[i].conversation))
            && (forall c :: !Has(groups, c) ==> Of(items, c) == [])
  {
    var groups := Grouped(items);
    GroupedItems(items, "");
    forall i | 0 <= i < |groups| ensures groups[i].items == Of(items, groups[i].conversation) {
      GroupedItems(items, groups[i].conversation);
      ItemsAt(groups, i);
    }
    forall c | !Has(groups, c) ensures Of(items, c) == [] {
      GroupedItems(items, c);
      NoItems(groups, c);
    }
  }

  // ---- the log of one conversation ----

  datatype Mark = Begins(item: Item) | Ends(item: Item)

  function MarkOf(e: Entry): Mark {
    match e
    case Begun(item) => Begins(item)
    case Settled(item, _) => Ends(item)
  }

  /** What one conversation sees of the log. */
  function Seen(log: seq<Entry>, c: string): seq<Mark>
    decreases |log|
  {
    if log == [] then []
    else
      var init, e := log[..|log| - 1], log[|log| - 1];
      if e.item.conversation == c then Seen(init, c) + [MarkOf(e)] else Seen(init, c)
  }

  /** One item after the other: each begins and ends before the next begins. */
  function OneByOne(items: seq<Item>): (r: seq<Mark>)
    ensures |r| == 2 * |items|
    decreases |items|
  {
    if items == [] then []
    else
      var init, item := items[..|items| - 1], items[|items| - 1];
      OneByOne(init) + [Begins(item), Ends(item)]
  }

  lemma SeenSnoc(log: seq<Entry>, e: Entry, c: string)
    ensures Seen(log + [e], c) == if e.item.conversation == c then Seen(log, c) + [MarkOf(e)] else Seen(log, c)
  {
    assert (log + [e])[..|log + [e]| - 1] == log;
  }

  lemma {:induction false} OneByOneAt(items: seq<Item>, i: nat)
    requires i < |items|
    ensures OneByOne(items)[2 * i] == Begins(items[i]) && OneByOne(items)[2 * i + 1] == Ends(items[i])
    decreases |items|
  {
    if i < |items| - 1 {
      OneByOneAt(items[..|items| - 1], i);
    }
  }

  /** How far a worker is in its group, in marks. */
  function Position(w: Worker): nat
    requires w.On?
  {
    2 * w.at + if w.admitting then 1 else 0
  }

  ghost predicate Works(w: Worker) {
    w.On? ==> w.at <= |w.group.items| && (w.admitting ==> w.at < |w.group.items|)
              && forall i :: 0 <= i < |w.group.items| ==> w.group.items[i].conversation == w.group.conversation
  }

  /** A group that some worker holds. */
  ghost predicate Held(workers: seq<Worker>, c: string) {
    exists w :: 0 <= w < |workers| && workers[w].On? && workers[w].group.conversation == c
  }

  /** The bookkeeping of the pool: the queue is a suffix of the groups, and no group is held twice. */
  ghost predicate Shape(groups: seq<Group>, p: Pool) {
    && |p.queue| <= |groups| && p.queue == groups[|groups| - |p.queue|..]
    && (forall w :: 0 <= w < |p.workers| ==> Works(p.workers[w]))
    && (forall w :: 0 <= w < |p.workers| && p.workers[w].On? ==> p.workers[w].group in groups[..|groups| - |p.queue|])
    && (forall v, w :: 0 <= v < w < |p.workers| && p.workers[v].On? && p.workers[w].On? ==>
          p.workers[v].group.conversation != p.workers[w].group.conversation)
  }

  /** The log says of each conversation exactly how far its group is. */
  ghost predicate Logged(groups: seq<Group>, p: Pool)
    requires |p.queue| <= |groups|
  {
    && (forall i :: |groups| - |p.queue| <= i < |groups| ==> Seen(p.log, groups[i].conversation) == [])
    && (forall w :: 0 <= w < |p.workers| && p.workers[w].On? && Works(p.workers[w]) ==>
          Seen(p.log, p.workers[w].group.conversation) == OneByOne(p.workers[w].group.items)[..Position(p.workers[w])])
    && (forall i :: 0 <= i < |groups| - |p.queue| && !Held(p.workers, groups[i].conversation) ==>
          Seen(p.log, groups[i].conversation) == OneByOne(groups[i].items))
    && (forall c :: !Has(groups, c) ==> Seen(p.log, c) == [])
  }

  ghost predicate Inv(groups: seq<Group>, p: Pool) {
    Keyed(groups) && Shape(groups, p) && Logged(groups, p)
  }

  ghost predicate Pure(groups: seq<Group>) {
    forall i, j :: 0 <= i < |groups| && 0 <= j < |groups[i].items| ==>
        groups[i].items[j].conversation == groups[i].conversation
  }

  lemma {:induction false} OfIsPure(items: seq<Item>, c: string)
    ensures forall i :: 0 <= i < |Of(items, c)| ==> Of(items, c)[i].conversation == c
  {
    if items != [] {
      OfIsPure(items[1..], c);
    }
  }

  lemma StartIsInv(items: seq<Item>, runner: bool)
    ensures Inv(Grouped(items), Start(items, runner)) && Pure(Grouped(items))
  {
    GroupsPartition(items);
    var groups := Grouped(items);
    assert groups[0..] == groups;
    forall i, j | 0 <= i < |groups| && 0 <= j < |groups[i].items|
      ensures groups[i].items[j].conversation == groups[i].conversation
    {
      OfIsPure(items, groups[i].conversation);
    }
  }

  /** A worker that finds the queue empty ends. */
  lemma FinishKeeps(groups: seq<Group>, p: Pool, w: nat)
    requires Inv(groups, p) && w < |p.workers| && p.workers[w].Shifting?
    ensures Inv(groups, p.(workers := p.workers[w := Finished]))
  {
    var next := p.workers[w := Finished];
    forall c ensures Held(next, c) <==> Held(p.workers, c) {
      SameHeld(p.workers, w, Finished, c);
    }
  }

  /** A worker that held nothing and holds nothing changes no holding. */
  lemma SameHeld(workers: seq<Worker>, w: nat, next: Worker, c: string)
    requires w < |workers|
    requires !(workers[w].On? && workers[w].group.conversation == c) && !(next.On? && next.group.conversation == c)
    ensures Held(workers[w := next], c) <==> Held(workers, c)
  {
    var after := workers[w := next];
    if Held(workers, c) {
      var v :| 0 <= v < |workers| && workers[v].On? && workers[v].group.conversation == c;
      assert after[v] == workers[v];
    }
    if Held(after, c) {
      var v :| 0 <= v < |after| && after[v].On? && after[v].group.conversation == c;
      assert after[v] == workers[v];
    }
  }

  lemma TakeKeepsShape(groups: seq<Group>, p: Pool, w: nat)
    requires Keyed(groups) && Shape(groups, p) && Pure(groups)
    requires w < |p.workers| && p.workers[w].Shifting? && p.queue != []
    ensures Shape(groups, p.(queue := p.queue[1..], workers := p.workers[w := On(p.queue[0], 0, false)]))
  {
    var n := |groups| - |p.queue|;
    assert p.queue[0] == groups[n] && p.queue[1..] == groups[n + 1..];
    assert groups[..n + 1] == groups[..n] + [groups[n]];
    forall v | 0 <= v < |p.workers| && p.workers[v].On?
      ensures p.workers[v].group.conversation != groups[n].conversation
    {
      var i :| 0 <= i < n && groups[..n][i] == p.workers[v].group;
    }
  }

  lemma TakeKeepsLog(groups: seq<Group>, p: Pool, w: nat)
    requires Inv(groups, p)
    requires w < |p.workers| && p.workers[w].Shifting? && p.queue != []
    ensures Logged(groups, p.(queue := p.queue[1..], workers := p.workers[w := On(p.queue[0], 0, false)]))
  {
    var n := |groups| - |p.queue|;
    var next := p.workers[w := On(p.queue[0], 0, false)];
    assert p.queue[0] == groups[n];
    assert OneByOne(groups[n].items)[..0] == [];
    forall i | 0 <= i < n + 1 && !Held(next, groups[i].conversation)
      ensures Seen(p.log, groups[i].conversation) == OneByOne(groups[i].items)
    {
      assert next[w].On? && next[w].group.conversation == groups[n].conversation;
      SameHeld(p.workers, w, On(p.queue[0], 0, false), groups[i].conversation);
    }
  }

  /** A step inside a group, `e` being the entry it writes. */
  lemma EntryKeepsShape(groups: seq<Group>, p: Pool, w: nat, next: Worker, p': Pool)
    requires Shape(groups, p) && w < |p.workers| && p.workers[w].On?
    requires next.On? && next.group == p.workers[w].group && Works(next)
    requires p'.queue == p.queue && p'.workers == p.workers[w := next]
    ensures Shape(groups, p')
  {
  }

  lemma EntryKeepsHeld(workers: seq<Worker>, w: nat, next: Worker, c: string)
    requires w < |workers| && workers[w].On? && next.On? && next.group == workers[w].group
    ensures Held(workers[w := next], c) <==> Held(workers, c)
  {
    var after := workers[w := next];
    if Held(workers, c) {
      var v :| 0 <= v < |workers| && workers[v].On? && workers[v].group.conversation == c;
      assert after[v].On? && after[v].group.conversation == c;
    }
    if Held(after, c) {
      var v :| 0 <= v < |after| && after[v].On? && after[v].group.conversation == c;
      assert workers[v].On? && workers[v].group.conversation == c;
    }
  }

  lemma EntryExtends(items: seq<Item>, w: Worker, e: Entry)
    requires w.On? && w.group.items == items && w.at < |items| && e.item == items[w.at] && e.Begun? == !w.admitting
    ensures Position(w) < |OneByOne(items)|
    ensures OneByOne(items)[..Position(w)] + [MarkOf(e)] == OneByOne(items)[..Position(w) + 1]
  {
    OneByOneAt(items, w.at);
  }

  lemma EntryKeepsLog(groups: seq<Group>, p: Pool, w: nat, next: Worker, e: Entry, p': Pool)
    requires Inv(groups, p) && w < |p.workers| && p.workers[w].On? && p.workers[w].at < |p.workers[w].group.items|
    requires next.On? && next.group == p.workers[w].group && Works(next) && Position(next) == Position(p.workers[w]) + 1
    requires e.item == next.group.items[p.workers[w].at] && e.Begun? == !p.workers[w].admitting
    requires p'.queue == p.queue && p'.workers == p.workers[w := next] && p'.log == p.log + [e]
    ensures Logged(groups, p')
  {
    var mine := next.group.conversation;
    assert e.item.conversation == mine;
    forall c ensures Held(p.workers[w := next], c) <==> Held(p.workers, c) {
      EntryKeepsHeld(p.workers, w, next, c);
    }
    forall c ensures Seen(p.log + [e], c) == if c == mine then Seen(p.log, c) + [MarkOf(e)] else Seen(p.log, c) {
      SeenSnoc(p.log, e, c);
    }
    EntryExtends(next.group.items, p.workers[w], e);
    Taken(groups, p, w);
  }

  /** The group a worker holds has left the queue, and is the only one of its conversation. */
  lemma Taken(groups: seq<Group>, p: Pool, w: nat)
    requires Keyed(groups) && Shape(groups, p) && w < |p.workers| && p.workers[w].On?
    ensures var g := p.workers[w].group;
            && Has(groups, g.conversation) && Held(p.workers, g.conversation)
            && (forall i :: 0 <= i < |groups| && groups[i].conversation == g.conversation ==>
                  i < |groups| - |p.queue| && groups[i] == g)
  {
    var n := |groups| - |p.queue|;
    var i :| 0 <= i < n && groups[..n][i] == p.workers[w].group;
    assert groups[i] == p.workers[w].group;
  }

  /** A worker at the end of its group puts it down. */
  lemma LeaveKeeps(groups: seq<Group>, p: Pool, w: nat)
    requires Inv(groups, p) && w < |p.workers| && p.workers[w].On?
    requires !p.workers[w].admitting && p.workers[w].at == |p.workers[w].group.items|
    ensures Inv(groups, p.(workers := p.workers[w := Shifting]))
  {
    var g, next := p.workers[w].group, p.workers[w := Shifting];
    Taken(groups, p, w);
    assert OneByOne(g.items)[..2 * |g.items|] == OneByOne(g.items);
    forall i | 0 <= i < |groups| - |p.queue| && !Held(next, groups[i].conversation)
      ensures Seen(p.log, groups[i].conversation) == OneByOne(groups[i].items)
    {
      if groups[i].conversation != g.conversation {
        SameHeld(p.workers, w, Shifting, groups[i].conversation);
      }
    }
  }

  /** An admission begins or ends. */
  lemma EntryKeeps(groups: seq<Group>, p: Pool, w: nat, next: Worker, e: Entry, p': Pool)
    requires Inv(groups, p) && w < |p.workers| && p.workers[w].On? && p.workers[w].at < |p.workers[w].group.items|
    requires e.item == p.workers[w].group.items[p.workers[w].at] && e.Begun? == !p.workers[w].admitting
    requires var On(group, at, admitting) := p.workers[w];
             next == On(group, if admitting then at + 1 else at, !admitting)
    requires p'.queue == p.queue && p'.workers == p.workers[w := next] && p'.log == p.log + [e]
    ensures Inv(groups, p')
  {
    assert Works(p.workers[w]);
    EntryKeepsShape(groups, p, w, next, p');
    EntryKeepsLog(groups, p, w, next, e, p');
  }

  lemma NextKeeps(groups: seq<Group>, p: Pool, choice: Choice)
    requires Inv(groups, p) && Pure(groups) && Enabled(p, choice)
    ensures Inv(groups, Next(p, choice))
  {
    var w := choice.worker;
    match p.workers[w]
    case Shifting =>
      if p.queue == [] {
        FinishKeeps(groups, p, w);
      } else {
        TakeKeepsShape(groups, p, w);
        TakeKeepsLog(groups, p, w);
      }
    case On(group, at, admitting) =>
      if admitting {
        var e := Settled(group.items[at], A.Admitted(choice.row, choice.processing));
        EntryKeeps(groups, p, w, On(group, at + 1, false), e, Next(p, choice));
      } else if at < |group.items| {
        EntryKeeps(groups, p, w, On(group, at, true), Begun(group.items[at]), Next(p, choice));
      } else {
        assert Works(p.workers[w]);
        LeaveKeeps(groups, p, w);
      }
  }

  lemma {:induction false} RunKeeps(groups: seq<Group>, p: Pool, schedule: seq<Choice>, q: Pool)
    requires Inv(groups, p) && Pure(groups) && Runs(p, schedule, q)
    ensures Inv(groups, q)
    decreases |schedule|
  {
    if schedule != [] {
      NextKeeps(groups, p, schedule[0]);
      RunKeeps(groups, Next(p, schedule[0]), schedule[1..], q);
    }
  }

  // ---- sums over workers ----

  ghost function Sum(f: Worker -> int, workers: seq<Worker>): int {
    if workers == [] then 0 else f(workers[0]) + Sum(f, workers[1..])
  }

  lemma {:induction false} SumUpdate(f: Worker -> int, workers: seq<Worker>, w: nat, next: Worker)
    requires w < |workers|
    ensures Sum(f, workers[w := next]) == Sum(f, workers) - f(workers[w]) + f(next)
  {
    if w == 0 {
      assert workers[w := next][1..] == workers[1..];
    } else {
      assert workers[w := next][1..] == workers[1..][w - 1 := next];
      SumUpdate(f, workers[1..], w - 1, next);
    }
  }

  lemma {:induction false} SumAtMost(f: Worker -> int, workers: seq<Worker>)
    requires forall w :: f(w) <= 1
    ensures Sum(f, workers) <= |workers|
  {
    if workers != [] {
      SumAtMost(f, workers[1..]);
    }
  }

  lemma {:induction false} SumOfSame(f: Worker -> int, workers: seq<Worker>, n: int)
    requires forall w :: 0 <= w < |workers| ==> f(workers[w]) == n
    ensures n == 0 ==> Sum(f, workers) == 0
    ensures n == 1 ==> Sum(f, workers) == |workers|
  {
    if workers != [] {
      SumOfSame(f, workers[1..], n);
    }
  }

  // ---- what is in flight, retries, and the end ----

  ghost function Busy(): Worker -> int {
    (w: Worker) => if w.On? && w.admitting then 1 else 0
  }

  /** Admissions that began and did not settle. */
  function InFlight(log: seq<Entry>): int
    decreases |log|
  {
    if log == [] then 0
    else InFlight(log[..|log| - 1]) + if log[|log| - 1].Begun? then 1 else -1
  }

  lemma InFlightSnoc(log: seq<Entry>, e: Entry)
    ensures InFlight(log + [e]) == InFlight(log) + if e.Begun? then 1 else -1
  {
    assert (log + [e])[..|log + [e]| - 1] == log;
  }

  /** Steps that are left: two per item, two per group, one per worker. */
  ghost function Load(): Worker -> int {
    (w: Worker) =>
      match w
      case Shifting => 1
      case On(group, at, admitting) => 2 * |group.items| - 2 * at + (if admitting then 1 else 2)
      case Finished => 0
  }

  function QueueLoad(queue: seq<Group>): nat {
    if queue == [] then 0 else 2 * |queue[0].items| + 2 + QueueLoad(queue[1..])
  }

  ghost function StepsLeft(p: Pool): int {
    QueueLoad(p.queue) + Sum(Load(), p.workers)
  }

  /** Some settlement asks for a retry that is due at once. */
  ghost predicate AnyUrgent(log: seq<Entry>) {
    exists i :: 0 <= i < |log| && log[i].Settled? && log[i].end.needsRetry
  }

  ghost predicate AnyFinished(workers: seq<Worker>) {
    exists w :: 0 <= w < |workers| && workers[w].Finished?
  }

  /** The counters agree with the log, and no worker ends while groups wait. */
  ghost predicate Counts(p: Pool) {
    && InFlight(p.log) == Sum(Busy(), p.workers)
    && (p.needsRetry <==> AnyUrgent(p.log))
    && (AnyFinished(p.workers) ==> p.queue == [])
  }

  lemma AnyUrgentSnoc(log: seq<Entry>, e: Entry)
    ensures AnyUrgent(log + [e]) <==> AnyUrgent(log) || (e.Settled? && e.end.needsRetry)
  {
    var next := log + [e];
    if AnyUrgent(log) {
      var i :| 0 <= i < |log| && log[i].Settled? && log[i].end.needsRetry;
      assert next[i] == log[i];
    }
    if e.Settled? && e.end.needsRetry {
      assert next[|log|] == e;
    }
  }

  lemma FinishedUpdate(workers: seq<Worker>, w: nat, next: Worker)
    requires w < |workers| && !workers[w].Finished?
    ensures AnyFinished(workers[w := next]) ==> AnyFinished(workers) || next.Finished?
  {
    var after := workers[w := next];
    if AnyFinished(after) && !next.Finished? {
      var v :| 0 <= v < |after| && after[v].Finished?;
      assert workers[v].Finished?;
    }
  }

  lemma NextCounts(p: Pool, choice: Choice)
    requires Counts(p) && Enabled(p, choice)
    ensures Counts(Next(p, choice)) && |Next(p, choice).workers| == |p.workers|
  {
    var w := choice.worker;
    var next := Next(p, choice);
    SumUpdate(Busy(), p.workers, w, next.workers[w]);
    FinishedUpdate(p.workers, w, next.workers[w]);
    match p.workers[w]
    case Shifting =>
    case On(group, at, admitting) =>
      if at < |group.items| {
        var e := if admitting then Settled(group.items[at], A.Admitted(choice.row, choice.processing))
            else Begun(group.items[at]);
        InFlightSnoc(p.log, e);
        AnyUrgentSnoc(p.log, e);
      }
  }

  lemma NextIsOneStep(p: Pool, choice: Choice)
    requires Enabled(p, choice) && Works(p.workers[choice.worker])
    ensures StepsLeft(Next(p, choice)) == StepsLeft(p) - 1
  {
    var w := choice.worker;
    var next := Next(p, choice);
    assert next.workers == p.workers[w := next.workers[w]];
    SumUpdate(Load(), p.workers, w, next.workers[w]);
  }

  lemma {:induction false} RunCounts(groups: seq<Group>, p: Pool, schedule: seq<Choice>, q: Pool)
    requires Inv(groups, p) && Pure(groups) && Counts(p) && Runs(p, schedule, q)
    ensures Counts(q) && |schedule| + StepsLeft(q) == StepsLeft(p) && |q.workers| == |p.workers|
    decreases |schedule|
  {
    if schedule != [] {
      NextKeeps(groups, p, schedule[0]);
      NextCounts(p, schedule[0]);
      NextIsOneStep(p, schedule[0]);
      RunCounts(groups, Next(p, schedule[0]), schedule[1..], q);
    }
  }

  lemma StartCounts(items: seq<Item>, runner: bool)
    ensures Counts(Start(items, runner))
  {
    SumOfSame(Busy(), Start(items, runner).workers, 0);
  }

  // ---- the theorems ----

  /** A pool some interleaving reaches. */
  ghost predicate Reaches(items: seq<Item>, runner: bool, schedule: seq<Choice>, p: Pool) {
    Runs(Start(items, runner), schedule, p)
  }

  lemma Reached(items: seq<Item>, runner: bool, schedule: seq<Choice>, p: Pool)
    requires Reaches(items, runner, schedule, p)
    ensures Inv(Grouped(items), p) && Pure(Grouped(items)) && Counts(p)
    ensures |schedule| + StepsLeft(p) == StepsLeft(Start(items, runner))
    ensures |p.workers| == Workers(runner, |Grouped(items)|)
  {
    StartIsInv(items, runner);
    StartCounts(items, runner);
    RunKeeps(Grouped(items), Start(items, runner), schedule, p);
    RunCounts(Grouped(items), Start(items, runner), schedule, p);
  }

  lemma FinishedIsDrained(groups: seq<Group>, p: Pool, runner: bool)
    requires Counts(p) && AllFinished(p) && |p.workers| == Workers(runner, |groups|) && |p.queue| <= |groups|
    ensures p.queue == [] && forall c :: !Held(p.workers, c)
  {
    if p.workers != [] {
      assert p.workers[0].Finished?;
    }
  }

  lemma SeenIsPrefix(groups: seq<Group>, p: Pool, c: string)
    requires Inv(groups, p)
    ensures Seen(p.log, c) <= OneByOne(ItemsOf(groups, c))
  {
    if Has(groups, c) {
      var i :| 0 <= i < |groups| && groups[i].conversation == c;
      ItemsAt(groups, i);
      if Held(p.workers, c) {
        HeldIsPrefix(groups, p, i);
      }
    }
  }

  lemma HeldIsPrefix(groups: seq<Group>, p: Pool, i: nat)
    requires Inv(groups, p) && i < |groups| && Held(p.workers, groups[i].conversation)
    ensures Seen(p.log, groups[i].conversation) <= OneByOne(groups[i].items)
  {
    var w :| 0 <= w < |p.workers| && p.workers[w].On? && p.workers[w].group.conversation == groups[i].conversation;
    Taken(groups, p, w);
    assert groups[i] == p.workers[w].group;
    assert Works(p.workers[w]);
  }

  /**
   * Under every interleaving, what a conversation sees of the log is a prefix of its own items admitted
   * one by one in claimed order: each begins once, ends once, and ends before the next begins. When all
   * workers have ended, it is all of them.
   */
  lemma ConversationsRunOneByOne(items: seq<Item>, runner: bool, schedule: seq<Choice>, p: Pool, c: string)
    requires Reaches(items, runner, schedule, p)
    ensures Seen(p.log, c) <= OneByOne(Of(items, c))
    ensures AllFinished(p) ==> Seen(p.log, c) == OneByOne(Of(items, c))
  {
    Reached(items, runner, schedule, p);
    var groups := Grouped(items);
    GroupedItems(items, c);
    SeenIsPrefix(groups, p, c);
    if AllFinished(p) {
      FinishedIsDrained(groups, p, runner);
      if Has(groups, c) {
        var i :| 0 <= i < |groups| && groups[i].conversation == c;
        ItemsAt(groups, i);
      } else {
        NoItems(groups, c);
      }
    }
  }

  /** At most four admissions are in flight, and one without a runner; each conversation has at most one of them. */
  lemma FewInFlight(items: seq<Item>, runner: bool, schedule: seq<Choice>, p: Pool)
    requires Reaches(items, runner, schedule, p)
    ensures InFlight(p.log) <= if runner then 4 else 1
  {
    Reached(items, runner, schedule, p);
    SumAtMost(Busy(), p.workers);
  }

  /** Another drain is asked for exactly when some admission failed with a retry that is due at once. */
  lemma RetryIsAskedFor(items: seq<Item>, runner: bool, schedule: seq<Choice>, p: Pool)
    requires Reaches(items, runner, schedule, p)
    ensures p.needsRetry <==> AnyUrgent(p.log)
  {
    Reached(items, runner, schedule, p);
  }

  lemma {:induction false} LoadIsPositive(workers: seq<Worker>)
    requires forall w :: 0 <= w < |workers| ==> Works(workers[w])
    ensures Sum(Load(), workers) >= 0
    ensures Sum(Load(), workers) == 0 <==> forall w :: 0 <= w < |workers| ==> workers[w].Finished?
  {
    if workers != [] {
      assert Works(workers[0]);
      LoadIsPositive(workers[1..]);
      if Sum(Load(), workers) == 0 {
        forall w | 0 <= w < |workers| ensures workers[w].Finished? {
          assert w > 0 ==> workers[w] == workers[1..][w - 1];
        }
      }
    }
  }

  /**
   * Every interleaving ends: each schedule is at most as long as the steps the start has, it is exactly
   * that long when all workers have ended, and until then some worker can move.
   */
  lemma EveryDrainEnds(items: seq<Item>, runner: bool, schedule: seq<Choice>, p: Pool)
    requires Reaches(items, runner, schedule, p)
    ensures |schedule| <= StepsLeft(Start(items, runner))
    ensures AllFinished(p) <==> |schedule| == StepsLeft(Start(items, runner))
    ensures !AllFinished(p) ==> exists choice :: Enabled(p, choice)
  {
    Reached(items, runner, schedule, p);
    LoadIsPositive(p.workers);
    if AllFinished(p) {
      FinishedIsDrained(Grouped(items), p, runner);
    } else {
      var w :| 0 <= w < |p.workers| && !p.workers[w].Finished?;
      assert Works(p.workers[w]);
      var admitting := p.workers[w].On? && p.workers[w].admitting;
      assert Enabled(p, if admitting then End(w, A.Row(A.InFlight, 1, 1), A.Rejected) else Go(w));
    }
  }

  // ---- exactly once ----

  function Times(marks: seq<Mark>, m: Mark): nat
    decreases |marks|
  {
    if marks == [] then 0
    else Times(marks[..|marks| - 1], m) + if marks[|marks| - 1] == m then 1 else 0
  }

  function Marks(log: seq<Entry>): (r: seq<Mark>)
    ensures |r| == |log|
  {
    seq(|log|, i requires 0 <= i < |log| => MarkOf(log[i]))
  }

  lemma TimesSnoc(marks: seq<Mark>, last: Mark, m: Mark)
    ensures Times(marks + [last], m) == Times(marks, m) + if last == m then 1 else 0
  {
    assert (marks + [last])[..|marks + [last]| - 1] == marks;
  }

  lemma {:induction false} TimesSeen(log: seq<Entry>, m: Mark)
    ensures Times(Marks(log), m) == Times(Seen(log, m.item.conversation), m)
    decreases |log|
  {
    if log != [] {
      var init, e := log[..|log| - 1], log[|log| - 1];
      TimesSeen(init, m);
      assert Marks(log) == Marks(init) + [MarkOf(e)];
      TimesSnoc(Marks(init), MarkOf(e), m);
      TimesSnoc(Seen(init, m.item.conversation), MarkOf(e), m);
    }
  }

  function Copies(items: seq<Item>, x: Item): nat
    decreases |items|
  {
    if items == [] then 0
    else Copies(items[..|items| - 1], x) + if items[|items| - 1] == x then 1 else 0
  }

  lemma {:induction false} TimesOneByOne(items: seq<Item>, m: Mark)
    ensures Times(OneByOne(items), m) == Copies(items, m.item)
    decreases |items|
  {
    if items != [] {
      var init, item := items[..|items| - 1], items[|items| - 1];
      TimesOneByOne(init, m);
      TimesSnoc(OneByOne(init), Begins(item), m);
      TimesSnoc(OneByOne(init) + [Begins(item)], Ends(item), m);
      assert OneByOne(items) == OneByOne(init) + [Begins(item)] + [Ends(item)];
    }
  }

  lemma {:induction false} CopiesOf(items: seq<Item>, x: Item)
    ensures Copies(Of(items, x.conversation), x) == Copies(items, x)
    decreases |items|
  {
    if items != [] {
      var init, item := items[..|items| - 1], items[|items| - 1];
      CopiesOf(init, x);
      OfSnoc(init, item, x.conversation);
      assert items == init + [item];
      var mine := Of(init, x.conversation);
      assert (mine + [item])[..|mine|] == mine;
    }
  }

  lemma {:induction false} CopiesOfDistinct(items: seq<Item>, x: Item)
    requires Distinct(items)
    ensures Copies(items, x) == if x in items then 1 else 0
    decreases |items|
  {
    if items != [] {
      CopiesOfDistinct(items[..|items| - 1], x);
      assert items == items[..|items| - 1] + [items[|items| - 1]];
    }
  }

  /**
   * When the pool has ended, every claimed delivery was admitted exactly once and settled exactly once,
   * and nothing else was.
   */
  lemma ExactlyOnce(items: seq<Item>, runner: bool, schedule: seq<Choice>, p: Pool, x: Item)
    requires Distinct(items) && Reaches(items, runner, schedule, p) && AllFinished(p)
    ensures Times(Marks(p.log), Begins(x)) == Times(Marks(p.log), Ends(x)) == if x in items then 1 else 0
  {
    ConversationsRunOneByOne(items, runner, schedule, p, x.conversation);
    TimesSeen(p.log, Begins(x));
    TimesSeen(p.log, Ends(x));
    TimesOneByOne(Of(items, x.conversation), Begins(x));
    TimesOneByOne(Of(items, x.conversation), Ends(x));
    CopiesOf(items, x);
    CopiesOfDistinct(items, x);
  }

  /** Every processing ends on a row that is still in flight. */
  ghost predicate ClaimedRows(schedule: seq<Choice>) {
    forall k :: 0 <= k < |schedule| && schedule[k].End? ==> schedule[k].row.status == A.InFlight
  }

  /** A settlement that wrote its row once, asks for a drain exactly when the row is due, and buries no pending row. */
  predicate SettledOnce(end: A.Admission) {
    && end.writes == 1 && end.row.status != A.InFlight
    && (end.needsRetry <==> end.row.status == A.Pending(0))
    && (end.deadLetter ==> !end.row.status.Pending?)
  }

  ghost predicate WrittenOnce(log: seq<Entry>) {
    forall i :: 0 <= i < |log| && log[i].Settled? ==> SettledOnce(log[i].end)
  }

  lemma NextWritesOnce(p: Pool, choice: Choice)
    requires Enabled(p, choice) && WrittenOnce(p.log) && (choice.End? ==> choice.row.status == A.InFlight)
    ensures WrittenOnce(Next(p, choice).log)
  {
    if choice.End? {
      A.SettledExactlyOnce(choice.row, choice.processing);
    }
  }

  lemma {:induction false} RunsWriteOnce(p: Pool, schedule: seq<Choice>, q: Pool)
    requires Runs(p, schedule, q) && ClaimedRows(schedule) && WrittenOnce(p.log)
    ensures WrittenOnce(q.log)
    decreases |schedule|
  {
    if schedule != [] {
      NextWritesOnce(p, schedule[0]);
      RunsWriteOnce(Next(p, schedule[0]), schedule[1..], q);
    }
  }

  /**
   * The pool has ended: every claimed delivery has one settlement, and while rows stay in flight until
   * their processing ends, each settlement is one write that completes the row, parks it or returns it
   * to pending. Another drain is asked for exactly when some row went back to pending without a delay.
   */
  lemma EachRowIsWrittenOnce(items: seq<Item>, runner: bool, schedule: seq<Choice>, p: Pool, x: Item)
    requires Distinct(items) && Reaches(items, runner, schedule, p) && AllFinished(p) && ClaimedRows(schedule)
    ensures Times(Marks(p.log), Ends(x)) == if x in items then 1 else 0
    ensures WrittenOnce(p.log)
    ensures p.needsRetry <==>
              exists i :: 0 <= i < |p.log| && p.log[i].Settled? && p.log[i].end.row.status == A.Pending(0)
  {
    RetryIsAskedFor(items, runner, schedule, p);
    ExactlyOnce(items, runner, schedule, p, x);
    RunsWriteOnce(Start(items, runner), schedule, p);
  }

  /** Schedules may be put one after the other. */
  lemma {:induction false} RunsSnoc(p: Pool, schedule: seq<Choice>, q: Pool, choice: Choice)
    requires Runs(p, schedule, q) && Enabled(q, choice)
    ensures Runs(p, schedule + [choice], Next(q, choice))
    decreases |schedule|
  {
    var longer := schedule + [choice];
    if schedule == [] {
      assert longer[0] == choice && longer[1..] == [];
    } else {
      RunsSnoc(Next(p, schedule[0]), schedule[1..], q, choice);
      assert longer[0] == schedule[0] && longer[1..] == schedule[1..] + [choice];
    }
  }
}
