/**
 * The drain as the source writes it (src/cloudflare.ts:3639-3710): a shared queue, workers that shift it, and
 * a flag.
 */
module InboxDrain {
  import opened Common
  import A = InboxAdmit
  import opened InboxPool
  import opened InboxPoolTheorems

  /** The loop that fills the map of groups. */
  method GroupByConversation(pending: seq<Item>) returns (groups: seq<Group>)
    ensures groups == Grouped(pending)
  {
    groups := [];
    for i := 0 to |pending|
      invariant groups == Grouped(pending[..i])
    {
      assert pending[..i + 1][..i] == pending[..i];
      groups := Insert(groups, pending[i]);
    }
    assert pending[..|pending|] == pending;
  }

  class Drain {
    var queue: seq<Group>
    var workers: seq<Worker>
    var needsRetry: bool
    var log: seq<Entry>

    function Value(): Pool
      reads this
    {
      Pool(queue, workers, needsRetry, log)
    }

    constructor (pending: seq<Item>, runner: bool)
      ensures Value() == Start(pending, runner)
    {
      var groups := GroupByConversation(pending);
      queue := groups;
      workers := seq(Workers(runner, |groups|), _ => Shifting);
      needsRetry := false;
      log := [];
    }

    /** `queue.shift()`: the next group, or the end of this worker. */
    method Shift(w: nat)
      requires w < |workers| && workers[w].Shifting?
      modifies this
      ensures Value() == Next(old(Value()), Go(w))
    {
      if |queue| == 0 {
        workers := workers[w := Finished];
      } else {
        var group := queue[0];
        queue := queue[1..];
        workers := workers[w := On(group, 0, false)];
      }
    }

    /** The loop over a group: admit the next item, or go back to the queue. */
    method Proceed(w: nat)
      requires w < |workers| && workers[w].On? && !workers[w].admitting
      modifies this
      ensures Value() == Next(old(Value()), Go(w))
    {
      var On(group, at, _) := workers[w];
      if at < |group.items| {
        log := log + [Begun(group.items[at])];
        workers := workers[w := On(group, at, true)];
      } else {
        workers := workers[w := Shifting];
      }
    }

    /** The end of `admit`: the row is settled and the retry flag kept up to date. */
    method Settle(w: nat, row: A.Row, processing: A.Processing)
      requires w < |workers| && workers[w].On? && workers[w].admitting && workers[w].at < |workers[w].group.items|
      modifies this
      ensures Value() == Next(old(Value()), End(w, row, processing))
    {
      var On(group, at, _) := workers[w];
      var delivery := new A.Delivery(row);
      var again, deadLetter := delivery.Admit(processing);
      log := log + [Settled(group.items[at], A.Admitted(row, processing))];
      needsRetry := needsRetry || again;
      workers := workers[w := On(group, at + 1, false)];
    }

    /** One step of whichever worker moves. */
    method Step(choice: Choice)
      requires Enabled(Value(), choice)
      modifies this
      ensures Value() == Next(old(Value()), choice)
    {
      match choice
      case Go(w) =>
        if workers[w].Shifting? { Shift(w); } else { Proceed(w); }
      case End(w, row, processing) => Settle(w, row, processing);
    }
  }

  /** Some worker that has not ended. */
  method Unfinished(workers: seq<Worker>) returns (r: Option<nat>)
    ensures r.None? <==> forall w :: 0 <= w < |workers| ==> workers[w].Finished?
    ensures r.Some? ==> r.value < |workers| && !workers[r.value].Finished?
  {
    for w := 0 to |workers|
      invariant forall v :: 0 <= v < w ==> workers[v].Finished?
    {
      if !workers[w].Finished? {
        return Some(w);
      }
    }
    r := None;
  }

  /**
   * A whole drain under an arbitrary scheduler: `turn` names the worker that moves next and `settle` the
   * row and the processing with which an admission ends. When it returns, every conversation was admitted
   * one by one, nothing is in flight, and a retry is asked for exactly when some admission needs one at
   * once.
   */
  method DrainInbox(pending: seq<Item>, runner: bool, turn: nat -> nat, settle: nat -> (A.Row, A.Processing))
    returns (needsRetry: bool, log: seq<Entry>)
    ensures forall c :: Seen(log, c) == OneByOne(Of(pending, c))
    ensures needsRetry <==> AnyUrgent(log)
    ensures InFlight(log) == 0
  {
    var drain := new Drain(pending, runner);
    ghost var schedule: seq<Choice> := [];
    var clock := 0;
    while true
      invariant fresh(drain) && Reaches(pending, runner, schedule, drain.Value())
      decreases StepsLeft(Start(pending, runner)) - |schedule|
    {
      EveryDrainEnds(pending, runner, schedule, drain.Value());
      var some := Unfinished(drain.workers);
      if some.None? {
        break;
      }
      var w := turn(clock);
      if w >= |drain.workers| || drain.workers[w].Finished? {
        w := some.value;
      }
      Reached(pending, runner, schedule, drain.Value());
      assert Works(drain.workers[w]);
      var admitting := drain.workers[w].On? && drain.workers[w].admitting;
      var choice := if admitting then End(w, settle(clock).0, settle(clock).1) else Go(w);
      RunsSnoc(Start(pending, runner), schedule, drain.Value(), choice);
      drain.Step(choice);
      schedule := schedule + [choice];
      clock := clock + 1;
    }
    ghost var p := drain.Value();
    needsRetry, log := drain.needsRetry, drain.log;
    RetryIsAskedFor(pending, runner, schedule, p);
    Reached(pending, runner, schedule, p);
    SumOfSame(Busy(), p.workers, 0);
    forall c ensures Seen(log, c) == OneByOne(Of(pending, c)) {
      ConversationsRunOneByOne(pending, runner, schedule, p, c);
    }
  }
}
