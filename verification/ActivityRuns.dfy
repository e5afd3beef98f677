/** Whole runs of one submission: batches, redelivery, and the status that a fact can leave behind. */
module ActivityRuns {
  import opened Common
  import opened Bounded
  import opened Activity
  import opened ActivityInvariant

  // ---- what each event did ----

  datatype Effect =
    | Began(id: string)
    | Ended(id: string, descriptor: Descriptor, isError: Option<bool>)
    | Wiped
    | Quiet

  /** Whether the event starts a new attempt. */
  predicate Restarts(sub: Sub, e: Event) {
    e.Running? && e.count.Some? && e.count.value >= 1 && sub.attempt.Some? && e.count.value > sub.attempt.value
  }

  function EffectOf(copy: Copy, sub: Sub, e: Event): Effect {
    var next := Apply(copy, sub, e).sub;
    if Restarts(sub, e) || (next.suppressed && !sub.suppressed) then Wiped
    else if e.ToolStart? && |next.active| > |sub.active| then Began(e.id)
    else if e.ToolEnd? && |next.active| < |sub.active| then
      match CallOf(sub.active, e.id)
      case Some(call) => Ended(e.id, call.descriptor, e.isError)
      case None => Quiet
    else Quiet
  }

  function Effects(copy: Copy, es: seq<Event>): (r: seq<Effect>)
    ensures |r| == |es|
    decreases |es|
  {
    if es == [] then []
    else
      var init := es[..|es| - 1];
      Effects(copy, init) + [EffectOf(copy, Run(copy, init), es[|es| - 1])]
  }

  /** How many calls a log leaves running. */
  function Open(log: seq<Effect>): int
    decreases |log|
  {
    if log == [] then 0
    else
      var before := Open(log[..|log| - 1]);
      match log[|log| - 1]
      case Began(_) => before + 1
      case Ended(_, _, _) => before - 1
      case Wiped => 0
      case Quiet => before
  }

  /** The calls that ended since a call last began with nothing running. */
  function Batch(log: seq<Effect>): seq<Effect>
    decreases |log|
  {
    if log == [] then []
    else
      var init, e := log[..|log| - 1], log[|log| - 1];
      match e
      case Began(_) => if Open(init) == 0 then [] else Batch(init)
      case Ended(_, _, _) => Batch(init) + [e]
      case Wiped => []
      case Quiet => Batch(init)
  }

  predicate Ending(e: Effect) {
    e.Ended?
  }

  predicate Clean(e: Effect) {
    e.Ended? && e.isError == Some(false)
  }

  /** Every call of the batch settled without an error. */
  ghost predicate AllClean(batch: seq<Effect>) {
    forall i :: 0 <= i < |batch| ==> Clean(batch[i])
  }

  function Descriptors(batch: seq<Effect>): seq<Descriptor>
    requires forall i :: 0 <= i < |batch| ==> Ending(batch[i])
  {
    seq(|batch|, i requires 0 <= i < |batch| => assert Ending(batch[i]); batch[i].descriptor)
  }

  // ---- batches ----

  /** The reducer's counters are the batch of the log, as long as something runs. */
  ghost predicate Follows(log: seq<Effect>, sub: Sub) {
    && Open(log) == |sub.active|
    && (forall i :: 0 <= i < |Batch(log)| ==> Ending(Batch(log)[i]))
    && (sub.active != [] ==>
          sub.completed == Descriptors(Batch(log)) && (sub.unsuccessful <==> !AllClean(Batch(log))))
  }

  lemma SnocLog(log: seq<Effect>, e: Effect)
    ensures (log + [e])[..|log + [e]| - 1] == log
  {
  }

  lemma AllCleanSnoc(batch: seq<Effect>, e: Effect)
    ensures AllClean(batch + [e]) <==> AllClean(batch) && Clean(e)
  {
    var next := batch + [e];
    if AllClean(next) {
      forall i | 0 <= i < |batch| ensures Clean(batch[i]) {
        assert next[i] == batch[i];
      }
      assert next[|batch|] == e;
    }
  }

  lemma FollowsQuiet(log: seq<Effect>, sub: Sub, next: Sub)
    requires Follows(log, sub)
    requires |next.active| == |sub.active| && next.completed == sub.completed && next.unsuccessful == sub.unsuccessful
    ensures Follows(log + [Quiet], next)
  {
    SnocLog(log, Quiet);
  }

  lemma FollowsWiped(log: seq<Effect>, next: Sub)
    requires next.active == []
    ensures Follows(log + [Wiped], next)
  {
    SnocLog(log, Wiped);
  }

  lemma FollowsBegan(log: seq<Effect>, sub: Sub, next: Sub, id: string)
    requires Follows(log, sub) && Batched(sub) && !sub.suppressed
    requires |next.active| == |sub.active| + 1 && next.completed == sub.completed
             && next.unsuccessful == sub.unsuccessful
    ensures Follows(log + [Began(id)], next)
  {
    SnocLog(log, Began(id));
  }

  lemma FollowsEnded(log: seq<Effect>, sub: Sub, next: Sub, e: Effect)
    requires Follows(log, sub) && sub.active != [] && e.Ended? && |next.active| == |sub.active| - 1
    requires next.active != [] ==>
               next.completed == sub.completed + [e.descriptor] && next.unsuccessful == (sub.unsuccessful || !Clean(e))
    ensures Follows(log + [e], next) && Batch(log + [e]) == Batch(log) + [e]
  {
    SnocLog(log, e);
    AllCleanSnoc(Batch(log), e);
  }

  /** What a start does, as far as batches can tell. */
  lemma StartEffect(copy: Copy, sub: Sub, id: string, d: Descriptor)
    requires !sub.suppressed
    ensures var next := Start(copy, sub, id, d).sub;
            || (next.suppressed && next.active == [])
            || (next.suppressed == sub.suppressed && next.completed == sub.completed
                && next.unsuccessful == sub.unsuccessful
                && (|next.active| == |sub.active| || |next.active| == |sub.active| + 1))
  {
  }

  lemma RegisterEffect(copy: Copy, sub: Sub, id: string, d: Descriptor)
    requires Ordered(sub.active)
    ensures var next := Register(copy, sub, id, d).sub;
            && next.suppressed == sub.suppressed && next.completed == sub.completed
            && next.unsuccessful == sub.unsuccessful && |next.active| == |sub.active|
  {
    if Runs(sub.active, id) {
      RedescribedKeeps(sub.active, id, d);
    }
  }

  lemma SettleOther(copy: Copy, sub: Sub, id: string, isError: Option<bool>)
    requires !sub.suppressed && (id in sub.nonWork || !Runs(sub.active, id))
    ensures var next := Settle(copy, sub, id, isError).sub;
            || (next.suppressed && next.active == [])
            || (!next.suppressed && next.completed == sub.completed
                && next.unsuccessful == sub.unsuccessful && next.active == sub.active)
  {
  }

  lemma SettleEnds(copy: Copy, sub: Sub, id: string, isError: Option<bool>)
    requires Ordered(sub.active) && !sub.suppressed && id !in sub.nonWork && Runs(sub.active, id)
    ensures var next := Settle(copy, sub, id, isError).sub;
            && !next.suppressed && |next.active| == |sub.active| - 1
            && (next.active != [] ==>
                  && next.completed == sub.completed + [CallOf(sub.active, id).value.descriptor]
                  && next.unsuccessful == (sub.unsuccessful || isError != Some(false)))
  {
    SettleRunning(copy, sub, id, isError);
    WithoutCallKeeps(sub.active, id);
  }

  lemma ApplyFollows(copy: Copy, sub: Sub, e: Event, log: seq<Effect>)
    requires Ok(sub) && Follows(log, sub)
    ensures Follows(log + [EffectOf(copy, sub, e)], Apply(copy, sub, e).sub)
  {
    var next := Apply(copy, sub, e).sub;
    if Restarts(sub, e) {
      FollowsWiped(log, next);
    } else if e.ToolStart? && !sub.suppressed {
      StartEffect(copy, sub, e.id, e.descriptor);
      if next.suppressed {
        FollowsWiped(log, next);
      } else if |next.active| > |sub.active| {
        FollowsBegan(log, sub, next, e.id);
      } else {
        FollowsQuiet(log, sub, next);
      }
    } else if e.ToolEnd? && !sub.suppressed {
      if e.id in sub.nonWork || !Runs(sub.active, e.id) {
        SettleOther(copy, sub, e.id, e.isError);
        if next.suppressed {
          FollowsWiped(log, next);
        } else {
          FollowsQuiet(log, sub, next);
        }
      } else {
        SettleEnds(copy, sub, e.id, e.isError);
        FollowsEnded(log, sub, next, Ended(e.id, CallOf(sub.active, e.id).value.descriptor, e.isError));
      }
    } else {
      if e.Told? {
        RegisterEffect(copy, sub, e.id, e.descriptor);
      }
      FollowsQuiet(log, sub, next);
    }
  }

  lemma {:induction false} RunFollows(copy: Copy, es: seq<Event>)
    ensures Follows(Effects(copy, es), Run(copy, es))
    decreases |es|
  {
    if es != [] {
      var init := es[..|es| - 1];
      RunFollows(copy, init);
      RunIsOk(copy, init);
      ApplyFollows(copy, Run(copy, init), es[|es| - 1], Effects(copy, init));
    }
  }

  /** The status a whole batch leads to. */
  ghost function Verdict(copy: Copy, batch: seq<Effect>): Status
    requires batch != [] && forall i :: 0 <= i < |batch| ==> Ending(batch[i])
  {
    if AllClean(batch) then Review(copy, Descriptors(batch)) else copy.reassessing
  }

  lemma LastOneEnds(copy: Copy, sub: Sub, id: string, isError: Option<bool>, batch: seq<Effect>)
    requires Ok(sub) && !sub.suppressed && id !in sub.nonWork && Runs(sub.active, id)
    requires forall i :: 0 <= i < |batch| ==> Ending(batch[i])
    requires sub.completed == Descriptors(batch) && (sub.unsuccessful <==> !AllClean(batch))
    requires WithoutCall(sub.active, id) == []
    ensures var e := Ended(id, CallOf(sub.active, id).value.descriptor, isError);
            && (forall i :: 0 <= i < |batch + [e]| ==> Ending((batch + [e])[i]))
            && Settle(copy, sub, id, isError) == Emit(Left(sub, id, isError), Verdict(copy, batch + [e]))
  {
    var e := Ended(id, CallOf(sub.active, id).value.descriptor, isError);
    SettleRunning(copy, sub, id, isError);
    AllCleanSnoc(batch, e);
    assert Descriptors(batch + [e]) == Descriptors(batch) + [e.descriptor];
  }

  /**
   * When an event ends the last running call, the status becomes the verdict on the whole batch: its
   * review exactly when every call of the batch settled with `isError === false`, and the reassessing
   * status otherwise.
   */
  lemma BatchVerdict(copy: Copy, es: seq<Event>, e: Event)
    requires EffectOf(copy, Run(copy, es), e).Ended? && Apply(copy, Run(copy, es), e).sub.active == []
    ensures var batch := Batch(Effects(copy, es + [e]));
            && batch != [] && (forall i :: 0 <= i < |batch| ==> Ending(batch[i]))
            && Run(copy, es + [e]).last == Some(Verdict(copy, batch).text)
            && Apply(copy, Run(copy, es), e).status
               == (if Run(copy, es).last == Some(Verdict(copy, batch).text) then None else Some(Verdict(copy, batch)))
  {
    var sub, log := Run(copy, es), Effects(copy, es);
    RunIsOk(copy, es);
    RunFollows(copy, es);
    assert (es + [e])[..|es + [e]| - 1] == es;
    var effect := EffectOf(copy, sub, e);
    SnocLog(log, effect);
    EndedIsRunning(copy, sub, e);
    SettleEnds(copy, sub, e.id, e.isError);
    SettleRunning(copy, sub, e.id, e.isError);
    LastOneEnds(copy, sub, e.id, e.isError, Batch(log));
  }

  lemma EndedIsRunning(copy: Copy, sub: Sub, e: Event)
    requires Ok(sub) && EffectOf(copy, sub, e).Ended?
    ensures e.ToolEnd? && !sub.suppressed && e.id !in sub.nonWork && Runs(sub.active, e.id)
    ensures EffectOf(copy, sub, e) == Ended(e.id, CallOf(sub.active, e.id).value.descriptor, e.isError)
    ensures Apply(copy, sub, e) == Settle(copy, sub, e.id, e.isError)
  {
  }

  // ---- redelivery ----

  /** A start of `id` no longer does anything. */
  ghost predicate Handled(sub: Sub, id: string) {
    sub.suppressed || id in sub.seen
  }

  /** Neither a start nor a settlement of `id` does anything any more. */
  ghost predicate Done(sub: Sub, id: string) {
    sub.suppressed || (id in sub.seen && !Runs(sub.active, id) && id !in sub.nonWork)
  }

  lemma StartHandles(copy: Copy, sub: Sub, id: string, d: Descriptor)
    requires Ok(sub)
    ensures Handled(Apply(copy, sub, ToolStart(id, d)).sub, id)
  {
  }

  lemma EndIsDone(copy: Copy, sub: Sub, id: string, isError: Option<bool>)
    requires Ok(sub)
    ensures Done(Apply(copy, sub, ToolEnd(id, isError)).sub, id)
  {
    if !sub.suppressed {
      WithoutMember(sub.nonWork, id);
      if id !in sub.nonWork && Runs(sub.active, id) {
        SettleRunning(copy, sub, id, isError);
        WithoutCallKeeps(sub.active, id);
      }
    }
  }

  lemma StartKeepsDone(copy: Copy, sub: Sub, other: string, d: Descriptor, id: string)
    requires Ok(sub) && !sub.suppressed && id in sub.seen
    ensures var next := Start(copy, sub, other, d).sub; Handled(next, id) && (Done(sub, id) ==> Done(next, id))
  {
    if other !in sub.seen && !Full(sub) {
      AddedKeeps(sub.nonWork, other, MAX_CALLS);
      NewStartKeeps(copy, sub, other, d, id);
    }
  }

  lemma NewStartKeeps(copy: Copy, sub: Sub, other: string, d: Descriptor, id: string)
    requires Ok(sub) && !sub.suppressed && id in sub.seen && other !in sub.seen && !Full(sub)
    requires forall x :: x in Added(sub.nonWork, other, MAX_CALLS) ==> x in sub.nonWork || x == other
    ensures var next := Start(copy, sub, other, d).sub; Handled(next, id) && (Done(sub, id) ==> Done(next, id))
  {
    var running := sub.active + [Call(other, FactOf(sub.facts, other).UnwrapOr(d), sub.next)];
    assert Runs(running, id) ==> Runs(sub.active, id);
  }

  lemma SettleKeepsDone(copy: Copy, sub: Sub, other: string, isError: Option<bool>, id: string)
    requires Ok(sub) && !sub.suppressed && id in sub.seen
    ensures var next := Settle(copy, sub, other, isError).sub; Handled(next, id) && (Done(sub, id) ==> Done(next, id))
  {
    WithoutMember(sub.nonWork, other);
    if other !in sub.nonWork && Runs(sub.active, other) {
      SettleRunning(copy, sub, other, isError);
      WithoutCallKeeps(sub.active, other);
    }
  }

  lemma RegisterKeepsDone(copy: Copy, sub: Sub, other: string, d: Descriptor, id: string)
    requires Ok(sub) && id in sub.seen
    ensures var next := Register(copy, sub, other, d).sub; Handled(next, id) && (Done(sub, id) ==> Done(next, id))
  {
    RegisterTouches(copy, sub, other, d);
    if Runs(sub.active, other) {
      RedescribedRuns(sub.active, other, d, id);
    }
  }

  lemma RegisterTouches(copy: Copy, sub: Sub, id: string, d: Descriptor)
    ensures var next := Register(copy, sub, id, d).sub;
            && next.seen == sub.seen && next.nonWork == sub.nonWork && next.suppressed == sub.suppressed
            && (next.active == sub.active || (Runs(sub.active, id) && next.active == Redescribed(sub.active, id, d)))
  {
  }

  lemma RedescribedRuns(active: seq<Call>, other: string, d: Descriptor, id: string)
    requires Ordered(active) && Runs(active, other)
    ensures Runs(Redescribed(active, other, d), id) ==> Runs(active, id)
  {
    if Runs(Redescribed(active, other, d), id) {
      var c := CallOf(Redescribed(active, other, d), id).value;
      RedescribedHas(active, other, d, c);
    }
  }

  /** Within an attempt, handled calls stay handled and done calls stay done. */
  lemma StaysDone(copy: Copy, sub: Sub, e: Event, id: string)
    requires Ok(sub) && !Restarts(sub, e)
    ensures var next := Apply(copy, sub, e).sub;
            (Handled(sub, id) ==> Handled(next, id)) && (Done(sub, id) ==> Done(next, id))
  {
    if !sub.suppressed && id in sub.seen {
      match e
      case ToolStart(other, d) => StartKeepsDone(copy, sub, other, d, id);
      case ToolEnd(other, isError) => SettleKeepsDone(copy, sub, other, isError, id);
      case Told(other, d) => RegisterKeepsDone(copy, sub, other, d, id);
      case _ =>
    }
  }

  /** No event from position `i` on starts a new attempt. */
  ghost predicate OneAttempt(copy: Copy, es: seq<Event>, i: nat) {
    forall k :: i <= k < |es| ==> !Restarts(Run(copy, es[..k]), es[k])
  }

  lemma {:induction false} LaterDone(copy: Copy, es: seq<Event>, i: nat, id: string)
    requires i <= |es| && OneAttempt(copy, es, i)
    ensures Handled(Run(copy, es[..i]), id) ==> Handled(Run(copy, es), id)
    ensures Done(Run(copy, es[..i]), id) ==> Done(Run(copy, es), id)
    decreases |es|
  {
    if i == |es| {
      assert es[..i] == es;
    } else {
      var init := es[..|es| - 1];
      forall k | i <= k < |init| ensures !Restarts(Run(copy, init[..k]), init[k]) {
        assert init[..k] == es[..k];
      }
      assert init[..i] == es[..i];
      LaterDone(copy, init, i, id);
      RunIsOk(copy, init);
      StaysDone(copy, Run(copy, init), es[|es| - 1], id);
    }
  }

  /** A second event about the same call: a start after a start or settlement, a settlement after a settlement. */
  predicate Repeats(first: Event, e: Event) {
    || (e.ToolStart? && (first.ToolStart? || first.ToolEnd?) && first.id == e.id)
    || (e.ToolEnd? && first.ToolEnd? && first.id == e.id)
  }

  lemma FirstHandles(copy: Copy, es: seq<Event>, i: nat)
    requires i < |es| && (es[i].ToolStart? || es[i].ToolEnd?)
    ensures Handled(Run(copy, es[..i + 1]), es[i].id)
    ensures es[i].ToolEnd? ==> Done(Run(copy, es[..i + 1]), es[i].id)
  {
    assert es[..i + 1][..i] == es[..i];
    RunIsOk(copy, es[..i]);
    var sub := Run(copy, es[..i]);
    if es[i].ToolStart? {
      StartHandles(copy, sub, es[i].id, es[i].descriptor);
    } else {
      EndIsDone(copy, sub, es[i].id, es[i].isError);
    }
  }

  /**
   * Within an attempt, delivering a tool event again, at any later time and with any payload, changes
   * nothing and shows nothing. The same holds for a start that arrives after its settlement.
   */
  lemma RedeliveryChangesNothing(copy: Copy, es: seq<Event>, i: nat, e: Event)
    requires i < |es| && Repeats(es[i], e) && OneAttempt(copy, es, i + 1)
    ensures Apply(copy, Run(copy, es), e) == Out(Run(copy, es), None)
  {
    FirstHandles(copy, es, i);
    LaterDone(copy, es, i + 1, e.id);
    RunIsOk(copy, es);
  }

  lemma {:induction false} EffectAt(copy: Copy, es: seq<Event>, i: nat)
    requires i < |es|
    ensures Effects(copy, es)[i] == EffectOf(copy, Run(copy, es[..i]), es[i])
    decreases |es|
  {
    var init := es[..|es| - 1];
    EffectsSnoc(copy, es, init);
    if i < |init| {
      EffectAt(copy, init, i);
      assert init[..i] == es[..i];
    }
  }

  lemma EffectsSnoc(copy: Copy, es: seq<Event>, init: seq<Event>)
    requires es != [] && init == es[..|es| - 1]
    ensures Effects(copy, es) == Effects(copy, init) + [EffectOf(copy, Run(copy, init), es[|es| - 1])]
  {
  }

  /** Between two starts, or two settlements, of one call id lies the start of a new attempt. */
  lemma OncePerAttempt(copy: Copy, es: seq<Event>, i: nat, j: nat)
    requires i < j < |es|
    requires var a, b := Effects(copy, es)[i], Effects(copy, es)[j];
             (a.Began? && b.Began? && a.id == b.id) || (a.Ended? && b.Ended? && a.id == b.id)
    ensures exists k :: i < k < j && Restarts(Run(copy, es[..k]), es[k])
  {
    var before := es[..j];
    assert before[i] == es[i];
    if forall k :: i < k < j ==> !Restarts(Run(copy, es[..k]), es[k]) {
      EffectRepeats(copy, es, i, j);
      forall k | i + 1 <= k < |before| ensures !Restarts(Run(copy, before[..k]), before[k]) {
        assert before[..k] == es[..k];
      }
      RedeliveryChangesNothing(copy, before, i, es[j]);
      assert false;
    }
  }

  /** Two starts, or two settlements, of one call id: the second repeats the first, and takes effect. */
  lemma EffectRepeats(copy: Copy, es: seq<Event>, i: nat, j: nat)
    requires i < j < |es|
    requires var a, b := Effects(copy, es)[i], Effects(copy, es)[j];
             (a.Began? && b.Began? && a.id == b.id) || (a.Ended? && b.Ended? && a.id == b.id)
    ensures Repeats(es[i], es[j])
    ensures Apply(copy, Run(copy, es[..j]), es[j]) != Out(Run(copy, es[..j]), None)
  {
    EffectAt(copy, es, i);
    EffectAt(copy, es, j);
  }
}
