/**
 * The loop that keeps admitting while other alarm work runs (src/cloudflare.ts:3044-3081, 3106-3113).
 * A step runs from one `await` to the next; wakes, timers and the end of the work come in between.
 */
module WakeLoop {
  import opened Common

  /**
   * Where the loop waits: not yet anywhere while the work runs up to its first `await`, then for the wake
   * promise, for a pass, for the last pass, or nowhere any more.
   */
  datatype At = Starting | Asleep(resolved: bool) | InPass | InLastPass | Over

  datatype Loop = Loop(done: bool, admittedMeanwhile: bool, at: At)

  /** What happens next. */
  datatype Happening = Wake | Timer | WorkEnds | Begins | Resumes | PassEnds

  /** What can be seen: wakes, the loop's final check, and passes that start and end. */
  datatype Seen = Woken | Checked | Started | Ended

  const START := Loop(false, false, Starting)

  datatype Step = Step(after: Loop, seen: seq<Seen>)

  predicate Possible(l: Loop, h: Happening) {
    match h
    case Wake => true
    case Timer => l.at.Asleep?
    case WorkEnds => !l.done && !l.at.Starting?
    case Begins => l.at.Starting?
    case Resumes => l.at.Asleep? && l.at.resolved
    case PassEnds => l.at.InPass? || l.at.InLastPass?
  }

  /** `wake?.()`: resolves the promise if the loop waits for it. */
  function Rouse(at: At): At {
    if at.Asleep? then Asleep(true) else at
  }

  /** The check behind the `while` loop. */
  function FinalCheck(l: Loop): Step {
    if l.admittedMeanwhile then Step(l.(at := InLastPass), [Checked, Started]) else Step(l.(at := Over), [Checked])
  }

  function Next(l: Loop, h: Happening): Step
    requires Possible(l, h)
  {
    match h
    case Wake => Step(l.(admittedMeanwhile := true, at := Rouse(l.at)), [Woken])
    case Timer => Step(l.(at := Asleep(true)), [])
    case WorkEnds => Step(l.(done := true, at := Rouse(l.at)), [])
    case Begins => Step(l.(at := Asleep(false)), [])
    case Resumes =>
      if l.done then FinalCheck(l) else Step(l.(admittedMeanwhile := false, at := InPass), [Started])
    case PassEnds =>
      if l.at.InLastPass? then Step(l.(at := Over), [Ended])
      else if l.done then
        var check := FinalCheck(l);
        check.(seen := [Ended] + check.seen)
      else Step(l.(at := Asleep(false)), [Ended])
  }

  datatype Run = Run(loop: Loop, log: seq<Seen>)

  const BEGIN := Run(START, [])

  function After(r: Run, h: Happening): Run
    requires Possible(r.loop, h)
  {
    var step := Next(r.loop, h);
    Run(step.after, r.log + step.seen)
  }

  /** Some interleaving leads from `r` to `q`. */
  ghost predicate Leads(r: Run, hs: seq<Happening>, q: Run)
    decreases |hs|
  {
    if hs == [] then q == r
    else Possible(r.loop, hs[0]) && Leads(After(r, hs[0]), hs[1..], q)
  }

  ghost predicate Reaches(hs: seq<Happening>, r: Run) {
    Leads(BEGIN, hs, r)
  }

  // ---- what the log says ----

  /** Whether the log holds a wake that no pass has started after. */
  function Pending(log: seq<Seen>): bool
    decreases |log|
  {
    log != [] &&
    match log[|log| - 1]
    case Woken => true
    case Started => false
    case _ => Pending(log[..|log| - 1])
  }

  predicate HasCheck(log: seq<Seen>) {
    exists i :: 0 <= i < |log| && log[i] == Checked
  }

  /** Passes alternate: `Some(open)` tells whether one is open, `None` that two overlapped or one ended twice. */
  function Passes(log: seq<Seen>): Option<bool>
    decreases |log|
  {
    if log == [] then Some(false)
    else
      var before := Passes(log[..|log| - 1]);
      match log[|log| - 1]
      case Started => if before == Some(false) then Some(true) else None
      case Ended => if before == Some(true) then Some(false) else None
      case _ => before
  }

  /** A pass starts behind position `i`. */
  ghost predicate Served(log: seq<Seen>, i: nat) {
    exists j :: i < j < |log| && log[j] == Started
  }

  /** Every wake before the final check is served, and no wake behind it. */
  ghost predicate Settled(log: seq<Seen>) {
    forall i, k :: 0 <= i < |log| && 0 <= k < |log| && log[i] == Woken && log[k] == Checked ==>
        (Served(log, i) <==> i < k)
  }

  ghost predicate Inv(r: Run) {
    var l := r.loop;
    && (HasCheck(r.log) <==> l.at.InLastPass? || l.at.Over?)
    && (!HasCheck(r.log) ==> (l.admittedMeanwhile <==> Pending(r.log)))
    && (HasCheck(r.log) ==> l.done && Settled(r.log))
    && Passes(r.log) == Some(l.at.InPass? || l.at.InLastPass?)
    && (l.done && l.at.Asleep? ==> l.at.resolved) && (l.at.Starting? ==> !l.done)
  }

  // ---- extending the log ----

  lemma Snoc(log: seq<Seen>, e: Seen)
    ensures (log + [e])[..|log + [e]| - 1] == log
    ensures Pending(log + [e]) == (e == Woken || (e != Started && Pending(log)))
    ensures HasCheck(log + [e]) <==> HasCheck(log) || e == Checked
  {
    assert (log + [e])[..|log + [e]| - 1] == log;
    if HasCheck(log) {
      var i :| 0 <= i < |log| && log[i] == Checked;
      assert (log + [e])[i] == Checked;
    }
    assert (log + [e])[|log|] == e;
  }

  lemma ServedSnoc(log: seq<Seen>, e: Seen, i: nat)
    requires i < |log|
    ensures Served(log + [e], i) <==> Served(log, i) || e == Started
  {
    var next := log + [e];
    if Served(log, i) {
      var j :| i < j < |log| && log[j] == Started;
      assert next[j] == Started;
    }
    if e == Started {
      assert next[|log|] == Started;
    }
    if Served(next, i) {
      var j :| i < j < |next| && next[j] == Started;
      assert j < |log| ==> log[j] == Started;
    }
  }

  /** A log with nothing pending has served all its wakes. */
  lemma {:induction false} NothingPending(log: seq<Seen>, i: nat)
    requires !Pending(log) && i < |log| && log[i] == Woken
    ensures Served(log, i)
    decreases |log|
  {
    var init, e := log[..|log| - 1], log[|log| - 1];
    assert log == init + [e];
    if e != Started {
      Snoc(init, e);
      NothingPending(init, i);
    }
    ServedSnoc(init, e, i);
  }

  /** Entries other than a start or a check, behind the check. */
  lemma LaterKeepsSettled(log: seq<Seen>, e: Seen)
    requires Settled(log) && HasCheck(log) && e != Started && e != Checked
    ensures Settled(log + [e])
  {
    var next := log + [e];
    forall i, k | 0 <= i < |next| && 0 <= k < |next| && next[i] == Woken && next[k] == Checked
      ensures Served(next, i) <==> i < k
    {
      assert k < |log| && log[k] == Checked;
      if i < |log| {
        ServedSnoc(log, e, i);
        assert log[i] == Woken;
      }
    }
  }

  /** The final check with nothing pending. */
  lemma CheckSettles(log: seq<Seen>)
    requires !HasCheck(log) && !Pending(log)
    ensures Settled(log + [Checked])
  {
    var next := log + [Checked];
    forall i, k | 0 <= i < |next| && 0 <= k < |next| && next[i] == Woken && next[k] == Checked
      ensures Served(next, i) <==> i < k
    {
      assert k == |log|;
      NothingPending(log, i);
      ServedSnoc(log, Checked, i);
    }
  }

  /** The final check and the pass it starts. */
  lemma CheckAndPassSettle(log: seq<Seen>)
    requires !HasCheck(log)
    ensures Settled(log + [Checked, Started])
  {
    var check, next := log + [Checked], log + [Checked, Started];
    assert next == check + [Started];
    forall i, k | 0 <= i < |next| && 0 <= k < |next| && next[i] == Woken && next[k] == Checked
      ensures Served(next, i) <==> i < k
    {
      assert k == |log|;
      assert next[|log| + 1] == Started;
    }
  }

  // ---- every step ----

  lemma FinalCheckKeeps(l: Loop, log: seq<Seen>)
    requires l.done && !HasCheck(log) && (l.admittedMeanwhile <==> Pending(log)) && Passes(log) == Some(false)
    ensures var check := FinalCheck(l); Inv(Run(check.after, log + check.seen))
  {
    Snoc(log, Checked);
    if l.admittedMeanwhile {
      Snoc(log + [Checked], Started);
      assert log + [Checked, Started] == log + [Checked] + [Started];
      CheckAndPassSettle(log);
    } else {
      CheckSettles(log);
    }
  }

  lemma AfterKeeps(r: Run, h: Happening)
    requires Inv(r) && Possible(r.loop, h)
    ensures Inv(After(r, h))
  {
    var l, log := r.loop, r.log;
    match h
    case Wake =>
      Snoc(log, Woken);
      if HasCheck(log) { LaterKeepsSettled(log, Woken); }
    case Timer => assert log + [] == log;
    case WorkEnds => assert log + [] == log;
    case Begins => assert log + [] == log;
    case Resumes =>
      if l.done {
        FinalCheckKeeps(l, log);
      } else {
        Snoc(log, Started);
      }
    case PassEnds =>
      Snoc(log, Ended);
      if l.at.InLastPass? {
        LaterKeepsSettled(log, Ended);
      } else if l.done {
        FinalCheckKeeps(l, log + [Ended]);
        assert log + ([Ended] + FinalCheck(l).seen) == log + [Ended] + FinalCheck(l).seen;
      }
  }

  lemma {:induction false} LeadsKeeps(r: Run, hs: seq<Happening>, q: Run)
    requires Inv(r) && Leads(r, hs, q)
    ensures Inv(q)
    decreases |hs|
  {
    if hs != [] {
      AfterKeeps(r, hs[0]);
      LeadsKeeps(After(r, hs[0]), hs[1..], q);
    }
  }

  // ---- the theorems ----

  /**
   * Over every interleaving: once the loop has made its final check, a wake is followed by a pass that
   * starts after it exactly when the wake came before that check.
   */
  lemma NoWakeIsLost(hs: seq<Happening>, r: Run, i: nat, k: nat)
    requires Reaches(hs, r) && i < |r.log| && k < |r.log| && r.log[i] == Woken && r.log[k] == Checked
    ensures Served(r.log, i) <==> i < k
  {
    LeadsKeeps(BEGIN, hs, r);
    assert HasCheck(r.log);
  }

  /** Before the final check, the flag says exactly whether some wake still waits for a pass. */
  lemma FlagIsPending(hs: seq<Happening>, r: Run)
    requires Reaches(hs, r) && !HasCheck(r.log)
    ensures r.loop.admittedMeanwhile <==> exists i :: 0 <= i < |r.log| && r.log[i] == Woken && !Served(r.log, i)
  {
    LeadsKeeps(BEGIN, hs, r);
    PendingIsUnserved(r.log);
  }

  lemma {:induction false} PendingIsUnserved(log: seq<Seen>)
    ensures Pending(log) <==> exists i :: 0 <= i < |log| && log[i] == Woken && !Served(log, i)
    decreases |log|
  {
    if !Pending(log) {
      forall i | 0 <= i < |log| && log[i] == Woken ensures Served(log, i) {
        NothingPending(log, i);
      }
    } else {
      var init, e := log[..|log| - 1], log[|log| - 1];
      if e == Woken {
        assert !Served(log, |log| - 1);
      } else {
        PendingIsUnserved(init);
        var i :| 0 <= i < |init| && init[i] == Woken && !Served(init, i);
        assert log == init + [e];
        ServedSnoc(init, e, i);
        assert log[i] == Woken;
      }
    }
  }

  /** Passes never overlap: in the log, starts and ends alternate, beginning with a start. */
  lemma PassesNeverOverlap(hs: seq<Happening>, r: Run)
    requires Reaches(hs, r)
    ensures Passes(r.log) == Some(r.loop.at.InPass? || r.loop.at.InLastPass?)
  {
    LeadsKeeps(BEGIN, hs, r);
  }

  /** How many steps of the loop itself are left once the work has ended. */
  function Left(l: Loop): nat {
    match l.at
    case Starting => 3
    case Asleep(_) => 2
    case InPass => 2
    case InLastPass => 1
    case Over => 0
  }

  /**
   * The loop ends once the work has ended: until it is over one of its own steps is possible, each of
   * them brings the end nearer, and nothing that happens in between puts it off.
   */
  lemma LoopEnds(hs: seq<Happening>, r: Run, h: Happening)
    requires Reaches(hs, r) && r.loop.done
    ensures !r.loop.at.Over? ==> Possible(r.loop, Resumes) || Possible(r.loop, PassEnds)
    ensures Possible(r.loop, h) ==>
              var next := After(r, h).loop;
              next.done && Left(next) <= Left(r.loop) && (h == Resumes || h == PassEnds ==> Left(next) < Left(r.loop))
  {
    LeadsKeeps(BEGIN, hs, r);
  }

  /** The loop sleeps on while a wake waits for a pass. */
  ghost predicate Waits(r: Run) {
    Pending(r.log) && r.loop.at == Asleep(false) && !r.loop.done
  }

  /**
   * A wake that comes while the loop does not sleep, during a pass or before the loop has begun, starts
   * nothing at once: the loop goes to sleep over it.
   */
  lemma WakeDuringPassWaits(hs: seq<Happening>, r: Run)
    requires Reaches(hs, r) && !r.loop.done
    ensures r.loop.at.InPass? ==> Waits(After(After(r, Wake), PassEnds))
    ensures r.loop.at.Starting? ==> Waits(After(After(r, Wake), Begins))
  {
    Snoc(r.log, Woken);
    Snoc(r.log + [Woken], Ended);
    assert r.log + [Woken] + [] == r.log + [Woken];
  }

  /** What ends such a wait: another wake, the timer or the end of the work, and each of them leads to a pass. */
  lemma WaitEnds(hs: seq<Happening>, r: Run, h: Happening)
    requires Reaches(hs, r) && Waits(r)
    ensures Possible(r.loop, h) <==> h == Wake || h == Timer || h == WorkEnds
    ensures Possible(r.loop, h) ==>
              && Possible(After(r, h).loop, Resumes)
              && var q := After(After(r, h), Resumes);
                 !Pending(q.log) && Passes(q.log) == Some(true) && forall i :: 0 <= i < |r.log| ==> Served(q.log, i)
  {
    LeadsKeeps(BEGIN, hs, r);
    if Possible(r.loop, h) {
      var q := After(After(r, h), Resumes);
      assert q.log[|q.log| - 1] == Started;
      AfterKeeps(r, h);
      AfterKeeps(After(r, h), Resumes);
    }
  }

  // ---- the closures over the flags ----

  /** The flags as the source keeps them; each method is what runs between two awaits. */
  class Dispatcher {
    var done: bool
    var admittedMeanwhile: bool
    var at: At
    ghost var log: seq<Seen>

    ghost function Value(): Run
      reads this
    {
      Run(Loop(done, admittedMeanwhile, at), log)
    }

    constructor ()
      ensures Value() == BEGIN
    {
      done, admittedMeanwhile, at, log := false, false, Starting, [];
    }

    /** `wake?.()` */
    method WakeUp()
      modifies this`at
      ensures at == Rouse(old(at))
    {
      if at.Asleep? {
        at := Asleep(true);
      }
    }

    method DispatchWake()
      modifies this
      ensures Value() == After(old(Value()), Wake)
    {
      log := log + [Woken];
      admittedMeanwhile := true;
      WakeUp();
    }

    /** The loop starts, the work having reached its first `await`. */
    method EnterLoop()
      requires at.Starting?
      modifies this
      ensures Value() == After(old(Value()), Begins)
    {
      assert log + [] == log;
      at := Asleep(false);
    }

    method TimerFires()
      requires at.Asleep?
      modifies this
      ensures Value() == After(old(Value()), Timer)
    {
      assert log + [] == log;
      at := Asleep(true);
    }

    method WorkFinished()
      requires !done && !at.Starting?
      modifies this
      ensures Value() == After(old(Value()), WorkEnds)
    {
      assert log + [] == log;
      done := true;
      WakeUp();
    }

    method LeaveLoop()
      modifies this
      ensures var check := FinalCheck(Loop(old(done), old(admittedMeanwhile), old(at)));
              Value() == Run(check.after, old(log) + check.seen)
    {
      log := log + [Checked];
      if admittedMeanwhile {
        assert log + [Started] == old(log) + [Checked, Started];
        log := log + [Started];
        at := InLastPass;
      } else {
        at := Over;
      }
    }

    method Resume()
      requires at == Asleep(true)
      modifies this
      ensures Value() == After(old(Value()), Resumes)
    {
      if done {
        LeaveLoop();
      } else {
        admittedMeanwhile := false;
        log := log + [Started];
        at := InPass;
      }
    }

    method PassFinished()
      requires at.InPass? || at.InLastPass?
      modifies this
      ensures Value() == After(old(Value()), PassEnds)
    {
      log := log + [Ended];
      if at.InLastPass? {
        at := Over;
      } else if done {
        ghost var check := FinalCheck(Loop(done, admittedMeanwhile, at));
        LeaveLoop();
        assert old(log) + [Ended] + check.seen == old(log) + ([Ended] + check.seen);
      } else {
        at := Asleep(false);
      }
    }
  }
}
