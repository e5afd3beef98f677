/**
 * The dead ends of a run. Five exist: an intent left open in cleanup, one left open in a phase that
 * waits or asserts, a preflight with nothing to expose, a cleanup that names a variant with no case
 * result, and a decided action behind which every variant is closed. None of them is ever left.
 */
module LiveDead {
  import opened Common
  import opened LiveState
  import opened LiveJournal
  import opened LiveRunner
  import opened LiveInvariant
  import opened LiveGuarded
  import opened LiveSafety
  import opened LiveOrdered
  import opened LiveProgress
  import opened LiveRecovery
  import opened LiveCalls
  import opened LiveHistories
  import opened Traces

  /** In cleanup with an open intent: the table has no way from cleanup to recovery. */
  ghost predicate Stranded(v: View) {
    v.phase == Some(Cleanup) && Unanswered(v) != {}
  }

  /** Waiting or asserting with an open intent: the table has no way from there to recovery either. */
  ghost predicate Marooned(v: View) {
    (v.phase == Some(Waiting) || v.phase == Some(Assertion)) && Unanswered(v) != {}
  }

  /** In preflight with every variant closed and no intent open: there is no action left to expose. */
  ghost predicate Emptied(cfg: Config, v: View) {
    v.phase == Some(Preflight) && Active(cfg, v).None? && Unanswered(v) == {}
  }

  /** In cleanup of a variant that has no case result: nothing is left to clean. */
  ghost predicate Misnamed(v: View) {
    && v.phase == Some(Cleanup) && NewestUncleaned(v.cases, v.cleaned.Keys).None?
    && v.last.Some? && v.last.value.variant.Some? && v.last.value.variant.value !in v.cleaned
  }

  /** A receipt that decides its variant at once. */
  predicate Decides(receipt: ReceiptOutcome) {
    receipt != AmbiguousReceipt && PrimaryForReceiptOutcome(receipt).Some?
  }

  function ActionsBehind(cfg: Config, ref: Ref): nat {
    if ref.variant in cfg.manifest && ref.index < |cfg.manifest[ref.variant].actions| then
      |cfg.manifest[ref.variant].actions| - ref.index
    else 0
  }

  /**
   * Taking up the receipts from `ref` on, one action after the other, leads to one that decides the
   * variant or to an answer without a receipt.
   */
  predicate Sticks(cfg: Config, answered: set<Ref>, receipts: map<Ref, ReceiptOutcome>, ref: Ref)
    decreases ActionsBehind(cfg, ref)
  {
    && ref in answered
    && (ref in receipts ==>
          || Decides(receipts[ref])
          || (Settles(receipts[ref]) && ActionsBehind(cfg, ref) > 1
               && Sticks(cfg, answered, receipts, ref.Following())))
  }

  /** Every variant is closed and nothing is open, and the shown action's receipts stick. */
  ghost predicate Jammed(cfg: Config, v: View) {
    && v.phase == Some(ActionRequired) && Active(cfg, v).None? && Unanswered(v) == {}
    && v.last.Some? && v.last.value.ref.Some? && Shows(v, v.last.value.ref.value)
    && v.last.value.ref.value in Declared(v) && Sticks(cfg, v.answered, v.receipts, v.last.value.ref.value)
  }

  ghost predicate Dead(cfg: Config, v: View) {
    Stranded(v) || Marooned(v) || Emptied(cfg, v) || Misnamed(v) || Jammed(cfg, v)
  }

  // ---- a dead run stays dead ----

  /** Nothing has been answered or closed, and between phases only the last transition has moved. */
  ghost predicate StillDead(cfg: Config, v: View, v': View) {
    && Dead(cfg, v')
    && v'.answered == v.answered && v'.receipts == v.receipts && v'.cleaned.Keys == v.cleaned.Keys
    && Unanswered(v') == Unanswered(v)
    && (v.phase == Some(Cleanup) || v.phase == Some(Preflight) ==> v' == v.(last := v'.last))
  }

  ghost function StillOf(cfg: Config): (View, Event) -> bool {
    (v, e) => StillDead(cfg, v, Step(v, e))
  }

  ghost predicate Stays(cfg: Config, v: View, out: seq<Event>) {
    Continues(Step, StillOf(cfg), v, out)
  }

  lemma EmitStays(cfg: Config, v: View, e: Event, rest: Call)
    requires StillDead(cfg, v, Step(v, e)) && Stays(cfg, Step(v, e), rest.out)
    ensures Stays(cfg, v, Emit(e, rest).out)
  {
    assert Emit(e, rest).out[1..] == rest.out;
  }

  lemma StillTransitive(cfg: Config, a: View, b: View, c: View)
    requires StillDead(cfg, a, b) && StillDead(cfg, b, c)
    ensures StillDead(cfg, a, c)
  {
  }

  lemma {:induction false} StaysFold(cfg: Config, v: View, out: seq<Event>)
    requires Dead(cfg, v) && Stays(cfg, v, out)
    ensures StillDead(cfg, v, Fold(Step, v, out))
    decreases |out|
  {
    if out != [] {
      var v1 := Step(v, out[0]);
      StaysFold(cfg, v1, out[1..]);
      FoldEmit(v, out[0], Call(out[1..], Thrown(NotAdmitted)));
      assert [out[0]] + out[1..] == out;
      StillTransitive(cfg, v, v1, Fold(Step, v1, out[1..]));
    }
  }

  // ---- a failed doctor ----

  lemma StopStays(cfg: Config, v: View, req: Request, phase: Phase)
    requires Dead(cfg, v) && v.phase == Some(phase)
    ensures Stays(cfg, v, StopForDoctorFailure(cfg, v, req, phase).out)
  {
    if Active(cfg, v).Some? {
      var x := Active(cfg, v).value;
      var t := Transition(phase, Cleanup, Some(x), None, Some(TargetDrift), None);
      var rest := Return(AwaitCleanup(x, Some(TargetDrift)));
      if phase == Cleanup {
        CleanupStays(cfg, v, t);
        EmitStays(cfg, v, Moved(t), rest);
      } else {
        var e := CaseDecided(x, DoctorFailure(req.codes));
        MaroonedStays(cfg, v, x, DoctorFailure(req.codes), t);
        EmitStays(cfg, Step(v, e), Moved(t), rest);
        EmitStays(cfg, v, e, Emit(Moved(t), rest));
      }
    }
  }

  lemma CleanupStays(cfg: Config, v: View, t: Transition)
    requires Dead(cfg, v) && v.phase == Some(Cleanup) && t.from == Cleanup && t.to == Cleanup
    requires t.variant.Some? && t.variant.value !in v.cleaned
    ensures StillDead(cfg, v, Step(v, Moved(t)))
  {
    assert Unanswered(Step(v, Moved(t))) == Unanswered(v);
  }

  lemma MaroonedStays(cfg: Config, v: View, x: VariantId, primary: PrimaryOutcome, t: Transition)
    requires Marooned(v) && v.phase == Some(t.from) && t.to == Cleanup
    ensures var v1 := Step(v, CaseDecided(x, primary));
            StillDead(cfg, v, v1) && StillDead(cfg, v1, Step(v1, Moved(t)))
  {
    var v1 := Step(v, CaseDecided(x, primary));
    assert Unanswered(v1) == Unanswered(v) && Unanswered(Step(v1, Moved(t))) == Unanswered(v);
  }

  // ---- a ready doctor ----

  /** Nothing can follow the doctor record of such a call. */
  lemma QuietDispatch(cfg: Config, v: View, req: Request, phase: Phase)
    requires v.phase == Some(phase) && (Stranded(v) || Marooned(v) || Emptied(cfg, v) || Misnamed(v))
    ensures Dispatch(cfg, v, req, phase).out == []
  {
    if Unanswered(v) != {} {
      OtherIsOpen(v);
    } else {
      NothingPending(v);
    }
  }

  /** A decision of a variant that needs no cleanup, when all are closed, closes it again and throws. */
  lemma DecisionJams(cfg: Config, v: View, req: Request, x: VariantId, primary: PrimaryOutcome)
    requires Light(cfg, x) && x in v.cleaned && Active(cfg, v).None?
    ensures Decide(cfg, v, req, x, primary, ActionRequired)
            == Emit(CaseDecided(x, primary), Emit(CleanupDone(x, NotRequired), Throw(InvalidTransition)))
  {
    var v2 := Step(Step(v, CaseDecided(x, primary)), CleanupDone(x, NotRequired));
    assert v2.cleaned.Keys == v.cleaned.Keys;
    assert ContinueSuite(cfg, v2, req, ActionRequired) == Throw(InvalidTransition);
  }

  lemma DecisionStays(cfg: Config, v: View, req: Request, x: VariantId, primary: PrimaryOutcome)
    requires Jammed(cfg, v) && Light(cfg, x) && x in v.cleaned
    ensures Stays(cfg, v, Decide(cfg, v, req, x, primary, ActionRequired).out)
  {
    DecisionJams(cfg, v, req, x, primary);
    var decided, done := CaseDecided(x, primary), CleanupDone(x, NotRequired);
    RecordStays(cfg, v, decided);
    RecordStays(cfg, Step(v, decided), done);
    EmitStays(cfg, Step(v, decided), done, Throw(InvalidTransition));
    EmitStays(cfg, v, decided, Emit(done, Throw(InvalidTransition)));
  }

  lemma RecordStays(cfg: Config, v: View, e: Event)
    requires Jammed(cfg, v) && (e.CaseDecided? || (e.CleanupDone? && e.variant in v.cleaned))
    ensures Jammed(cfg, Step(v, e)) && StillDead(cfg, v, Step(v, e))
  {
    var v' := Step(v, e);
    assert Declared(v') == Declared(v) && Unanswered(v') == Unanswered(v);
    assert v'.cleaned.Keys == v.cleaned.Keys;
  }

  /** The next action of a settled one is shown again. */
  lemma NextStays(cfg: Config, v: View, req: Request, next: Ref)
    requires Jammed(cfg, v) && Sticks(cfg, v.answered, v.receipts, next)
    ensures Stays(cfg, v, ExposeNextAction(cfg, req, next, ActionRequired).out)
  {
    if next.variant in cfg.manifest && next.index < |cfg.manifest[next.variant].actions| {
      var intent := Intent(next, cfg.manifest[next.variant].actions[next.index].id);
      var e := IntentDeclared(intent);
      var t := Transition(ActionRequired, ActionRequired, Some(next.variant), Some(next), None, None);
      IntentStays(cfg, v, intent);
      ShowStays(cfg, Step(v, e), t, next);
      EmitStays(cfg, Step(v, e), Moved(t), ShowAction(cfg, req, intent));
      EmitStays(cfg, v, e, Move(t, ShowAction(cfg, req, intent)));
    }
  }

  lemma IntentStays(cfg: Config, v: View, intent: Intent)
    requires Jammed(cfg, v) && intent.ref in v.answered
    ensures var v' := Step(v, IntentDeclared(intent));
            Jammed(cfg, v') && intent.ref in Declared(v') && StillDead(cfg, v, v')
  {
    DeclaredStep(v, IntentDeclared(intent));
    assert Unanswered(Step(v, IntentDeclared(intent))) == {};
  }

  lemma ShowStays(cfg: Config, v: View, t: Transition, next: Ref)
    requires Jammed(cfg, v) && Sticks(cfg, v.answered, v.receipts, next) && next in Declared(v)
    requires t.from == ActionRequired && t.to == ActionRequired && t.ref == Some(next)
    ensures StillDead(cfg, v, Step(v, Moved(t)))
  {
    var v' := Step(v, Moved(t));
    assert Declared(v') == Declared(v) && Unanswered(v') == {};
  }

  lemma JammedSettles(cfg: Config, v: View, req: Request, ref: Ref)
    requires Jammed(cfg, v) && v.last.value.ref.value == ref && ref in v.receipts
    requires Light(cfg, ref.variant) && ref.variant in v.cleaned
    ensures Stays(cfg, v, SettleReceipt(cfg, v, req, ref, v.receipts[ref]).out)
  {
    match PrimaryForReceiptOutcome(v.receipts[ref])
    case Some(primary) => DecisionStays(cfg, v, req, ref.variant, primary);
    case None => NextStays(cfg, v, req, ref.Following());
  }

  lemma JammedDispatch(cfg: Config, v: View, req: Request)
    requires Located(cfg, v) && PhaseFacts(cfg, v) && Jammed(cfg, v)
    ensures Stays(cfg, v, Dispatch(cfg, v, req, ActionRequired).out)
  {
    NothingPending(v);
    var ref := v.last.value.ref.value;
    assert Dispatch(cfg, v, req, ActionRequired) == ResumeDurableReceipt(cfg, v, req);
    if ref in v.receipts {
      JammedSettles(cfg, v, req, ref);
    }
  }

  // ---- every act ----

  lemma DeadAppends(cfg: Config, v: View, req: Request)
    requires Inv(cfg, v) && Dead(cfg, v)
    ensures Stays(cfg, v, Advance(cfg, v, req).out)
  {
    if req.admitted {
      var phase, doctor := v.phase.value, DoctorChecked(req.ready, req.codes);
      if !req.ready {
        StopStays(cfg, v, req, phase);
      } else if Jammed(cfg, v) {
        JammedDispatch(cfg, v, req);
      } else {
        QuietDispatch(cfg, v, req, phase);
      }
      EmitStays(cfg, v, doctor, AfterDoctor(cfg, v, req, phase));
    }
  }

  lemma DeadCall(cfg: Config, v: View, req: Request, cut: nat)
    requires Inv(cfg, v) && Dead(cfg, v)
    ensures StillDead(cfg, v, Fold(Step, v, Cut(Advance(cfg, v, req).out, cut)))
  {
    var out := Advance(cfg, v, req).out;
    DeadAppends(cfg, v, req);
    if cut < |out| {
      CutContinues(Step, StillOf(cfg), v, out, cut);
    }
    StaysFold(cfg, v, Cut(out, cut));
  }

  lemma DeadAct(cfg: Config, j: Journal, act: Act)
    requires Inv(cfg, ViewOf(j)) && Dead(cfg, ViewOf(j))
    ensures Apply(cfg, Some(j), act).Some? && StillDead(cfg, ViewOf(j), ViewOf(Apply(cfg, Some(j), act).value))
  {
    match act
    case Create =>
    case Note => ViewSnoc(j, LedgerNote);
    case Invoke(req, cut) =>
      DeadCall(cfg, ViewOf(j), req, cut);
      FoldAppend(Step, START, j, Cut(Advance(cfg, ViewOf(j), req).out, cut));
  }

  /** No later call, signal, doctor or crash brings a dead run on: it answers nothing, closes nothing and stays dead. */
  lemma {:induction false} DeadForever(cfg: Config, acts: seq<Act>, later: seq<Act>)
    requires ValidConfig(cfg) && History(cfg, acts).Some? && Dead(cfg, ViewOf(History(cfg, acts).value))
    ensures History(cfg, acts + later).Some?
    ensures StillDead(cfg, ViewOf(History(cfg, acts).value), ViewOf(History(cfg, acts + later).value))
    decreases |later|
  {
    if later == [] {
      assert acts + later == acts;
    } else {
      var init, act := later[..|later| - 1], later[|later| - 1];
      DeadForever(cfg, acts, init);
      LaterSnoc(cfg, acts, later);
      var j := History(cfg, acts + init).value;
      DeadOnce(cfg, acts + init, j, act);
      StillTransitive(cfg, ViewOf(History(cfg, acts).value), ViewOf(j), ViewOf(Apply(cfg, Some(j), act).value));
    }
  }

  lemma DeadOnce(cfg: Config, acts: seq<Act>, j: Journal, act: Act)
    requires ValidConfig(cfg) && History(cfg, acts) == Some(j) && Dead(cfg, ViewOf(j))
    ensures Apply(cfg, Some(j), act).Some? && StillDead(cfg, ViewOf(j), ViewOf(Apply(cfg, Some(j), act).value))
  {
    ReachableLegal(cfg, j);
    DeadAct(cfg, j, act);
  }

  lemma {:induction false} DeadNeverFinishes(cfg: Config, v: View, reqs: seq<Request>)
    requires ValidConfig(cfg) && Inv(cfg, v) && Dead(cfg, v)
    ensures EndOf(cfg, v, reqs).phase != Some(Complete)
    decreases |reqs|
  {
    if reqs != [] {
      DeadCall(cfg, v, reqs[0], |Advance(cfg, v, reqs[0]).out|);
      CallKeepsInv(cfg, v, reqs[0], |Advance(cfg, v, reqs[0]).out|);
      DeadNeverFinishes(cfg, After(cfg, v, reqs[0]), reqs[1..]);
    }
  }

  // ---- what a failed doctor does ----

  /** A failed doctor ends a live run in exactly these cases. */
  ghost predicate DoctorKills(cfg: Config, v: View) {
    && Active(cfg, v).Some?
    && (|| ((v.phase == Some(ActionRequired) || v.phase == Some(Recovery)) && Unanswered(v) != {})
        || (v.phase == Some(Cleanup) && NewestUncleaned(v.cases, v.cleaned.Keys).None?))
  }

  lemma DoctorFailureKillsExactly(cfg: Config, j: Journal, req: Request)
    requires ValidConfig(cfg) && Reachable(cfg, j) && req.admitted && !req.ready && !Dead(cfg, ViewOf(j))
    ensures Dead(cfg, ViewOf(j + Advance(cfg, ViewOf(j), req).out)) <==> DoctorKills(cfg, ViewOf(j))
  {
    var v := ViewOf(j);
    ReachableLegal(cfg, j);
    FoldAppend(Step, START, j, Advance(cfg, v, req).out);
    DoctorOutcome(cfg, v, req);
  }

  lemma DoctorOutcome(cfg: Config, v: View, req: Request)
    requires v.phase.Some? && req.admitted && !req.ready && !Dead(cfg, v)
    ensures Dead(cfg, After(cfg, v, req)) <==> DoctorKills(cfg, v)
  {
    if v.phase == Some(Complete) {
      FinishedAppends(cfg, v, req);
      FinishedFold(v, Advance(cfg, v, req).out);
    } else if Active(cfg, v).None? {
      assert Advance(cfg, v, req).out == [DoctorChecked(false, req.codes)];
      FoldOne(Step, v, DoctorChecked(false, req.codes));
    } else {
      var x := Active(cfg, v).value;
      StopView(cfg, v, req, x);
      StopOutcome(cfg, v, After(cfg, v, req), x, DoctorFailure(req.codes));
    }
  }

  lemma StopOutcome(cfg: Config, v: View, v': View, x: VariantId, primary: PrimaryOutcome)
    requires !Dead(cfg, v) && v.phase.Some? && v.phase != Some(Complete) && Active(cfg, v) == Some(x)
    requires v'.intents == v.intents && v'.answered == v.answered && v'.cleaned == v.cleaned
    requires v'.cases == if v.phase == Some(Cleanup) then v.cases else v.cases + [CaseRow(x, primary)]
    requires v'.phase == if v.phase == Some(Preflight) then Some(Preflight) else Some(Cleanup)
    requires v.phase != Some(Preflight) ==> v'.last.Some? && v'.last.value.variant == Some(x)
    ensures Dead(cfg, v') <==> DoctorKills(cfg, v)
  {
    assert Unanswered(v') == Unanswered(v);
    assert Active(cfg, v') == Active(cfg, v);
    if v.phase != Some(Cleanup) {
      assert CaseRow(x, primary) in v'.cases;
    }
    match v.phase.value
    case Preflight =>
    case _ =>
  }
}
