/** Every append of every call keeps the order, and so does every journal of a run. */
module LiveOrdered {
  import opened Common
  import opened LiveState
  import opened LiveJournal
  import opened LiveRunner
  import opened LiveInvariant
  import opened LiveGuarded
  import opened LiveSafety
  import opened LiveOrder
  import opened Traces

  ghost function OrderOf(cfg: Config): (View, Event) -> bool {
    (v, e) => Order(cfg, v, e)
  }

  ghost predicate InOrder(cfg: Config, v: View, out: seq<Event>) {
    Continues(Step, OrderOf(cfg), v, out)
  }

  lemma EmitInOrder(cfg: Config, v: View, e: Event, rest: Call)
    requires Order(cfg, v, e) && InOrder(cfg, Step(v, e), rest.out)
    ensures InOrder(cfg, v, Emit(e, rest).out)
  {
    assert Emit(e, rest).out[1..] == rest.out;
  }

  /** A transition that ends the call. */
  lemma LastMoveInOrder(cfg: Config, v: View, t: Transition, rest: Call)
    requires rest.out == [] && (Allowed(t.from, t.to) ==> OrderMove(cfg, v, t))
    ensures InOrder(cfg, v, Move(t, rest).out)
  {
    if Allowed(t.from, t.to) {
      EmitInOrder(cfg, v, Moved(t), rest);
    }
  }

  lemma ExposeInOrder(cfg: Config, v: View, req: Request, ref: Ref, phase: Phase)
    requires v.phase == Some(phase) && OrderIntent(cfg, v, ref) && (ref in v.answered ==> ref in v.receipts)
    ensures InOrder(cfg, v, ExposeNextAction(cfg, req, ref, phase).out)
  {
    if ref.variant in cfg.manifest && ref.index < |cfg.manifest[ref.variant].actions| {
      var intent := Intent(ref, cfg.manifest[ref.variant].actions[ref.index].id);
      var e := IntentDeclared(intent);
      var v1 := Step(v, e);
      DeclaredStep(v, e);
      SameCurrent(cfg, v, v1);
      assert Unanswered(v1) <= {ref};
      var t := Transition(phase, ActionRequired, Some(ref.variant), Some(ref), None, None);
      LastMoveInOrder(cfg, v1, t, ShowAction(cfg, req, intent));
      EmitInOrder(cfg, v, e, Move(t, ShowAction(cfg, req, intent)));
    }
  }

  lemma FinishInOrder(cfg: Config, v: View, phase: Phase)
    requires v.phase == Some(phase)
    ensures InOrder(cfg, v, FinishRun(cfg, v, phase).out)
  {
    if Allowed(phase, Complete) {
      var t := Transition(phase, Complete, None, None, None, None);
      var report := Report(cfg, v);
      EmitInOrder(cfg, Step(v, Moved(t)), RunDecided(report.aggregate), Return(Finished(report)));
      EmitInOrder(cfg, v, Moved(t), Emit(RunDecided(report.aggregate), Return(Finished(report))));
    }
  }

  /** From cleanup, or with nothing left to do. */
  lemma SuiteInOrder(cfg: Config, v: View, req: Request, phase: Phase)
    requires v.phase == Some(phase)
    requires Active(cfg, v).Some? ==>
               && phase == Cleanup && Unanswered(v) == {}
               && forall r :: r in v.answered ==> r.variant != Active(cfg, v).value
    ensures InOrder(cfg, v, ContinueSuite(cfg, v, req, phase).out)
  {
    match Active(cfg, v)
    case Some(x) => ExposeInOrder(cfg, v, req, Ref(x, 0, 1), phase);
    case None => FinishInOrder(cfg, v, phase);
  }

  /** Closing the last variant in the middle of its work ends the run. */
  lemma CloseInOrder(cfg: Config, v: View, req: Request, x: VariantId, phase: Phase)
    requires ValidConfig(cfg) && CleanedPrefix(cfg, v) && v.phase == Some(phase)
    requires Some(x) == Current(cfg, v) && IsLast(cfg, x)
    ensures var done := CleanupDone(x, NotRequired);
            InOrder(cfg, v, Emit(done, ContinueSuite(cfg, Step(v, done), req, phase)).out)
  {
    var done := CleanupDone(x, NotRequired);
    var v1 := Step(v, done);
    assert v1.cleaned.Keys == v.cleaned.Keys + {x};
    CloseLast(cfg, v, v1, x);
    SuiteInOrder(cfg, v1, req, phase);
    EmitInOrder(cfg, v, done, ContinueSuite(cfg, v1, req, phase));
  }

  lemma DecideInOrder(cfg: Config, v: View, req: Request, x: VariantId, primary: PrimaryOutcome, phase: Phase)
    requires ValidConfig(cfg) && CleansBeforeLast(cfg) && Ordered(cfg, v) && v.phase == Some(phase)
    requires Some(x) == Current(cfg, v)
    ensures InOrder(cfg, v, Decide(cfg, v, req, x, primary, phase).out)
  {
    var e := CaseDecided(x, primary);
    var v1 := Step(v, e);
    SameCurrent(cfg, v, v1);
    ActiveIsListed(cfg, v);
    if !NeedsCleanup(cfg.manifest[x]) {
      UncleanedIsLast(cfg, x);
      CloseInOrder(cfg, v1, req, x, phase);
    } else {
      assert CaseRow(x, primary) in v1.cases;
      LastMoveInOrder(cfg, v1, Transition(phase, Cleanup, Some(x), None, primary.reason, None),
                      Return(AwaitCleanup(x, primary.reason)));
    }
    EmitInOrder(cfg, v, e, EnterCleanupOrContinue(cfg, v1, req, x, primary, phase));
  }

  /** A receipt that counts, of the shown action or one behind it, with nothing open. */
  ghost predicate Settling(cfg: Config, v: View, ref: Ref) {
    && v.phase == Some(ActionRequired) && v.last.Some? && v.last.value.ref.Some?
    && Unanswered(v) == {} && ref in v.receipts && Some(ref.variant) == Current(cfg, v)
    && (ref == v.last.value.ref.value || Behind(v, v.last.value.ref.value, ref))
  }

  lemma AfterCompletedInOrder(cfg: Config, v: View, req: Request, ref: Ref)
    requires Ordered(cfg, v) && Settling(cfg, v, ref) && Settles(v.receipts[ref])
    ensures InOrder(cfg, v, AfterCompletedAction(cfg, req, ref, ActionRequired).out)
  {
    if ref.variant in cfg.manifest {
      if ref.index + 1 < |cfg.manifest[ref.variant].actions| {
        ExposeInOrder(cfg, v, req, ref.Following(), ActionRequired);
      } else if ref.variant in req.notBefore && req.now < req.notBefore[ref.variant] {
        var nb := req.notBefore[ref.variant];
        LastMoveInOrder(cfg, v, Transition(ActionRequired, Waiting, Some(ref.variant), None, None, Some(nb)),
                        Return(AwaitWindow(ref.variant, nb)));
      } else {
        LastMoveInOrder(cfg, v, Transition(ActionRequired, Assertion, Some(ref.variant), None, None, None),
                        Return(AskAssertion(ref.variant, cfg.manifest[ref.variant].tokens)));
      }
    }
  }

  lemma SettleInOrder(cfg: Config, v: View, req: Request, ref: Ref)
    requires ValidConfig(cfg) && CleansBeforeLast(cfg) && Ordered(cfg, v) && Settling(cfg, v, ref)
    ensures InOrder(cfg, v, SettleReceipt(cfg, v, req, ref, v.receipts[ref]).out)
  {
    var receipt := v.receipts[ref];
    if receipt == AmbiguousReceipt {
      LastMoveInOrder(cfg, v,
        Transition(ActionRequired, Recovery, Some(ref.variant), Some(ref), Some(AmbiguousMutation), None),
        Return(AwaitReadback(ref.variant, ref)));
    } else {
      match PrimaryForReceiptOutcome(receipt)
      case Some(primary) => DecideInOrder(cfg, v, req, ref.variant, primary, ActionRequired);
      case None => AfterCompletedInOrder(cfg, v, req, ref);
    }
  }

  lemma ReceiptInOrder(cfg: Config, v: View, req: Request, ref: Ref, receipt: ReceiptOutcome)
    requires ValidConfig(cfg) && CleansBeforeLast(cfg) && Ordered(cfg, v)
    requires v.phase == Some(ActionRequired) && ref in Unanswered(v) && v.receipts.Keys <= v.answered
    ensures var e := ReceiptTaken(ref, receipt);
            InOrder(cfg, v, Emit(e, SettleReceipt(cfg, Step(v, e), req, ref, receipt)).out)
  {
    var e := ReceiptTaken(ref, receipt);
    var v1 := Step(v, e);
    ReceiptKeepsOrder(cfg, v, ref, receipt);
    SameCurrent(cfg, v, v1);
    SettleInOrder(cfg, v1, req, ref);
    EmitInOrder(cfg, v, e, SettleReceipt(cfg, v1, req, ref, receipt));
  }

  lemma PendingInOrder(cfg: Config, v: View, req: Request, intent: Intent)
    requires ValidConfig(cfg) && CleansBeforeLast(cfg) && Ordered(cfg, v)
    requires v.phase == Some(ActionRequired) && v.receipts.Keys <= v.answered
    requires intent in v.intents && intent.ref !in v.answered
    ensures InOrder(cfg, v, ContinuePendingAction(cfg, v, req, intent).out)
  {
    var ref := intent.ref;
    assert ref in Declared(v) && ref in Unanswered(v);
    match req.signal
    case None =>
      LastMoveInOrder(cfg, v, Transition(ActionRequired, ActionRequired, Some(ref.variant), Some(ref), None, None),
                      ShowAction(cfg, req, intent));
    case Some(ActionReceipt(target, receipt)) => ReceiptInOrder(cfg, v, req, ref, receipt);
    case Some(_) =>
  }

  lemma RetryInOrder(cfg: Config, v: View, req: Request, ref: Ref)
    requires Ordered(cfg, v) && v.phase == Some(Recovery) && v.last.Some? && v.last.value.ref == Some(ref)
    requires v.last.value.variant == Some(ref.variant) && Unanswered(v) <= {ref.Retry()} && ref.attempt >= 1
    ensures InOrder(cfg, v, ExposeNextAction(cfg, req, ref.Retry(), Recovery).out)
  {
    ExposeInOrder(cfg, v, req, ref.Retry(), Recovery);
  }

  lemma ReadbackInOrder(cfg: Config, v: View, req: Request, ref: Ref, readback: ReadbackOutcome)
    requires ValidConfig(cfg) && CleansBeforeLast(cfg) && Ordered(cfg, v)
    requires v.phase == Some(Recovery) && v.last.Some? && v.last.value.ref == Some(ref)
    requires v.last.value.variant == Some(ref.variant) && ref.attempt >= 1
    ensures var e := ReadbackTaken(ref, readback);
            InOrder(cfg, v, Emit(e, AfterReadback(cfg, Step(v, e), req, ref, readback)).out)
  {
    var e := ReadbackTaken(ref, readback);
    var v1 := Step(v, e);
    ReadbackKeepsOrder(cfg, v, ref, readback);
    SameCurrent(cfg, v, v1);
    match readback
    case Absent => RetryInOrder(cfg, v1, req, ref);
    case Failed => DecideInOrder(cfg, v1, req, ref.variant, PrimaryOutcome(Fail, Some(AssertionFailed)), Recovery);
    case _ => DecideInOrder(cfg, v1, req, ref.variant, PrimaryOutcome(Ambiguous, Some(AmbiguousMutation)), Recovery);
    EmitInOrder(cfg, v, e, AfterReadback(cfg, v1, req, ref, readback));
  }

  lemma RecoveryInOrder(cfg: Config, v: View, req: Request, ref: Ref)
    requires ValidConfig(cfg) && CleansBeforeLast(cfg) && Ordered(cfg, v) && Basic(cfg, v)
    requires v.phase == Some(Recovery) && v.last.Some? && v.last.value.ref == Some(ref)
    ensures InOrder(cfg, v, ContinueRecovery(cfg, v, req, ref).out)
  {
    DeclaredIsJustified(cfg, v, ref);
    match req.signal
    case None =>
      LastMoveInOrder(cfg, v,
        Transition(Recovery, Recovery, Some(ref.variant), Some(ref), Some(AmbiguousMutation), None),
        Return(AwaitReadback(ref.variant, ref)));
    case Some(ReadbackResult(target, readback)) =>
      if target == ref {
        ReadbackInOrder(cfg, v, req, ref, readback);
      }
    case Some(_) =>
  }

  lemma WaitInOrder(cfg: Config, v: View, req: Request)
    requires Ordered(cfg, v) && v.phase == Some(Waiting)
    ensures InOrder(cfg, v, ContinueObservationWait(cfg, v, req).out)
  {
    if req.signal.None? && v.last.value.notBefore.Some? && v.last.value.variant.Some? {
      var x, nb := v.last.value.variant.value, v.last.value.notBefore.value;
      if req.now < nb {
        LastMoveInOrder(cfg, v, Transition(Waiting, Waiting, Some(x), None, None, Some(nb)),
          Return(AwaitWindow(x, nb)));
      } else {
        LastMoveInOrder(cfg, v, Transition(Waiting, Assertion, Some(x), None, None, None),
                        if x in cfg.manifest then Return(AskAssertion(x, cfg.manifest[x].tokens))
                        else Throw(SelectionDrift));
      }
    }
  }

  lemma AssertionInOrder(cfg: Config, v: View, req: Request)
    requires ValidConfig(cfg) && CleansBeforeLast(cfg) && Ordered(cfg, v) && v.phase == Some(Assertion)
    ensures InOrder(cfg, v, RecordAssertion(cfg, v, req).out)
  {
    if req.signal.Some? && req.signal.value.AssertionResult?
       && Some(req.signal.value.variant) == v.last.value.variant {
      var AssertionResult(x, primary) := req.signal.value;
      DecideInOrder(cfg, v, req, x, primary, Assertion);
      EmitInOrder(cfg, v, AssertionMade(x, primary), Decide(cfg, v, req, x, primary, Assertion));
    }
  }

  /** In cleanup, an active variant without a case result has no answers. */
  lemma NoAnswersYet(cfg: Config, v: View, y: VariantId)
    requires Sourced(cfg, v) && v.phase == Some(Cleanup) && y !in v.cleaned && !Decided(v, y)
    ensures forall r :: r in v.answered ==> r.variant != y
  {
  }

  /** The cleanup of the awaited variant, and the step to the next. */
  lemma CleanInOrder(cfg: Config, v: View, req: Request, x: VariantId, cleanup: CleanupResult)
    requires ValidConfig(cfg) && Located(cfg, v) && Ordered(cfg, v) && v.phase == Some(Cleanup)
    requires Unanswered(v) == {} && x !in v.cleaned && Decided(v, x)
    ensures var e := CleanupDone(x, cleanup);
            InOrder(cfg, v, Emit(e, ContinueSuite(cfg, Step(v, e), req, Cleanup)).out)
  {
    var e := CleanupDone(x, cleanup);
    var v1 := Step(v, e);
    var c :| c in v.cases && c.variant == x;
    assert Some(x) == Current(cfg, v);
    assert v1.cleaned.Keys == v.cleaned.Keys + {x};
    assert Unanswered(v1) == {};
    if Active(cfg, v1).Some? {
      var y := Active(cfg, v1).value;
      ActiveIsListed(cfg, v1);
      forall d | d in v.cases ensures d.variant != y {
      }
      NoAnswersYet(cfg, v, y);
    }
    SuiteInOrder(cfg, v1, req, Cleanup);
    EmitInOrder(cfg, v, e, ContinueSuite(cfg, v1, req, Cleanup));
  }

  lemma CleanupInOrder(cfg: Config, v: View, req: Request)
    requires ValidConfig(cfg) && Located(cfg, v) && Ordered(cfg, v) && v.phase == Some(Cleanup)
    requires NewestUnanswered(v.intents, v.answered).None?
    ensures InOrder(cfg, v, RecordCleanup(cfg, v, req).out)
  {
    assert Unanswered(v) == {};
    match NewestUncleaned(v.cases, v.cleaned.Keys)
    case None =>
      if Active(cfg, v).Some? {
        ActiveIsListed(cfg, v);
        NoAnswersYet(cfg, v, Active(cfg, v).value);
      }
      SuiteInOrder(cfg, v, req, Cleanup);
    case Some(x) =>
      if req.signal.None? && req.cleanup.Postflight? {
        CleanInOrder(cfg, v, req, x, if req.cleanup.pass then CleanupPassed else CleanupFailed);
      }
  }

  lemma StopInOrder(cfg: Config, v: View, req: Request, phase: Phase)
    requires Ordered(cfg, v) && v.phase == Some(phase)
    ensures InOrder(cfg, v, StopForDoctorFailure(cfg, v, req, phase).out)
  {
    match Active(cfg, v)
    case None =>
    case Some(x) =>
      var t := Transition(phase, Cleanup, Some(x), None, Some(TargetDrift), None);
      var rest := Return(AwaitCleanup(x, Some(TargetDrift)));
      if phase == Cleanup {
        LastMoveInOrder(cfg, v, t, rest);
      } else {
        var e := CaseDecided(x, DoctorFailure(req.codes));
        SameCurrent(cfg, v, Step(v, e));
        assert CaseRow(x, e.primary) in Step(v, e).cases;
        LastMoveInOrder(cfg, Step(v, e), t, rest);
        EmitInOrder(cfg, v, e, Move(t, rest));
      }
  }

  lemma DurableInOrder(cfg: Config, v: View, req: Request)
    requires ValidConfig(cfg) && CleansBeforeLast(cfg) && Ordered(cfg, v) && Basic(cfg, v)
    requires v.phase == Some(ActionRequired) && NewestUnanswered(v.intents, v.answered).None?
    ensures InOrder(cfg, v, ResumeDurableReceipt(cfg, v, req).out)
  {
    assert Unanswered(v) == {};
    if v.last.value.ref.value in v.receipts {
      SettleInOrder(cfg, v, req, v.last.value.ref.value);
    }
  }

  lemma OutstandingInOrder(cfg: Config, v: View, intent: Intent, phase: Phase)
    requires Ordered(cfg, v) && v.phase == Some(phase) && phase != ActionRequired && phase != Recovery
    requires intent in v.intents && intent.ref !in v.answered
    ensures InOrder(cfg, v, EnterReadbackRecovery(intent.ref, phase).out)
  {
    var ref := intent.ref;
    assert ref in Declared(v) && ref in Unanswered(v);
    LastMoveInOrder(cfg, v, Transition(phase, Recovery, Some(ref.variant), Some(ref), Some(AmbiguousMutation), None),
                    Return(AwaitReadback(ref.variant, ref)));
  }

  lemma PreflightInOrder(cfg: Config, v: View, req: Request, x: VariantId)
    requires Ordered(cfg, v) && v.phase == Some(Preflight) && Active(cfg, v) == Some(x)
    requires NewestUnanswered(v.intents, v.answered).None?
    ensures InOrder(cfg, v, ExposeNextAction(cfg, req, Ref(x, 0, 1), Preflight).out)
  {
    assert Unanswered(v) == {};
    ExposeInOrder(cfg, v, req, Ref(x, 0, 1), Preflight);
  }

  lemma DispatchInOrder(cfg: Config, v: View, req: Request, phase: Phase)
    requires ValidConfig(cfg) && CleansBeforeLast(cfg) && Ordered(cfg, v) && Inv(cfg, v)
    requires v.phase == Some(phase) && phase != Complete
    ensures InOrder(cfg, v, Dispatch(cfg, v, req, phase).out)
  {
    var outstanding := NewestUnanswered(v.intents, v.answered);
    if outstanding.Some? && phase != ActionRequired && phase != Recovery {
      OutstandingInOrder(cfg, v, outstanding.value, phase);
    } else {
      match phase
      case Recovery => RecoveryInOrder(cfg, v, req, v.last.value.ref.value);
      case ActionRequired =>
        if outstanding.Some? {
          PendingInOrder(cfg, v, req, outstanding.value);
        } else {
          DurableInOrder(cfg, v, req);
        }
      case Waiting => WaitInOrder(cfg, v, req);
      case Assertion => AssertionInOrder(cfg, v, req);
      case Cleanup => CleanupInOrder(cfg, v, req);
      case Preflight =>
        if Active(cfg, v).Some? {
          PreflightInOrder(cfg, v, req, Active(cfg, v).value);
        }
    }
  }

  /** Any prefix of what a resumed call appends keeps the order. */
  lemma AdvanceInOrder(cfg: Config, v: View, req: Request)
    requires ValidConfig(cfg) && CleansBeforeLast(cfg) && Ordered(cfg, v) && Inv(cfg, v)
    ensures InOrder(cfg, v, Advance(cfg, v, req).out)
  {
    if req.admitted {
      if v.phase.value == Complete {
        var report := Report(cfg, v);
        EmitInOrder(cfg, v, RunDecided(report.aggregate), Return(Finished(report)));
      } else {
        var phase, e := v.phase.value, DoctorChecked(req.ready, req.codes);
        DispatchInOrder(cfg, v, req, phase);
        StopInOrder(cfg, v, req, phase);
        EmitInOrder(cfg, v, e, AfterDoctor(cfg, v, req, phase));
      }
    }
  }

  // ---- the first call ----

  /** The next variant to block is the one at work, and closing it moves the prefix on. */
  lemma BlockedNext(cfg: Config, v: View, primary: PrimaryOutcome, k: nat)
    requires ValidConfig(cfg) && k < |cfg.variants| && v.cleaned.Keys == Elements(cfg.variants[..k])
    ensures Current(cfg, v) == Some(cfg.variants[k])
    ensures var decided, done := CaseDecided(cfg.variants[k], primary), CleanupDone(cfg.variants[k], NotRequired);
            Step(Step(v, decided), done).cleaned.Keys == Elements(cfg.variants[..k + 1])
  {
    FirstOutsidePrefix(cfg.variants, k);
    ElementsSnoc(cfg.variants, k);
  }

  lemma BlockOneInOrder(cfg: Config, v: View, primary: PrimaryOutcome, x: VariantId)
    requires ValidConfig(cfg) && Ordered(cfg, v) && v.phase == Some(Preflight) && v.intents == []
    requires Current(cfg, v) == Some(x)
    ensures var decided, done := CaseDecided(x, primary), CleanupDone(x, NotRequired);
            Order(cfg, Step(v, decided), done) && Ordered(cfg, Step(Step(v, decided), done))
  {
    var v1 := Step(v, CaseDecided(x, primary));
    CaseKeepsOrder(cfg, v, x, primary);
    SameCurrent(cfg, v, v1);
    CloseOneInOrder(cfg, v1, x);
  }

  lemma CloseOneInOrder(cfg: Config, v: View, x: VariantId)
    requires ValidConfig(cfg) && Ordered(cfg, v) && v.phase == Some(Preflight) && v.intents == []
    requires Some(x) == Current(cfg, v)
    ensures Order(cfg, v, CleanupDone(x, NotRequired)) && Ordered(cfg, Step(v, CleanupDone(x, NotRequired)))
  {
    assert Unanswered(v) == {};
    if IsLast(cfg, x) {
      CloseLate(cfg, v, x, NotRequired);
    } else {
      CloseEarly(cfg, v, x, NotRequired);
    }
  }

  lemma {:induction false} BlockInOrder(cfg: Config, v: View, primary: PrimaryOutcome, k: nat)
    requires ValidConfig(cfg) && Ordered(cfg, v) && v.phase == Some(Preflight) && v.intents == []
    requires k <= |cfg.variants| && v.cleaned.Keys == Elements(cfg.variants[..k])
    ensures InOrder(cfg, v, BlockFrom(cfg, v, primary, cfg.variants[k..]).out)
    decreases |cfg.variants| - k
  {
    if k == |cfg.variants| {
      FinishInOrder(cfg, v, Preflight);
    } else {
      var x := cfg.variants[k];
      assert cfg.variants[k..][0] == x && cfg.variants[k..][1..] == cfg.variants[k + 1..];
      BlockedNext(cfg, v, primary, k);
      BlockOneInOrder(cfg, v, primary, x);
      var decided, done := CaseDecided(x, primary), CleanupDone(x, NotRequired);
      var v1 := Step(v, decided);
      BlockInOrder(cfg, Step(v1, done), primary, k + 1);
      var rest := BlockFrom(cfg, Step(v1, done), primary, cfg.variants[k + 1..]);
      EmitInOrder(cfg, v1, done, rest);
      EmitInOrder(cfg, v, decided, Emit(done, rest));
    }
  }

  lemma BeginInOrder(cfg: Config, req: Request)
    requires ValidConfig(cfg)
    ensures InOrder(cfg, START, Begin(cfg, req).out)
  {
    StartIsOrdered(cfg);
    if req.admitted && req.signal.None? {
      var e := DoctorChecked(req.ready, req.codes);
      assert cfg.variants[..0] == [] && cfg.variants[0..] == cfg.variants;
      assert START.cleaned.Keys == Elements(cfg.variants[..0]);
      if !req.ready {
        BlockInOrder(cfg, START, DoctorFailure(req.codes), 0);
        EmitInOrder(cfg, START, e, BlockFrom(cfg, START, DoctorFailure(req.codes), cfg.variants));
      } else if cfg.variants != [] {
        FirstOutsidePrefix(cfg.variants, 0);
        PreflightInOrder(cfg, START, req, cfg.variants[0]);
        EmitInOrder(cfg, START, e, ExposeNextAction(cfg, req, Ref(cfg.variants[0], 0, 1), Preflight));
      } else {
        EmitInOrder(cfg, START, e, Throw(SelectionDrift));
      }
    }
  }

  // ---- whole runs ----

  /** Both grammars along a journal keep both invariants. */
  lemma {:induction false} BothKept(cfg: Config, v: View, out: seq<Event>)
    requires ValidConfig(cfg) && Inv(cfg, v) && Ordered(cfg, v) && Guarded(cfg, v, out) && InOrder(cfg, v, out)
    ensures Inv(cfg, Fold(Step, v, out)) && Ordered(cfg, Fold(Step, v, out))
    decreases |out|
  {
    if out != [] {
      KeepsInv(cfg, v, out[0]);
      KeepsOrder(cfg, v, out[0]);
      BothKept(cfg, Step(v, out[0]), out[1..]);
      FoldOne(Step, v, out[0]);
      FoldAppend(Step, v, [out[0]], out[1..]);
      assert [out[0]] + out[1..] == out;
    }
  }

  lemma CutKept(cfg: Config, v: View, out: seq<Event>, cut: nat)
    requires ValidConfig(cfg) && Inv(cfg, v) && Ordered(cfg, v) && Guarded(cfg, v, out) && InOrder(cfg, v, out)
    ensures Inv(cfg, Fold(Step, v, Cut(out, cut))) && Ordered(cfg, Fold(Step, v, Cut(out, cut)))
  {
    if cut < |out| {
      CutContinues(Step, GuardOf(cfg), v, out, cut);
      CutContinues(Step, OrderOf(cfg), v, out, cut);
    }
    BothKept(cfg, v, Cut(out, cut));
  }

  /** Whatever happens, the journal keeps the order. */
  lemma {:induction false} HistoryIsOrdered(cfg: Config, acts: seq<Act>)
    requires ValidConfig(cfg) && CleansBeforeLast(cfg)
    ensures History(cfg, acts).Some? ==>
              Inv(cfg, ViewOf(History(cfg, acts).value)) && Ordered(cfg, ViewOf(History(cfg, acts).value))
    decreases |acts|
  {
    if acts != [] {
      HistoryIsOrdered(cfg, acts[..|acts| - 1]);
      var before, act := History(cfg, acts[..|acts| - 1]), acts[|acts| - 1];
      StartHasInv(cfg);
      StartIsOrdered(cfg);
      if before.None? {
        if act.Invoke? {
          BeginGuarded(cfg, act.req);
          BeginInOrder(cfg, act.req);
          CutKept(cfg, START, Begin(cfg, act.req).out, if act.cut > 0 then act.cut - 1 else 0);
        }
      } else {
        ActIsOrdered(cfg, before.value, act);
      }
    }
  }

  lemma ActIsOrdered(cfg: Config, j: Journal, act: Act)
    requires ValidConfig(cfg) && CleansBeforeLast(cfg) && Inv(cfg, ViewOf(j)) && Ordered(cfg, ViewOf(j))
    ensures var next := Apply(cfg, Some(j), act).value; Inv(cfg, ViewOf(next)) && Ordered(cfg, ViewOf(next))
  {
    match act
    case Create =>
    case Note => ViewSnoc(j, LedgerNote);
    case Invoke(req, cut) =>
      CallIsOrdered(cfg, ViewOf(j), req, cut);
      FoldAppend(Step, START, j, Cut(Advance(cfg, ViewOf(j), req).out, cut));
  }

  lemma CallIsOrdered(cfg: Config, v: View, req: Request, cut: nat)
    requires ValidConfig(cfg) && CleansBeforeLast(cfg) && Inv(cfg, v) && Ordered(cfg, v)
    ensures var v' := Fold(Step, v, Cut(Advance(cfg, v, req).out, cut)); Inv(cfg, v') && Ordered(cfg, v')
  {
    AdvanceGuarded(cfg, v, req);
    AdvanceInOrder(cfg, v, req);
    CutKept(cfg, v, Advance(cfg, v, req).out, cut);
  }

  // ---- with cleanup everywhere ----

  /** At most one intent is unanswered, and only the active variant is at work. */
  ghost predicate Queued(cfg: Config, v: View) {
    && (forall r :: r in Unanswered(v) ==> Some(r.variant) == Active(cfg, v))
    && (v.phase == Some(Complete) ==> Unanswered(v) == {})
    && (AtWork(v) ==> v.last.Some? && v.last.value.variant == Active(cfg, v))
  }

  ghost predicate Serial(cfg: Config, v: View) {
    Inv(cfg, v) && Ordered(cfg, v) && Queued(cfg, v)
  }

  /** No variant is closed over its work, so the work is on the active one. */
  lemma SerialHolds(cfg: Config, v: View)
    requires AlwaysCleans(cfg) && Inv(cfg, v) && Ordered(cfg, v)
    ensures Serial(cfg, v)
  {
    forall r | r in Unanswered(v) ensures Some(r.variant) == Active(cfg, v) {
      DeclaredIsJustified(cfg, v, r);
    }
    assert v.phase == Some(Complete) ==> Unanswered(v) == {};
    if AtWork(v) {
      ActiveIsListed(cfg, v);
    }
  }

  lemma AlwaysIsBeforeLast(cfg: Config)
    requires AlwaysCleans(cfg)
    ensures CleansBeforeLast(cfg)
  {
  }

  /** With cleanup everywhere, at most one intent waits for an answer, and it is the active variant's. */
  lemma OneIntentAtATime(cfg: Config, j: Journal, r: Ref, r': Ref)
    requires ValidConfig(cfg) && AlwaysCleans(cfg) && Reachable(cfg, j)
    requires r in Unanswered(ViewOf(j)) && r' in Unanswered(ViewOf(j))
    ensures r == r' && Active(cfg, ViewOf(j)) == Some(r.variant)
  {
    var acts :| History(cfg, acts) == Some(j);
    HistoryIsOrdered(cfg, acts);
    SerialHolds(cfg, ViewOf(j));
  }
}
