/** Every append of every call obeys the journal grammar. */
module LiveGuarded {
  import opened Common
  import opened LiveState
  import opened LiveJournal
  import opened LiveRunner
  import opened LiveInvariant
  import opened Traces

  ghost function GuardOf(cfg: Config): (View, Event) -> bool {
    (v, e) => Guard(cfg, v, e)
  }

  ghost predicate Guarded(cfg: Config, v: View, out: seq<Event>) {
    Continues(Step, GuardOf(cfg), v, out)
  }

  lemma EmitGuarded(cfg: Config, v: View, e: Event, rest: Call)
    requires Guard(cfg, v, e) && Guarded(cfg, Step(v, e), rest.out)
    ensures Guarded(cfg, v, Emit(e, rest).out)
  {
    assert Emit(e, rest).out[1..] == rest.out;
  }

  /** A transition that ends the call. */
  lemma LastMoveGuarded(cfg: Config, v: View, t: Transition, rest: Call)
    requires rest.out == []
    requires Allowed(t.from, t.to) ==> GuardMove(cfg, v, t)
    ensures Guarded(cfg, v, Move(t, rest).out)
  {
    if Allowed(t.from, t.to) {
      EmitGuarded(cfg, v, Moved(t), rest);
    }
  }

  lemma ExposeGuarded(cfg: Config, v: View, req: Request, ref: Ref, phase: Phase)
    requires ValidConfig(cfg) && Inv(cfg, v) && v.phase == Some(phase)
    requires ref.variant in cfg.manifest && ref.index < |cfg.manifest[ref.variant].actions| ==>
               Guard(cfg, v, IntentDeclared(Intent(ref, cfg.manifest[ref.variant].actions[ref.index].id)))
    requires phase == Cleanup ==> Active(cfg, v).Some?
    ensures Guarded(cfg, v, ExposeNextAction(cfg, req, ref, phase).out)
  {
    if ref.variant in cfg.manifest && ref.index < |cfg.manifest[ref.variant].actions| {
      var intent := Intent(ref, cfg.manifest[ref.variant].actions[ref.index].id);
      var e := IntentDeclared(intent);
      var t := Transition(phase, ActionRequired, Some(ref.variant), Some(ref), None, None);
      ShowGuarded(cfg, v, intent, t);
      LastMoveGuarded(cfg, Step(v, e), t, ShowAction(cfg, req, intent));
      EmitGuarded(cfg, v, e, Move(t, ShowAction(cfg, req, intent)));
    }
  }

  /** The transition behind an intent. */
  lemma ShowGuarded(cfg: Config, v: View, intent: Intent, t: Transition)
    requires v.phase == Some(t.from) && t.to == ActionRequired && t.variant == Some(intent.ref.variant)
    requires t.ref == Some(intent.ref) && Guard(cfg, v, IntentDeclared(intent))
    requires t.from == Cleanup ==> Active(cfg, v).Some?
    ensures Allowed(t.from, t.to) ==> GuardMove(cfg, Step(v, IntentDeclared(intent)), t)
  {
    DeclaredStep(v, IntentDeclared(intent));
    SameActive(cfg, v, Step(v, IntentDeclared(intent)));
  }

  lemma FinishGuarded(cfg: Config, v: View, phase: Phase)
    requires v.phase == Some(phase)
    requires Active(cfg, v).None?
    ensures Guarded(cfg, v, FinishRun(cfg, v, phase).out)
  {
    if Allowed(phase, Complete) {
      var t := Transition(phase, Complete, None, None, None, None);
      assert GuardMove(cfg, v, t);
      var report := Report(cfg, v);
      var v1 := Step(v, Moved(t));
      SameReport(cfg, v, v1);
      var last := Emit(RunDecided(report.aggregate), Return(Finished(report)));
      EmitGuarded(cfg, v1, RunDecided(report.aggregate), Return(Finished(report)));
      EmitGuarded(cfg, v, Moved(t), last);
    }
  }

  lemma SuiteGuarded(cfg: Config, v: View, req: Request, phase: Phase)
    requires ValidConfig(cfg) && Inv(cfg, v) && v.phase == Some(phase) && phase != Complete
    ensures Guarded(cfg, v, ContinueSuite(cfg, v, req, phase).out)
  {
    match Active(cfg, v)
    case Some(variant) => ExposeGuarded(cfg, v, req, Ref(variant, 0, 1), phase);
    case None => FinishGuarded(cfg, v, phase);
  }

  lemma DecideGuarded(cfg: Config, v: View, req: Request, variant: VariantId, primary: PrimaryOutcome, phase: Phase)
    requires ValidConfig(cfg) && Inv(cfg, v) && v.phase == Some(phase)
    requires (phase.ActionRequired? || phase.Recovery? || phase.Assertion?)
    requires Guard(cfg, v, CaseDecided(variant, primary))
    ensures Guarded(cfg, v, Decide(cfg, v, req, variant, primary, phase).out)
  {
    var e := CaseDecided(variant, primary);
    KeepsInv(cfg, v, e);
    var v1 := Step(v, e);
    if !NeedsCleanup(cfg.manifest[variant]) {
      var done := CleanupDone(variant, NotRequired);
      assert CaseRow(variant, primary) in v1.cases;
      KeepsInv(cfg, v1, done);
      SuiteGuarded(cfg, Step(v1, done), req, phase);
      EmitGuarded(cfg, v1, done, ContinueSuite(cfg, Step(v1, done), req, phase));
    } else {
      LastMoveGuarded(cfg, v1, Transition(phase, Cleanup, Some(variant), None, primary.reason, None),
                      Return(AwaitCleanup(variant, primary.reason)));
    }
    EmitGuarded(cfg, v, e, EnterCleanupOrContinue(cfg, v1, req, variant, primary, phase));
  }

  lemma AfterCompletedGuarded(cfg: Config, v: View, req: Request, ref: Ref)
    requires ValidConfig(cfg) && Inv(cfg, v) && v.phase == Some(ActionRequired)
    requires ref in v.receipts && Settles(v.receipts[ref])
    requires AtHand(cfg, v, ref.variant)
    ensures Guarded(cfg, v, AfterCompletedAction(cfg, req, ref, ActionRequired).out)
  {
    assert KnownRef(cfg, ref) by { DeclaredIsJustified(cfg, v, ref); }
    var actions := cfg.manifest[ref.variant].actions;
    assert ActionDone(v, ref.variant, ref.index);
    if ref.index + 1 < |actions| {
      ExposeGuarded(cfg, v, req, ref.Following(), ActionRequired);
    } else if ref.variant in req.notBefore && req.now < req.notBefore[ref.variant] {
      var nb := req.notBefore[ref.variant];
      LastMoveGuarded(cfg, v, Transition(ActionRequired, Waiting, Some(ref.variant), None, None, Some(nb)),
                      Return(AwaitWindow(ref.variant, nb)));
    } else {
      LastMoveGuarded(cfg, v, Transition(ActionRequired, Assertion, Some(ref.variant), None, None, None),
                      Return(AskAssertion(ref.variant, cfg.manifest[ref.variant].tokens)));
    }
  }

  lemma DeclaredIsJustified(cfg: Config, v: View, ref: Ref)
    requires Basic(cfg, v) && ref in Declared(v)
    ensures KnownRef(cfg, ref)
  {
    var i :| i in v.intents && i.ref == ref;
    assert Justified(cfg, v, i);
  }

  lemma EnterRecoveryGuarded(cfg: Config, v: View, ref: Ref, phase: Phase)
    requires v.phase == Some(phase) && ref in Declared(v) && AtHand(cfg, v, ref.variant)
    requires phase == Preflight ==> Active(cfg, v).Some?
    ensures Guarded(cfg, v, EnterReadbackRecovery(ref, phase).out)
  {
    LastMoveGuarded(cfg, v, Transition(phase, Recovery, Some(ref.variant), Some(ref), Some(AmbiguousMutation), None),
                    Return(AwaitReadback(ref.variant, ref)));
  }

  lemma SettleGuarded(cfg: Config, v: View, req: Request, ref: Ref)
    requires ValidConfig(cfg) && Inv(cfg, v) && v.phase == Some(ActionRequired)
    requires ref in v.receipts
    requires AtHand(cfg, v, ref.variant)
    ensures Guarded(cfg, v, SettleReceipt(cfg, v, req, ref, v.receipts[ref]).out)
  {
    DeclaredIsJustified(cfg, v, ref);
    var receipt := v.receipts[ref];
    if receipt == AmbiguousReceipt {
      EnterRecoveryGuarded(cfg, v, ref, ActionRequired);
    } else {
      match PrimaryForReceiptOutcome(receipt)
      case Some(primary) => DecideGuarded(cfg, v, req, ref.variant, primary, ActionRequired);
      case None => AfterCompletedGuarded(cfg, v, req, ref);
    }
  }

  lemma ReceiptGuarded(cfg: Config, v: View, req: Request, ref: Ref, receipt: ReceiptOutcome)
    requires ValidConfig(cfg) && Inv(cfg, v) && v.phase == Some(ActionRequired) && ref in Unanswered(v)
    ensures var e := ReceiptTaken(ref, receipt);
            Guarded(cfg, v, Emit(e, SettleReceipt(cfg, Step(v, e), req, ref, receipt)).out)
  {
    var e := ReceiptTaken(ref, receipt);
    KeepsInv(cfg, v, e);
    DeclaredStep(v, e);
    var v1 := Step(v, e);
    assert Unanswered(v1) == Unanswered(v) - {ref};
    SameActive(cfg, v, v1);
    SettleGuarded(cfg, v1, req, ref);
    EmitGuarded(cfg, v, e, SettleReceipt(cfg, v1, req, ref, receipt));
  }

  lemma PendingGuarded(cfg: Config, v: View, req: Request, intent: Intent)
    requires ValidConfig(cfg) && Inv(cfg, v) && v.phase == Some(ActionRequired)
    requires intent in v.intents && intent.ref !in v.answered
    ensures Guarded(cfg, v, ContinuePendingAction(cfg, v, req, intent).out)
  {
    var ref := intent.ref;
    assert ref in Declared(v) && ref in Unanswered(v);
    match req.signal
    case None =>
      LastMoveGuarded(cfg, v, Transition(ActionRequired, ActionRequired, Some(ref.variant), Some(ref), None, None),
                      ShowAction(cfg, req, intent));
    case Some(ActionReceipt(target, receipt)) => ReceiptGuarded(cfg, v, req, ref, receipt);
    case Some(_) =>
  }

  lemma RecoveryGuarded(cfg: Config, v: View, req: Request, ref: Ref)
    requires ValidConfig(cfg) && Inv(cfg, v) && v.phase == Some(Recovery)
    requires v.last.Some? && v.last.value.ref == Some(ref)
    ensures Guarded(cfg, v, ContinueRecovery(cfg, v, req, ref).out)
  {
    DeclaredIsJustified(cfg, v, ref);
    match req.signal
    case None => EnterRecoveryGuarded(cfg, v, ref, Recovery);
    case Some(ReadbackResult(target, readback)) =>
      if target == ref {
        ReadbackGuarded(cfg, v, req, ref, readback);
      }
    case Some(_) =>
  }

  lemma ReadbackGuarded(cfg: Config, v: View, req: Request, ref: Ref, readback: ReadbackOutcome)
    requires ValidConfig(cfg) && Inv(cfg, v) && v.phase == Some(Recovery)
    requires v.last.Some? && v.last.value.ref == Some(ref)
    ensures var e := ReadbackTaken(ref, readback);
            Guarded(cfg, v, Emit(e, AfterReadback(cfg, Step(v, e), req, ref, readback)).out)
  {
    var e := ReadbackTaken(ref, readback);
    KeepsInv(cfg, v, e);
    var v1 := Step(v, e);
    AfterReadbackGuarded(cfg, v1, req, ref, readback);
    EmitGuarded(cfg, v, e, AfterReadback(cfg, v1, req, ref, readback));
  }

  lemma AfterReadbackGuarded(cfg: Config, v: View, req: Request, ref: Ref, readback: ReadbackOutcome)
    requires ValidConfig(cfg) && Inv(cfg, v) && v.phase == Some(Recovery)
    requires v.last.Some? && v.last.value.ref == Some(ref) && (readback == Absent ==> ref in v.absent)
    ensures Guarded(cfg, v, AfterReadback(cfg, v, req, ref, readback).out)
  {
    DeclaredIsJustified(cfg, v, ref);
    match readback
    case Absent => RetryGuarded(cfg, v, req, ref);
    case Failed => DecideGuarded(cfg, v, req, ref.variant, PrimaryOutcome(Fail, Some(AssertionFailed)), Recovery);
    case _ => DecideGuarded(cfg, v, req, ref.variant, PrimaryOutcome(Ambiguous, Some(AmbiguousMutation)), Recovery);
  }

  lemma RetryGuarded(cfg: Config, v: View, req: Request, ref: Ref)
    requires ValidConfig(cfg) && Inv(cfg, v) && v.phase == Some(Recovery)
    requires v.last.Some? && v.last.value.ref == Some(ref) && ref in v.absent
    ensures Guarded(cfg, v, ExposeNextAction(cfg, req, ref.Retry(), Recovery).out)
  {
    assert ref in Declared(v);
    var i :| i in v.intents && i.ref == ref;
    RetryIsJustified(cfg, v, i);
    ExposeGuarded(cfg, v, req, ref.Retry(), Recovery);
  }

  lemma RetryIsJustified(cfg: Config, v: View, i: Intent)
    requires Justified(cfg, v, i) && i.ref in v.absent
    ensures Justified(cfg, v, Intent(i.ref.Retry(), i.actionId))
  {
  }

  lemma WaitGuarded(cfg: Config, v: View, req: Request)
    requires ValidConfig(cfg) && Inv(cfg, v) && v.phase == Some(Waiting)
    ensures Guarded(cfg, v, ContinueObservationWait(cfg, v, req).out)
  {
    if req.signal.None? {
      var x, nb := v.last.value.variant.value, v.last.value.notBefore.value;
      if req.now < nb {
        LastMoveGuarded(cfg, v, Transition(Waiting, Waiting, Some(x), None, None, Some(nb)),
          Return(AwaitWindow(x, nb)));
      } else {
        LastMoveGuarded(cfg, v, Transition(Waiting, Assertion, Some(x), None, None, None),
                        Return(AskAssertion(x, cfg.manifest[x].tokens)));
      }
    }
  }

  lemma DoneIsDeclared(cfg: Config, v: View, variant: VariantId)
    requires Basic(cfg, v) && AllActionsDone(cfg, v, variant)
    ensures variant in cfg.variants
  {
    var r :| r in v.receipts && r.variant == variant && r.index == |cfg.manifest[variant].actions| - 1
             && Settles(v.receipts[r]);
    DeclaredIsJustified(cfg, v, r);
  }

  lemma AssertionGuarded(cfg: Config, v: View, req: Request)
    requires ValidConfig(cfg) && Inv(cfg, v) && v.phase == Some(Assertion)
    ensures Guarded(cfg, v, RecordAssertion(cfg, v, req).out)
  {
    AssertionOut(cfg, v, req);
    if RecordAssertion(cfg, v, req).out != [] {
      AssertedGuarded(cfg, v, req, req.signal.value.variant, req.signal.value.primary);
    }
  }

  lemma AssertionOut(cfg: Config, v: View, req: Request)
    ensures var call := RecordAssertion(cfg, v, req);
            call.out != [] ==>
              && req.signal.Some? && req.signal.value.AssertionResult?
              && v.last.Some? && v.last.value.variant == Some(req.signal.value.variant)
              && var AssertionResult(x, primary) := req.signal.value;
                 call == Emit(AssertionMade(x, primary), Decide(cfg, v, req, x, primary, Assertion))
  {
  }

  lemma AssertedGuarded(cfg: Config, v: View, req: Request, variant: VariantId, primary: PrimaryOutcome)
    requires ValidConfig(cfg) && Inv(cfg, v) && v.phase == Some(Assertion) && v.last.value.variant == Some(variant)
    ensures Guarded(cfg, v, Emit(AssertionMade(variant, primary),
                                 Decide(cfg, v, req, variant, primary, Assertion)).out)
  {
    DoneIsDeclared(cfg, v, variant);
    DecideGuarded(cfg, v, req, variant, primary, Assertion);
    EmitGuarded(cfg, v, AssertionMade(variant, primary), Decide(cfg, v, req, variant, primary, Assertion));
  }

  lemma CleanupGuarded(cfg: Config, v: View, req: Request)
    requires ValidConfig(cfg) && Inv(cfg, v) && v.phase == Some(Cleanup)
    requires NewestUnanswered(v.intents, v.answered).None?
    ensures Guarded(cfg, v, RecordCleanup(cfg, v, req).out)
  {
    assert Unanswered(v) == {};
    match NewestUncleaned(v.cases, v.cleaned.Keys)
    case None => SuiteGuarded(cfg, v, req, Cleanup);
    case Some(variant) =>
      if req.signal.None? && req.cleanup.Postflight? {
        CloseGuarded(cfg, v, req, variant, if req.cleanup.pass then CleanupPassed else CleanupFailed);
      }
  }

  lemma CloseGuarded(cfg: Config, v: View, req: Request, x: VariantId, cleanup: CleanupResult)
    requires ValidConfig(cfg) && Inv(cfg, v) && v.phase == Some(Cleanup) && Unanswered(v) == {} && Decided(v, x)
    ensures var e := CleanupDone(x, cleanup);
            Guarded(cfg, v, Emit(e, ContinueSuite(cfg, Step(v, e), req, Cleanup)).out)
  {
    var e := CleanupDone(x, cleanup);
    var c :| c in v.cases && c.variant == x;
    KeepsInv(cfg, v, e);
    SuiteGuarded(cfg, Step(v, e), req, Cleanup);
    EmitGuarded(cfg, v, e, ContinueSuite(cfg, Step(v, e), req, Cleanup));
  }

  lemma StopGuarded(cfg: Config, v: View, req: Request, phase: Phase)
    requires ValidConfig(cfg) && Inv(cfg, v) && v.phase == Some(phase) && phase != Complete
    ensures Guarded(cfg, v, StopForDoctorFailure(cfg, v, req, phase).out)
  {
    match Active(cfg, v)
    case None =>
    case Some(variant) =>
      var t := Transition(phase, Cleanup, Some(variant), None, Some(TargetDrift), None);
      var rest := Return(AwaitCleanup(variant, Some(TargetDrift)));
      if phase == Cleanup {
        LastMoveGuarded(cfg, v, t, rest);
      } else {
        var e := CaseDecided(variant, DoctorFailure(req.codes));
        LastMoveGuarded(cfg, Step(v, e), t, rest);
        EmitGuarded(cfg, v, e, Move(t, rest));
      }
  }

  lemma DurableGuarded(cfg: Config, v: View, req: Request)
    requires ValidConfig(cfg) && Inv(cfg, v) && v.phase == Some(ActionRequired)
    requires NewestUnanswered(v.intents, v.answered).None?
    ensures Guarded(cfg, v, ResumeDurableReceipt(cfg, v, req).out)
  {
    assert Unanswered(v) == {};
    var ref := v.last.value.ref.value;
    if ref in v.receipts {
      SettleGuarded(cfg, v, req, ref);
    }
  }

  lemma DispatchGuarded(cfg: Config, v: View, req: Request, phase: Phase)
    requires ValidConfig(cfg) && Inv(cfg, v) && v.phase == Some(phase) && phase != Complete
    ensures Guarded(cfg, v, Dispatch(cfg, v, req, phase).out)
  {
    var outstanding := NewestUnanswered(v.intents, v.answered);
    if outstanding.Some? && phase != ActionRequired && phase != Recovery {
      var ref := outstanding.value.ref;
      assert ref in Declared(v) && ref in Unanswered(v);
      EnterRecoveryGuarded(cfg, v, ref, phase);
    } else {
      match phase
      case Recovery => RecoveryGuarded(cfg, v, req, v.last.value.ref.value);
      case ActionRequired =>
        if outstanding.Some? {
          PendingGuarded(cfg, v, req, outstanding.value);
        } else {
          DurableGuarded(cfg, v, req);
        }
      case Waiting => WaitGuarded(cfg, v, req);
      case Assertion => AssertionGuarded(cfg, v, req);
      case Cleanup => CleanupGuarded(cfg, v, req);
      case Preflight =>
        assert Unanswered(v) == {};
        if Active(cfg, v).Some? {
          ExposeGuarded(cfg, v, req, Ref(Active(cfg, v).value, 0, 1), Preflight);
        }
    }
  }

  /** Any prefix of what a resumed call appends stays inside the grammar. */
  lemma AdvanceGuarded(cfg: Config, v: View, req: Request)
    requires ValidConfig(cfg) && Inv(cfg, v)
    ensures Guarded(cfg, v, Advance(cfg, v, req).out)
  {
    if req.admitted {
      if v.phase.value == Complete {
        var e := RunDecided(Report(cfg, v).aggregate);
        EmitGuarded(cfg, v, e, Return(Finished(Report(cfg, v))));
      } else {
        var phase := v.phase.value;
        DispatchGuarded(cfg, v, req, phase);
        StopGuarded(cfg, v, req, phase);
        EmitGuarded(cfg, v, DoctorChecked(req.ready, req.codes), Dispatch(cfg, v, req, phase));
        EmitGuarded(cfg, v, DoctorChecked(req.ready, req.codes), StopForDoctorFailure(cfg, v, req, phase));
      }
    }
  }

  lemma BlockOne(cfg: Config, v: View, primary: PrimaryOutcome, k: nat)
    requires ValidConfig(cfg) && Inv(cfg, v) && v.phase == Some(Preflight) && v.intents == []
    requires k < |cfg.variants| && v.cleaned.Keys == Elements(cfg.variants[..k])
    requires primary.result != Pass
    ensures var decided, done := CaseDecided(cfg.variants[k], primary), CleanupDone(cfg.variants[k], NotRequired);
            && Guard(cfg, v, decided) && Guard(cfg, Step(v, decided), done)
            && Inv(cfg, Step(Step(v, decided), done))
            && Step(Step(v, decided), done).cleaned.Keys == Elements(cfg.variants[..k + 1])
  {
    PrefixActive(cfg, v, k);
    ElementsSnoc(cfg.variants, k);
    var x := cfg.variants[k];
    var decided, done := CaseDecided(x, primary), CleanupDone(x, NotRequired);
    KeepsInv(cfg, v, decided);
    CloseBlocked(cfg, v, x, primary);
    KeepsInv(cfg, Step(v, decided), done);
  }

  lemma CloseBlocked(cfg: Config, v: View, x: VariantId, primary: PrimaryOutcome)
    requires v.phase == Some(Preflight) && v.intents == [] && Active(cfg, v) == Some(x)
    ensures Guard(cfg, Step(v, CaseDecided(x, primary)), CleanupDone(x, NotRequired))
  {
    var v1 := Step(v, CaseDecided(x, primary));
    assert CaseRow(x, primary) in v1.cases;
    SameActive(cfg, v, v1);
  }

  lemma {:induction false} BlockGuarded(cfg: Config, v: View, primary: PrimaryOutcome, k: nat)
    requires ValidConfig(cfg) && Inv(cfg, v) && v.phase == Some(Preflight) && v.intents == []
    requires k <= |cfg.variants| && v.cleaned.Keys == Elements(cfg.variants[..k])
    requires primary.result != Pass
    ensures Guarded(cfg, v, BlockFrom(cfg, v, primary, cfg.variants[k..]).out)
    decreases |cfg.variants| - k
  {
    if k == |cfg.variants| {
      FirstOutsidePrefix(cfg.variants, k);
      FinishGuarded(cfg, v, Preflight);
    } else {
      var x := cfg.variants[k];
      assert cfg.variants[k..][0] == x && cfg.variants[k..][1..] == cfg.variants[k + 1..];
      BlockOne(cfg, v, primary, k);
      var decided, done := CaseDecided(x, primary), CleanupDone(x, NotRequired);
      var v1 := Step(v, decided);
      var v2 := Step(v1, done);
      BlockGuarded(cfg, v2, primary, k + 1);
      var rest := BlockFrom(cfg, v2, primary, cfg.variants[k + 1..]);
      EmitGuarded(cfg, v1, done, rest);
      EmitGuarded(cfg, v, decided, Emit(done, rest));
    }
  }

  /** The same for the call that creates the journal. */
  lemma BeginGuarded(cfg: Config, req: Request)
    requires ValidConfig(cfg)
    ensures Guarded(cfg, START, Begin(cfg, req).out)
  {
    StartHasInv(cfg);
    if req.admitted && req.signal.None? {
      var e := DoctorChecked(req.ready, req.codes);
      if !req.ready {
        assert cfg.variants[..0] == [] && cfg.variants[0..] == cfg.variants;
        BlockGuarded(cfg, START, DoctorFailure(req.codes), 0);
        EmitGuarded(cfg, START, e, BlockFrom(cfg, START, DoctorFailure(req.codes), cfg.variants));
      } else if cfg.variants != [] {
        assert cfg.variants[..0] == [];
        FirstOutsidePrefix(cfg.variants, 0);
        assert START.cleaned.Keys == Elements(cfg.variants[..0]);
        ExposeGuarded(cfg, START, req, Ref(cfg.variants[0], 0, 1), Preflight);
        EmitGuarded(cfg, START, e, ExposeNextAction(cfg, req, Ref(cfg.variants[0], 0, 1), Preflight));
      } else {
        EmitGuarded(cfg, START, e, Throw(SelectionDrift));
      }
    }
  }
}
