/** What single calls on a given view append, and the requests the histories below are made of. */
module LiveCalls {
  import opened Common
  import opened LiveState
  import opened LiveJournal
  import opened LiveRunner
  import opened LiveInvariant
  import opened LiveGuarded
  import opened LiveSafety
  import opened LiveOrder
  import opened LiveOrdered
  import opened LiveProgress
  import opened LiveRecovery
  import opened Traces

  /** A call with a ready doctor. */
  ghost function ReadyCall(cfg: Config, signal: Option<Signal>): Request {
    Request(true, true, [], Elements(cfg.variants), signal, 0, map[], CleanupPending)
  }

  /** A call whose doctor fails. */
  const FAILED_DOCTOR := Request(true, false, [], {}, None, 0, map[], CleanupPending)

  lemma ExposeOut(cfg: Config, req: Request, ref: Ref, phase: Phase)
    requires ref.variant in cfg.manifest && ref.index < |cfg.manifest[ref.variant].actions|
    requires Allowed(phase, ActionRequired)
    ensures ExposeNextAction(cfg, req, ref, phase).out
            == [IntentDeclared(Intent(ref, cfg.manifest[ref.variant].actions[ref.index].id)),
                Moved(Transition(phase, ActionRequired, Some(ref.variant), Some(ref), None, None))]
  {
  }

  /** The one open intent is the newest one. */
  lemma PendingIs(v: View, ref: Ref)
    requires Unanswered(v) == {ref}
    ensures NewestUnanswered(v.intents, v.answered).Some? && NewestUnanswered(v.intents, v.answered).value.ref == ref
  {
    assert ref in Unanswered(v);
    assert exists i :: i in v.intents && i.ref == ref;
    assert NewestUnanswered(v.intents, v.answered).value.ref in Unanswered(v);
  }

  lemma ReadbackOut(cfg: Config, v: View, ref: Ref, readback: ReadbackOutcome, req: Request)
    requires v.phase == Some(Recovery) && v.last.Some? && v.last.value.to == Recovery && v.last.value.ref == Some(ref)
    requires ref in Declared(v) && req == ReadyCall(cfg, Some(ReadbackResult(ref, readback)))
    ensures var taken := ReadbackTaken(ref, readback);
            Advance(cfg, v, req)
            == Emit(DoctorChecked(true, []), Emit(taken, AfterReadback(cfg, Step(v, taken), req, ref, readback)))
  {
    assert NewestIntent(v.intents, ref).Some?;
  }

  /** The verdict of an assertion, with nothing open. */
  lemma AssertedOut(cfg: Config, v: View, x: VariantId, primary: PrimaryOutcome, req: Request)
    requires v.phase == Some(Assertion) && Unanswered(v) == {} && v.last.Some? && v.last.value.variant == Some(x)
    requires req == ReadyCall(cfg, Some(AssertionResult(x, primary)))
    ensures Advance(cfg, v, req)
            == Emit(DoctorChecked(true, []),
                    Emit(AssertionMade(x, primary), Decide(cfg, v, req, x, primary, Assertion)))
  {
    NothingPending(v);
  }

  /** The call settles that receipt. */
  lemma DurableOut(cfg: Config, v: View, ref: Ref)
    requires v.phase == Some(ActionRequired) && Unanswered(v) == {}
    requires Shows(v, ref) && ref in Declared(v) && ref in v.receipts
    ensures var req := ReadyCall(cfg, None);
            Advance(cfg, v, req) == Emit(DoctorChecked(true, []), SettleReceipt(cfg, v, req, ref, v.receipts[ref]))
            && After(cfg, v, req) == Fold(Step, v, SettleReceipt(cfg, v, req, ref, v.receipts[ref]).out)
  {
    var req := ReadyCall(cfg, None);
    ResumeCallOut(cfg, v, ref, req);
    FoldEmit(v, DoctorChecked(true, []), SettleReceipt(cfg, v, req, ref, v.receipts[ref]));
  }

  /** An intent found open in preflight is read back first. */
  lemma OpenPreflightCall(cfg: Config, v: View)
    requires v.phase == Some(Preflight) && v.intents != [] && v.answered == {}
    ensures Accepted(cfg, v, ReadyCall(cfg, None)) && After(cfg, v, ReadyCall(cfg, None)).phase == Some(Recovery)
    ensures After(cfg, v, ReadyCall(cfg, None)).cleaned == v.cleaned
  {
    var req := ReadyCall(cfg, None);
    assert v.intents[0] in v.intents;
    var ref := NewestUnanswered(v.intents, v.answered).value.ref;
    var t := Transition(Preflight, Recovery, Some(ref.variant), Some(ref), Some(AmbiguousMutation), None);
    FoldEmit(v, DoctorChecked(true, []), Move(t, Return(AwaitReadback(ref.variant, ref))));
    MoveAfter(v, t, Return(AwaitReadback(ref.variant, ref)));
  }

  lemma StopView(cfg: Config, v: View, req: Request, x: VariantId)
    requires req.admitted && !req.ready && v.phase.Some? && v.phase != Some(Complete) && Active(cfg, v) == Some(x)
    ensures var t := Transition(v.phase.value, Cleanup, Some(x), None, Some(TargetDrift), None);
            var decided := v.(cases := v.cases + [CaseRow(x, DoctorFailure(req.codes))]);
            After(cfg, v, req) == if v.phase == Some(Cleanup) then v.(last := Some(t))
                                  else if v.phase == Some(Preflight) then decided
                                  else decided.(phase := Some(Cleanup), last := Some(t))
  {
    var phase, decided := v.phase.value, CaseDecided(x, DoctorFailure(req.codes));
    var doctor := DoctorChecked(false, req.codes);
    var t := Moved(Transition(phase, Cleanup, Some(x), None, Some(TargetDrift), None));
    if phase == Cleanup {
      assert Advance(cfg, v, req).out == [doctor, t];
      FoldTwo(Step, v, doctor, t);
    } else if phase == Preflight {
      assert Advance(cfg, v, req).out == [doctor, decided];
      FoldTwo(Step, v, doctor, decided);
    } else {
      assert Advance(cfg, v, req).out == [doctor, decided, t];
      FoldThree(Step, v, doctor, decided, t);
    }
  }

  /** The cleanup of a closed variant goes on with the suite. */
  lemma ResumedSuite(cfg: Config, v: View)
    requires v.phase == Some(Cleanup) && Unanswered(v) == {} && NewestUncleaned(v.cases, v.cleaned.Keys).None?
    requires v.last.Some? && v.last.value.variant.Some? && v.last.value.variant.value in v.cleaned
    ensures var req := ReadyCall(cfg, None);
            Advance(cfg, v, req) == Emit(DoctorChecked(true, []), ContinueSuite(cfg, v, req, Cleanup))
  {
    NothingPending(v);
  }

  /** A call that reports a passed postflight. */
  ghost function CleanedCall(cfg: Config): Request {
    ReadyCall(cfg, None).(cleanup := Postflight(true))
  }
}
