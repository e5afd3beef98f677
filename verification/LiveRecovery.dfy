/** What a crash or a failed doctor leaves behind, and what the next call makes of it. */
module LiveRecovery {
  import opened Common
  import opened LiveState
  import opened LiveJournal
  import opened LiveRunner
  import opened LiveInvariant
  import opened LiveGuarded
  import opened LiveSafety
  import opened LiveOrder
  import opened LiveOrdered
  import opened LiveProgress
  import opened Traces

  // ---- a crash right after a receipt ----

  /** The same call repeated after the crash: no signal, and a clock on the same side of the window. */
  ghost predicate Repeats(req: Request, again: Request, variant: VariantId) {
    && again.admitted && again.ready && again.signal == None
    && again.bindings == req.bindings && again.notBefore == req.notBefore
    && (variant in req.notBefore ==> (again.now < req.notBefore[variant] <==> req.now < req.notBefore[variant]))
  }

  /** The last transition's action. */
  ghost predicate Shows(v: View, shown: Ref) {
    v.last.Some? && v.last.value.to == ActionRequired && v.last.value.ref == Some(shown)
  }

  /** The call answers the newest open intent. */
  ghost predicate Answers(v: View, req: Request, ref: Ref, receipt: ReceiptOutcome) {
    && v.phase == Some(ActionRequired)
    && NewestUnanswered(v.intents, v.answered).Some? && NewestUnanswered(v.intents, v.answered).value.ref == ref
    && req.admitted && req.ready && req.signal == Some(ActionReceipt(ref, receipt))
  }

  lemma PendingCallOut(cfg: Config, v: View, ref: Ref, receipt: ReceiptOutcome, req: Request)
    requires Answers(v, req, ref, receipt)
    ensures var taken := ReceiptTaken(ref, receipt);
            Advance(cfg, v, req)
            == Emit(DoctorChecked(true, req.codes), Emit(taken, SettleReceipt(cfg, Step(v, taken), req, ref, receipt)))
  {
  }

  /** Two receipts lead to the same continuation. */
  predicate Alike(shown: Ref, a: ReceiptOutcome, ref: Ref, b: ReceiptOutcome) {
    && shown.variant == ref.variant
    && (|| (shown == ref && a == b)
        || (&& a != AmbiguousReceipt && b != AmbiguousReceipt
            && PrimaryForReceiptOutcome(a) == PrimaryForReceiptOutcome(b)
            && (PrimaryForReceiptOutcome(a).None? ==> shown.index == ref.index)))
  }

  /** The first event behind a receipt. */
  function FirstEvent(cfg: Config, req: Request, ref: Ref, receipt: ReceiptOutcome): Event
    requires ref.variant in cfg.manifest
  {
    var x := ref.variant;
    if receipt == AmbiguousReceipt then
      Moved(Transition(ActionRequired, Recovery, Some(x), Some(ref), Some(AmbiguousMutation), None))
    else if PrimaryForReceiptOutcome(receipt).Some? then CaseDecided(x, PrimaryForReceiptOutcome(receipt).value)
    else if ref.index + 1 < |cfg.manifest[x].actions| then
      IntentDeclared(Intent(ref.Following(), cfg.manifest[x].actions[ref.index + 1].id))
    else if x in req.notBefore && req.now < req.notBefore[x] then
      Moved(Transition(ActionRequired, Waiting, Some(x), None, None, Some(req.notBefore[x])))
    else Moved(Transition(ActionRequired, Assertion, Some(x), None, None, None))
  }

  lemma SettleStarts(cfg: Config, v: View, req: Request, ref: Ref, receipt: ReceiptOutcome)
    requires ref.variant in cfg.manifest
    ensures var out := SettleReceipt(cfg, v, req, ref, receipt).out;
            out != [] && out[0] == FirstEvent(cfg, req, ref, receipt)
  {
  }

  lemma ExposeIgnoresSignal(cfg: Config, req: Request, again: Request, ref: Ref, phase: Phase)
    requires again.bindings == req.bindings
    ensures ExposeNextAction(cfg, again, ref, phase) == ExposeNextAction(cfg, req, ref, phase)
  {
    if ref.variant in cfg.manifest && ref.index < |cfg.manifest[ref.variant].actions| {
      var intent := Intent(ref, cfg.manifest[ref.variant].actions[ref.index].id);
      assert ShowAction(cfg, again, intent) == ShowAction(cfg, req, intent);
    }
  }

  lemma DecideIgnoresSignal(
    cfg: Config, v: View, req: Request, again: Request, x: VariantId, primary: PrimaryOutcome, phase: Phase)
    requires again.bindings == req.bindings
    ensures Decide(cfg, v, again, x, primary, phase) == Decide(cfg, v, req, x, primary, phase)
  {
    var v2 := Step(Step(v, CaseDecided(x, primary)), CleanupDone(x, NotRequired));
    if Active(cfg, v2).Some? {
      ExposeIgnoresSignal(cfg, req, again, Ref(Active(cfg, v2).value, 0, 1), phase);
    }
  }

  lemma CompletedAlike(cfg: Config, req: Request, again: Request, shown: Ref, ref: Ref)
    requires Repeats(req, again, ref.variant) && shown.variant == ref.variant && shown.index == ref.index
    ensures AfterCompletedAction(cfg, again, shown, ActionRequired)
            == AfterCompletedAction(cfg, req, ref, ActionRequired)
  {
    ExposeIgnoresSignal(cfg, req, again, ref.Following(), ActionRequired);
  }

  /** The first event tells the continuations apart. */
  lemma FirstEventTells(
    cfg: Config, req: Request, again: Request, shown: Ref, a: ReceiptOutcome, ref: Ref, b: ReceiptOutcome)
    requires Repeats(req, again, ref.variant) && shown.variant in cfg.manifest && ref.variant in cfg.manifest
    requires shown.index < |cfg.manifest[shown.variant].actions| && ref.index < |cfg.manifest[ref.variant].actions|
    requires FirstEvent(cfg, again, shown, a) == FirstEvent(cfg, req, ref, b)
    ensures Alike(shown, a, ref, b)
  {
  }

  lemma AlikeSettlesAlike(
    cfg: Config, v: View, req: Request, again: Request, shown: Ref, a: ReceiptOutcome, ref: Ref, b: ReceiptOutcome)
    requires Repeats(req, again, ref.variant) && Alike(shown, a, ref, b)
    ensures SettleReceipt(cfg, v, again, shown, a) == SettleReceipt(cfg, v, req, ref, b)
  {
    if a != AmbiguousReceipt {
      match PrimaryForReceiptOutcome(a)
      case Some(primary) => DecideIgnoresSignal(cfg, v, req, again, ref.variant, primary, ActionRequired);
      case None => CompletedAlike(cfg, req, again, shown, ref);
    }
  }

  /** Exactly when settling one receipt is settling the other. */
  lemma SettlesAlike(
    cfg: Config, v: View, req: Request, again: Request, shown: Ref, a: ReceiptOutcome, ref: Ref, b: ReceiptOutcome)
    requires Repeats(req, again, ref.variant) && shown.variant in cfg.manifest && ref.variant in cfg.manifest
    requires shown.index < |cfg.manifest[shown.variant].actions| && ref.index < |cfg.manifest[ref.variant].actions|
    ensures SettleReceipt(cfg, v, again, shown, a) == SettleReceipt(cfg, v, req, ref, b) <==> Alike(shown, a, ref, b)
  {
    var left, right := SettleReceipt(cfg, v, again, shown, a), SettleReceipt(cfg, v, req, ref, b);
    if Alike(shown, a, ref, b) {
      AlikeSettlesAlike(cfg, v, req, again, shown, a, ref, b);
    } else if left == right {
      SettleStarts(cfg, v, again, shown, a);
      SettleStarts(cfg, v, req, ref, b);
      FirstEventTells(cfg, req, again, shown, a, ref, b);
    }
  }

  /** The next call, once nothing is open: it settles the receipt of the shown action, or has none and throws. */
  lemma ResumeCallOut(cfg: Config, v: View, shown: Ref, again: Request)
    requires v.phase == Some(ActionRequired) && Shows(v, shown) && shown in Declared(v) && Unanswered(v) == {}
    requires again.admitted && again.ready && again.signal == None
    ensures Advance(cfg, v, again)
            == Emit(DoctorChecked(true, again.codes),
                    if shown in v.receipts then SettleReceipt(cfg, v, again, shown, v.receipts[shown])
                    else Throw(InvalidTransition))
  {
    forall i | i in v.intents ensures i.ref in v.answered {
      assert i.ref in Declared(v);
      assert i.ref !in Unanswered(v);
    }
    assert NewestUnanswered(v.intents, v.answered).None?;
    assert NewestIntent(v.intents, shown).Some?;
  }

  /** With another intent open, the next call shows that one again. */
  lemma OtherIntentIsShownAgain(cfg: Config, v: View, again: Request, intent: Intent)
    requires v.phase == Some(ActionRequired) && NewestUnanswered(v.intents, v.answered) == Some(intent)
    requires again.admitted && again.ready && again.signal == None
    ensures var t := Transition(ActionRequired, ActionRequired, Some(intent.ref.variant), Some(intent.ref), None, None);
            Advance(cfg, v, again)
            == Emit(DoctorChecked(true, again.codes), Move(t, ShowAction(cfg, again, intent)))
  {
  }

  /** What a resumed call does after its doctor record is what an interrupted call had still to do. */
  ghost predicate SameContinuation(interrupted: Call, resumed: Call) {
    && |interrupted.out| >= 2 && |resumed.out| >= 1
    && resumed.out[1..] == interrupted.out[2..]
    && resumed.outcome == interrupted.outcome
  }

  /** Two calls behind their records continue alike exactly when what is left of them is alike. */
  lemma ContinuationOf(e: Event, taken: Event, left: Call, e': Event, left': Call)
    ensures SameContinuation(Emit(e, Emit(taken, left)), Emit(e', left')) <==> left == left'
  {
    assert Emit(e, Emit(taken, left)).out[2..] == left.out;
    assert Emit(e', left').out[1..] == left'.out;
  }

  /** Exactly when the next call takes up where the interrupted one stopped. */
  ghost predicate TakesUp(v: View, shown: Ref, ref: Ref, receipt: ReceiptOutcome) {
    && Unanswered(v) == {ref}
    && (shown == ref || (shown in v.receipts && Alike(shown, v.receipts[shown], ref, receipt)))
  }

  lemma ReceiptAnswers(v: View, ref: Ref, receipt: ReceiptOutcome)
    requires ref in Unanswered(v)
    ensures var v1 := Step(v, ReceiptTaken(ref, receipt));
            Declared(v1) == Declared(v) && Unanswered(v1) == Unanswered(v) - {ref}
  {
    DeclaredStep(v, ReceiptTaken(ref, receipt));
  }

  /** Nothing else is open: the next call turns to the shown action. */
  lemma ResumesShown(
    cfg: Config, v1: View, left: Call, shown: Ref, ref: Ref, receipt: ReceiptOutcome, req: Request, again: Request)
    requires v1.phase == Some(ActionRequired) && Shows(v1, shown) && shown in Declared(v1) && Unanswered(v1) == {}
    requires KnownRef(cfg, shown) && KnownRef(cfg, ref) && Repeats(req, again, ref.variant)
    requires left == SettleReceipt(cfg, v1, req, ref, receipt)
    ensures var doctor, taken := DoctorChecked(true, req.codes), ReceiptTaken(ref, receipt);
            SameContinuation(Emit(doctor, Emit(taken, left)), Advance(cfg, v1, again))
            <==> shown in v1.receipts && Alike(shown, v1.receipts[shown], ref, receipt)
  {
    var doctor, doctor' := DoctorChecked(true, req.codes), DoctorChecked(true, again.codes);
    var taken := ReceiptTaken(ref, receipt);
    ResumeCallOut(cfg, v1, shown, again);
    if shown in v1.receipts {
      ContinuationOf(doctor, taken, left, doctor', SettleReceipt(cfg, v1, again, shown, v1.receipts[shown]));
      SettlesAlike(cfg, v1, req, again, shown, v1.receipts[shown], ref, receipt);
    } else {
      SettleStarts(cfg, v1, req, ref, receipt);
      ContinuationOf(doctor, taken, left, doctor', Throw(InvalidTransition));
    }
  }

  /** Another intent is open: the next call turns to that one, which settling a receipt never does first. */
  lemma ResumesOther(cfg: Config, v1: View, left: Call, ref: Ref, receipt: ReceiptOutcome, req: Request, again: Request)
    requires v1.phase == Some(ActionRequired) && Unanswered(v1) != {} && ref.variant in cfg.manifest
    requires again.admitted && again.ready && again.signal == None
    requires left == SettleReceipt(cfg, v1, req, ref, receipt)
    ensures var doctor, taken := DoctorChecked(true, req.codes), ReceiptTaken(ref, receipt);
            !SameContinuation(Emit(doctor, Emit(taken, left)), Advance(cfg, v1, again))
  {
    OtherIsOpen(v1);
    var o := NewestUnanswered(v1.intents, v1.answered).value;
    OtherIntentIsShownAgain(cfg, v1, again, o);
    SettleStarts(cfg, v1, req, ref, receipt);
    var t := Transition(ActionRequired, ActionRequired, Some(o.ref.variant), Some(o.ref), None, None);
    ContinuationOf(DoctorChecked(true, req.codes), ReceiptTaken(ref, receipt), left,
                   DoctorChecked(true, again.codes), Move(t, ShowAction(cfg, again, o)));
  }

  lemma ResumeMatches(
    cfg: Config, v: View, shown: Ref, ref: Ref, receipt: ReceiptOutcome, req: Request, again: Request)
    requires Basic(cfg, v) && Answers(v, req, ref, receipt) && Shows(v, shown) && Repeats(req, again, ref.variant)
    ensures SameContinuation(Advance(cfg, v, req), Advance(cfg, Step(v, ReceiptTaken(ref, receipt)), again))
            <==> TakesUp(v, shown, ref, receipt)
  {
    var v1 := Step(v, ReceiptTaken(ref, receipt));
    assert ref in Declared(v) && ref in Unanswered(v);
    ReceiptAnswers(v, ref, receipt);
    DeclaredIsJustified(cfg, v, ref);
    DeclaredIsJustified(cfg, v, shown);
    PendingCallOut(cfg, v, ref, receipt, req);
    var left := SettleReceipt(cfg, v1, req, ref, receipt);
    if Unanswered(v) == {ref} {
      ResumesShown(cfg, v1, left, shown, ref, receipt, req, again);
    } else {
      ResumesOther(cfg, v1, left, ref, receipt, req, again);
    }
  }

  lemma OtherIsOpen(v: View)
    requires Unanswered(v) != {}
    ensures NewestUnanswered(v.intents, v.answered).Some?
  {
    var r :| r in Unanswered(v);
    assert exists i :: i in v.intents && i.ref == r;
  }

  /**
   * The process dies right after the receipt of an exposed action is flushed. In every reachable journal
   * the next call without a signal does what the interrupted call had still to do, and returns the same
   * record, if and only if no other intent is open and the last transition showed that very action, or
   * one of the same variant whose receipt leads to the same continuation.
   */
  lemma CrashAfterReceipt(
    cfg: Config, j: Journal, ref: Ref, receipt: ReceiptOutcome, req: Request, again: Request)
    requires ValidConfig(cfg) && Reachable(cfg, j)
    requires Answers(ViewOf(j), req, ref, receipt) && Repeats(req, again, ref.variant)
    ensures var v, interrupted := ViewOf(j), Advance(cfg, ViewOf(j), req);
            && v.last.Some? && v.last.value.ref.Some?
            && [DoctorChecked(true, req.codes), ReceiptTaken(ref, receipt)] <= interrupted.out
            && (SameContinuation(interrupted, Advance(cfg, ViewOf(j + interrupted.out[..2]), again))
                <==> TakesUp(v, v.last.value.ref.value, ref, receipt))
  {
    ReachableLegal(cfg, j);
    var v, taken, doctor := ViewOf(j), ReceiptTaken(ref, receipt), DoctorChecked(true, req.codes);
    PendingCallOut(cfg, v, ref, receipt, req);
    ResumeMatches(cfg, v, v.last.value.ref.value, ref, receipt, req, again);
    assert Advance(cfg, v, req).out[..2] == [doctor, taken];
    CrashView(j, doctor, taken);
  }

  /** When every variant before the last needs cleanup, that is exactly when the last transition showed the action. */
  lemma CrashAfterShownReceipt(
    cfg: Config, j: Journal, ref: Ref, receipt: ReceiptOutcome, req: Request, again: Request)
    requires ValidConfig(cfg) && CleansBeforeLast(cfg) && Reachable(cfg, j)
    requires Answers(ViewOf(j), req, ref, receipt) && Repeats(req, again, ref.variant)
    ensures var v, interrupted := ViewOf(j), Advance(cfg, ViewOf(j), req);
            && v.last.Some?
            && (SameContinuation(interrupted, Advance(cfg, ViewOf(j + interrupted.out[..2]), again))
                <==> v.last.value.ref == Some(ref))
  {
    CrashAfterReceipt(cfg, j, ref, receipt, req, again);
    OrderedTakesUp(cfg, j, ref, receipt, req);
  }

  lemma OrderedTakesUp(cfg: Config, j: Journal, ref: Ref, receipt: ReceiptOutcome, req: Request)
    requires ValidConfig(cfg) && CleansBeforeLast(cfg) && Reachable(cfg, j) && Answers(ViewOf(j), req, ref, receipt)
    ensures var v := ViewOf(j);
            && v.last.Some? && v.last.value.ref.Some?
            && (TakesUp(v, v.last.value.ref.value, ref, receipt) <==> v.last.value.ref == Some(ref))
  {
    var acts :| History(cfg, acts) == Some(j);
    HistoryIsOrdered(cfg, acts);
    LinedTakesUp(cfg, ViewOf(j), ref, receipt, NewestUnanswered(ViewOf(j).intents, ViewOf(j).answered).value);
  }

  lemma LinedTakesUp(cfg: Config, v: View, ref: Ref, receipt: ReceiptOutcome, open: Intent)
    requires Lined(cfg, v) && v.phase == Some(ActionRequired)
    requires open in v.intents && open.ref == ref && ref !in v.answered
    ensures v.last.Some? && v.last.value.ref.Some?
    ensures TakesUp(v, v.last.value.ref.value, ref, receipt) <==> v.last.value.ref == Some(ref)
  {
    assert ref in Declared(v) && ref in Unanswered(v);
    assert Unanswered(v) == {ref};
  }

  /**
   * The same crash with another intent open: the next call asks for one of those other actions again, and
   * what it returns depends on the target's bindings alone.
   */
  lemma CrashShowsOtherIntent(
    cfg: Config, j: Journal, ref: Ref, receipt: ReceiptOutcome, req: Request, again: Request) returns (other: Intent)
    requires ValidConfig(cfg) && Reachable(cfg, j) && Answers(ViewOf(j), req, ref, receipt)
    requires Unanswered(ViewOf(j)) != {ref} && again.admitted && again.ready && again.signal == None
    ensures other.ref in Unanswered(ViewOf(j)) && other.ref != ref
    ensures var resumed := Advance(cfg, ViewOf(j + Advance(cfg, ViewOf(j), req).out[..2]), again);
            && resumed.out == [DoctorChecked(true, again.codes),
                               Moved(Transition(ActionRequired, ActionRequired, Some(other.ref.variant),
                                                Some(other.ref), None, None))]
            && resumed.outcome == if other.ref.variant in again.bindings then
                                    Returned(AskAction(other.ref.variant, other.ref, other.actionId))
                                  else Thrown(SelectionDrift)
  {
    ReachableLegal(cfg, j);
    var v, taken, doctor := ViewOf(j), ReceiptTaken(ref, receipt), DoctorChecked(true, req.codes);
    PendingCallOut(cfg, v, ref, receipt, req);
    assert Advance(cfg, v, req).out[..2] == [doctor, taken];
    CrashView(j, doctor, taken);
    other := OtherIntent(cfg, v, ref, receipt);
    OtherIntentIsShownAgain(cfg, Step(v, taken), again, other);
  }

  /** The intent that the next call finds open. */
  lemma OtherIntent(cfg: Config, v: View, ref: Ref, receipt: ReceiptOutcome) returns (other: Intent)
    requires Accounted(cfg, v) && ref in Unanswered(v) && Unanswered(v) != {ref}
    ensures var v1 := Step(v, ReceiptTaken(ref, receipt));
            NewestUnanswered(v1.intents, v1.answered) == Some(other)
    ensures other.ref in Unanswered(v) && other.ref != ref && Justified(cfg, v, other)
  {
    var v1 := Step(v, ReceiptTaken(ref, receipt));
    ReceiptAnswers(v, ref, receipt);
    OtherIsOpen(v1);
    other := NewestUnanswered(v1.intents, v1.answered).value;
    assert other.ref in Declared(v1);
  }

  lemma CrashView(j: Journal, doctor: Event, taken: Event)
    requires doctor.DoctorChecked?
    ensures ViewOf(j + [doctor, taken]) == Step(ViewOf(j), taken)
  {
    ViewSnoc(j, doctor);
    ViewSnoc(j + [doctor], taken);
    assert j + [doctor] + [taken] == j + [doctor, taken];
  }

  /** How an action comes to be pending without having been shown: the crash falls before its transition. */
  lemma LostTransitionLeavesUnshownAction(cfg: Config, v: View, ref: Ref, req: Request)
    requires Answers(v, req, ref, Completed) && ref.variant in cfg.manifest
    requires ref.index + 1 < |cfg.manifest[ref.variant].actions| && ref.Following() !in v.answered
    ensures var v' := Fold(Step, v, Cut(Advance(cfg, v, req).out, 3));
            && v'.phase == Some(ActionRequired) && v'.last == v.last && v'.cleaned == v.cleaned
            && v'.receipts == v.receipts[ref := Completed] && v'.answered == v.answered + {ref}
            && Unanswered(v') == Unanswered(v) - {ref} + {ref.Following()}
  {
    PendingCallOut(cfg, v, ref, Completed, req);
    var intent := Intent(ref.Following(), cfg.manifest[ref.variant].actions[ref.index + 1].id);
    var doctor, taken := DoctorChecked(true, req.codes), ReceiptTaken(ref, Completed);
    assert Cut(Advance(cfg, v, req).out, 3) == [doctor, taken, IntentDeclared(intent)];
    OpenedView(v, doctor, taken, intent);
  }

  lemma OpenedView(v: View, doctor: Event, taken: Event, intent: Intent)
    requires doctor.DoctorChecked? && (taken.ReceiptTaken? || taken.ReadbackTaken?)
    requires intent.ref !in v.answered && taken.ref != intent.ref
    ensures var v' := Fold(Step, v, [doctor, taken, IntentDeclared(intent)]);
            && v'.phase == v.phase && v'.last == v.last && v'.cleaned == v.cleaned
            && v'.answered == v.answered + {taken.ref} && v'.receipts == Step(v, taken).receipts
            && Unanswered(v') == Unanswered(v) - {taken.ref} + {intent.ref}
  {
    DeclaredStep(Step(v, taken), IntentDeclared(intent));
    assert Declared(Step(v, taken)) == Declared(v);
    FoldThree(Step, v, doctor, taken, IntentDeclared(intent));
  }

  // ---- without cleanup ----

  /** A retry whose transition was lost: the intent is there, the phase still names the attempt before. */
  lemma LostRetry(cfg: Config, v: View, ref: Ref, req: Request)
    requires Basic(cfg, v) && v.phase == Some(Recovery) && v.last.value.ref == Some(ref)
    requires ref.Retry() !in v.answered
    requires req.admitted && req.ready && req.signal == Some(ReadbackResult(ref, Absent))
    ensures var v' := Fold(Step, v, Cut(Advance(cfg, v, req).out, 3));
            && v'.phase == Some(Recovery) && v'.last == v.last && v'.cleaned == v.cleaned
            && v'.answered == v.answered + {ref} && ref.Retry() in Unanswered(v')
  {
    DeclaredIsJustified(cfg, v, ref);
    var intent := Intent(ref.Retry(), cfg.manifest[ref.variant].actions[ref.index].id);
    var doctor, taken := DoctorChecked(true, req.codes), ReadbackTaken(ref, Absent);
    assert exists i :: i in v.intents && i.ref == ref;
    assert Cut(Advance(cfg, v, req).out, 3) == [doctor, taken, IntentDeclared(intent)];
    OpenedView(v, doctor, taken, intent);
  }

  /**
   * Why the serial results ask for cleanup everywhere: in a variant that needs none, a second
   * readback of the old attempt closes the variant over the lost retry, and the next variant's
   * intent stands beside it.
   */
  lemma WithoutCleanupTwoIntentsStayOpen(cfg: Config, v: View, ref: Ref, next: VariantId, req: Request)
    requires Basic(cfg, v) && v.phase == Some(Recovery) && v.last.value.ref == Some(ref)
    requires ref.Retry() in Unanswered(v)
    requires ref.variant in cfg.manifest && !NeedsCleanup(cfg.manifest[ref.variant])
    requires FirstOutside(cfg.variants, v.cleaned.Keys + {ref.variant}) == Some(next)
    requires next in cfg.manifest && cfg.manifest[next].actions != []
    requires Ref(next, 0, 1) !in v.answered && next != ref.variant
    requires req.admitted && req.ready && req.signal == Some(ReadbackResult(ref, Applied))
    ensures var v' := Fold(Step, v, Advance(cfg, v, req).out);
            {ref.Retry(), Ref(next, 0, 1)} <= Unanswered(v')
  {
    ClosingCall(cfg, v, ref, next, req);
    var doctor, taken := DoctorChecked(true, req.codes), ReadbackTaken(ref, Applied);
    var decided := CaseDecided(ref.variant, PrimaryOutcome(Ambiguous, Some(AmbiguousMutation)));
    ClosingView(cfg, v, doctor, taken, decided, CleanupDone(ref.variant, NotRequired), Ref(next, 0, 1), req);
  }

  lemma ClosingView(
    cfg: Config, v: View, doctor: Event, taken: Event, decided: Event, done: Event, latter: Ref, req: Request)
    requires doctor.DoctorChecked? && taken.ReadbackTaken? && decided.CaseDecided? && done.CleanupDone?
    requires v.phase == Some(Recovery)
    requires latter.variant in cfg.manifest && latter.index < |cfg.manifest[latter.variant].actions|
    ensures var rest := ExposeNextAction(cfg, req, latter, Recovery);
            var v' := Fold(Step, v, Emit(doctor, Emit(taken, Emit(decided, Emit(done, rest)))).out);
            Unanswered(v') == Unanswered(v) + {latter} - v.answered - {taken.ref}
  {
    var v1 := Step(Step(Step(v, taken), decided), done);
    FoldFour(v, doctor, taken, decided, done, ExposeNextAction(cfg, req, latter, Recovery));
    ExposeAfter(cfg, v1, req, latter, Recovery);
    assert Declared(v1) == Declared(v);
  }

  lemma FoldFour(v: View, doctor: Event, taken: Event, decided: Event, done: Event, rest: Call)
    requires doctor.DoctorChecked?
    ensures Fold(Step, v, Emit(doctor, Emit(taken, Emit(decided, Emit(done, rest)))).out)
            == Fold(Step, Step(Step(Step(v, taken), decided), done), rest.out)
  {
    FoldEmit(v, doctor, Emit(taken, Emit(decided, Emit(done, rest))));
    FoldEmit(v, taken, Emit(decided, Emit(done, rest)));
    FoldEmit(Step(v, taken), decided, Emit(done, rest));
    FoldEmit(Step(Step(v, taken), decided), done, rest);
  }

  /** A variant without cleanup is closed at once, and the next one's first action is shown. */
  lemma ClosingCall(cfg: Config, v: View, ref: Ref, next: VariantId, req: Request)
    requires Basic(cfg, v) && v.phase == Some(Recovery) && v.last.value.ref == Some(ref)
    requires ref.variant in cfg.manifest && !NeedsCleanup(cfg.manifest[ref.variant])
    requires FirstOutside(cfg.variants, v.cleaned.Keys + {ref.variant}) == Some(next)
    requires req.admitted && req.ready && req.signal == Some(ReadbackResult(ref, Applied))
    ensures var decided := CaseDecided(ref.variant, PrimaryOutcome(Ambiguous, Some(AmbiguousMutation)));
            Advance(cfg, v, req)
            == Emit(DoctorChecked(true, req.codes), Emit(ReadbackTaken(ref, Applied),
                 Emit(decided, Emit(CleanupDone(ref.variant, NotRequired),
                   ExposeNextAction(cfg, req, Ref(next, 0, 1), Recovery)))))
  {
    ReadbackCall(cfg, v, ref, req);
    var v1 := Step(v, ReadbackTaken(ref, Applied));
    DecisionCloses(cfg, v1, req, ref.variant, PrimaryOutcome(Ambiguous, Some(AmbiguousMutation)), next, Recovery);
  }

  lemma ReadbackCall(cfg: Config, v: View, ref: Ref, req: Request)
    requires Basic(cfg, v) && v.phase == Some(Recovery) && v.last.value.ref == Some(ref)
    requires req.admitted && req.ready && req.signal == Some(ReadbackResult(ref, Applied))
    ensures var taken, primary := ReadbackTaken(ref, Applied), PrimaryOutcome(Ambiguous, Some(AmbiguousMutation));
            Advance(cfg, v, req)
            == Emit(DoctorChecked(true, req.codes),
                    Emit(taken, Decide(cfg, Step(v, taken), req, ref.variant, primary, Recovery)))
  {
    assert exists i :: i in v.intents && i.ref == ref;
    assert NewestIntent(v.intents, ref).Some?;
  }

  lemma DecisionCloses(
    cfg: Config, v: View, req: Request, x: VariantId, primary: PrimaryOutcome, next: VariantId, phase: Phase)
    requires x in cfg.manifest && !NeedsCleanup(cfg.manifest[x])
    requires FirstOutside(cfg.variants, v.cleaned.Keys + {x}) == Some(next)
    ensures Decide(cfg, v, req, x, primary, phase)
            == Emit(CaseDecided(x, primary), Emit(CleanupDone(x, NotRequired),
                 ExposeNextAction(cfg, req, Ref(next, 0, 1), phase)))
  {
    var v2 := Step(Step(v, CaseDecided(x, primary)), CleanupDone(x, NotRequired));
    assert v2.cleaned.Keys == v.cleaned.Keys + {x};
    assert ContinueSuite(cfg, v2, req, phase) == ExposeNextAction(cfg, req, Ref(next, 0, 1), phase);
  }
}
