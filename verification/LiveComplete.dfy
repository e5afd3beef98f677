/**
 * Every run that is not in a dead end can still be completed, in every suite. A failed doctor and a crash
 * are part of the means: a receipt whose call is cut off answers an action and moves nothing, and a failed
 * doctor leads from every phase at work to cleanup.
 */
module LiveComplete {
  import opened Common
  import opened LiveState
  import opened LiveJournal
  import opened LiveRunner
  import opened LiveInvariant
  import opened LiveGuarded
  import opened LiveSafety
  import opened LiveProgress
  import opened LiveRecovery
  import opened LiveCalls
  import opened LiveHistories
  import opened LiveDead
  import opened Traces

  /** What the suite selection and the suite schema guarantee. */
  ghost predicate Suite(cfg: Config) {
    ValidConfig(cfg) && HasActions(cfg)
  }

  // ---- later acts on a view ----

  ghost function Acted(cfg: Config, v: View, req: Request, cut: nat): View {
    Fold(Step, v, Cut(Advance(cfg, v, req).out, cut))
  }

  ghost function Ends(cfg: Config, v: View, later: seq<Act>): View
    decreases |later|
  {
    if later == [] then v
    else if later[0].Invoke? then Ends(cfg, Acted(cfg, v, later[0].req, later[0].cut), later[1..])
    else Ends(cfg, v, later[1..])
  }

  ghost predicate CanComplete(cfg: Config, v: View) {
    exists later :: Ends(cfg, v, later).phase == Some(Complete)
  }

  /** One more call, cut off or not. */
  lemma OneMore(cfg: Config, v: View, req: Request, cut: nat)
    requires CanComplete(cfg, Acted(cfg, v, req, cut))
    ensures CanComplete(cfg, v)
  {
    var rest :| Ends(cfg, Acted(cfg, v, req, cut), rest).phase == Some(Complete);
    var later := [Invoke(req, cut)] + rest;
    assert later[1..] == rest;
    assert Ends(cfg, v, later).phase == Some(Complete);
  }

  lemma Done(cfg: Config, v: View)
    requires v.phase == Some(Complete)
    ensures CanComplete(cfg, v)
  {
    assert Ends(cfg, v, []) == v;
  }

  /** A whole call. */
  lemma Called(cfg: Config, v: View, req: Request)
    requires CanComplete(cfg, After(cfg, v, req))
    ensures CanComplete(cfg, v)
  {
    OneMore(cfg, v, req, |Advance(cfg, v, req).out|);
  }

  lemma CalledKeepsInv(cfg: Config, v: View, req: Request)
    requires ValidConfig(cfg) && Inv(cfg, v)
    ensures Inv(cfg, After(cfg, v, req))
  {
    CallKeepsInv(cfg, v, req, |Advance(cfg, v, req).out|);
  }

  // ---- on with the suite ----

  /** The next variant's first action is shown, or the run is complete. */
  ghost predicate GoesOn(cfg: Config, v: View, v': View) {
    && v'.cleaned == v.cleaned
    && v'.phase == Some(if Active(cfg, v).None? then Complete else ActionRequired)
  }

  lemma SuiteGoesOn(cfg: Config, v: View, req: Request, phase: Phase)
    requires HasActions(cfg) && v.phase == Some(phase) && Allowed(phase, ActionRequired) && Allowed(phase, Complete)
    ensures GoesOn(cfg, v, Fold(Step, v, ContinueSuite(cfg, v, req, phase).out))
  {
    match Active(cfg, v)
    case Some(x) => ExposeAfter(cfg, v, req, Ref(x, 0, 1), phase);
    case None => FinishAfter(cfg, v, phase);
  }

  /** A postflight closes the awaited variant. */
  lemma ClosingGoesOn(cfg: Config, v: View, x: VariantId)
    requires HasActions(cfg) && v.phase == Some(Cleanup) && Unanswered(v) == {}
    requires NewestUncleaned(v.cases, v.cleaned.Keys) == Some(x)
    ensures GoesOn(cfg, Step(v, CleanupDone(x, CleanupPassed)), After(cfg, v, CleanedCall(cfg)))
  {
    var req, done := CleanedCall(cfg), CleanupDone(x, CleanupPassed);
    NothingPending(v);
    var rest := ContinueSuite(cfg, Step(v, done), req, Cleanup);
    assert Advance(cfg, v, req) == Emit(DoctorChecked(true, []), Emit(done, rest));
    FoldEmit(v, DoctorChecked(true, []), Emit(done, rest));
    FoldEmit(v, done, rest);
    SuiteGoesOn(cfg, Step(v, done), req, Cleanup);
  }

  lemma ResumingGoesOn(cfg: Config, v: View)
    requires HasActions(cfg) && v.phase == Some(Cleanup) && Unanswered(v) == {}
    requires NewestUncleaned(v.cases, v.cleaned.Keys).None?
    requires v.last.Some? && v.last.value.variant.Some? && v.last.value.variant.value in v.cleaned
    ensures GoesOn(cfg, v, After(cfg, v, ReadyCall(cfg, None)))
  {
    var req := ReadyCall(cfg, None);
    ResumedSuite(cfg, v);
    FoldEmit(v, DoctorChecked(true, []), ContinueSuite(cfg, v, req, Cleanup));
    SuiteGoesOn(cfg, v, req, Cleanup);
  }

  // ---- with a variant left ----

  ghost function VariantsLeft(cfg: Config, v: View): nat {
    Remaining(cfg, cfg.variants, v.cleaned.Keys)
  }

  /** In cleanup of a decided variant, with nothing open. */
  ghost predicate Cleaning(v: View) {
    v.phase == Some(Cleanup) && Unanswered(v) == {} && NewestUncleaned(v.cases, v.cleaned.Keys).Some?
  }

  lemma ClosingCounts(cfg: Config, v: View, x: VariantId)
    requires ValidConfig(cfg) && Located(cfg, v) && NewestUncleaned(v.cases, v.cleaned.Keys) == Some(x)
    ensures Remaining(cfg, cfg.variants, Step(v, CleanupDone(x, CleanupPassed)).cleaned.Keys) < VariantsLeft(cfg, v)
  {
    var c :| c in v.cases && c.variant == x;
    RemainingDrops(cfg, cfg.variants, v.cleaned.Keys, x);
    assert Step(v, CleanupDone(x, CleanupPassed)).cleaned.Keys == v.cleaned.Keys + {x};
  }

  lemma {:induction false} FromCleaning(cfg: Config, v: View)
    requires Suite(cfg) && Inv(cfg, v) && Cleaning(v)
    ensures CanComplete(cfg, v)
    decreases VariantsLeft(cfg, v), 0, 0
  {
    var x, req := NewestUncleaned(v.cases, v.cleaned.Keys).value, CleanedCall(cfg);
    ClosingGoesOn(cfg, v, x);
    ClosingCounts(cfg, v, x);
    CalledKeepsInv(cfg, v, req);
    FromSuite(cfg, Step(v, CleanupDone(x, CleanupPassed)), After(cfg, v, req));
    Called(cfg, v, req);
  }

  /** Behind a step to the next variant. */
  lemma {:induction false} FromSuite(cfg: Config, v: View, v': View)
    requires Suite(cfg) && Inv(cfg, v') && GoesOn(cfg, v, v')
    ensures CanComplete(cfg, v')
    decreases VariantsLeft(cfg, v'), 2, 0
  {
    if v'.phase == Some(Complete) {
      Done(cfg, v');
    } else {
      assert Active(cfg, v') == Active(cfg, v);
      FromAction(cfg, v');
    }
  }

  /** A receipt whose call is cut off answers the newest open intent, and nothing else moves. */
  lemma AnsweredOnly(cfg: Config, v: View, ref: Ref, req: Request)
    requires v.phase == Some(ActionRequired) && req == ReadyCall(cfg, Some(ActionReceipt(ref, Denied)))
    requires NewestUnanswered(v.intents, v.answered).Some? && NewestUnanswered(v.intents, v.answered).value.ref == ref
    ensures Acted(cfg, v, req, 2) == Step(v, ReceiptTaken(ref, Denied))
  {
    PendingCallOut(cfg, v, ref, Denied, req);
    var doctor, taken := DoctorChecked(true, []), ReceiptTaken(ref, Denied);
    assert Cut(Advance(cfg, v, req).out, 2) == [doctor, taken];
    FoldTwo(Step, v, doctor, taken);
  }

  lemma {:induction false} FromAction(cfg: Config, v: View)
    requires Suite(cfg) && Inv(cfg, v) && v.phase == Some(ActionRequired) && Active(cfg, v).Some?
    ensures CanComplete(cfg, v)
    decreases VariantsLeft(cfg, v), 1, 0
  {
    var w := Drain(cfg, v);
    assert Active(cfg, w) == Active(cfg, v);
    FromStopped(cfg, w);
  }

  /** All open intents are answered, one by one. */
  lemma {:induction false} Drain(cfg: Config, v: View) returns (w: View)
    requires ValidConfig(cfg) && Inv(cfg, v) && v.phase == Some(ActionRequired)
    ensures Inv(cfg, w) && w.phase == Some(ActionRequired) && w.cleaned == v.cleaned && Unanswered(w) == {}
    ensures CanComplete(cfg, w) ==> CanComplete(cfg, v)
    decreases |Unanswered(v)|
  {
    w := v;
    if Unanswered(v) != {} {
      var v1 := OneAnswered(cfg, v);
      w := Drain(cfg, v1);
    }
  }

  lemma OneAnswered(cfg: Config, v: View) returns (w: View)
    requires ValidConfig(cfg) && Inv(cfg, v) && v.phase == Some(ActionRequired) && Unanswered(v) != {}
    ensures Inv(cfg, w) && w.phase == Some(ActionRequired) && w.cleaned == v.cleaned
    ensures |Unanswered(w)| < |Unanswered(v)| && (CanComplete(cfg, w) ==> CanComplete(cfg, v))
  {
    var ref := OneLessOpen(v);
    w := Step(v, ReceiptTaken(ref, Denied));
    AnswerKeepsInv(cfg, v, ref);
    if CanComplete(cfg, w) {
      AnswerLeads(cfg, v, ref);
    }
  }

  /** So what can be completed behind the answer can be completed before it. */
  lemma AnswerLeads(cfg: Config, v: View, ref: Ref)
    requires v.phase == Some(ActionRequired)
    requires NewestUnanswered(v.intents, v.answered).Some? && NewestUnanswered(v.intents, v.answered).value.ref == ref
    requires CanComplete(cfg, Step(v, ReceiptTaken(ref, Denied)))
    ensures CanComplete(cfg, v)
  {
    var req := ReadyCall(cfg, Some(ActionReceipt(ref, Denied)));
    AnsweredOnly(cfg, v, ref, req);
    OneMore(cfg, v, req, 2);
  }

  lemma OneLessOpen(v: View) returns (ref: Ref)
    requires Unanswered(v) != {}
    ensures NewestUnanswered(v.intents, v.answered).Some? && NewestUnanswered(v.intents, v.answered).value.ref == ref
    ensures ref in Unanswered(v) && |Unanswered(Step(v, ReceiptTaken(ref, Denied)))| < |Unanswered(v)|
  {
    OtherIsOpen(v);
    ref := NewestUnanswered(v.intents, v.answered).value.ref;
    assert ref in Declared(v) && ref in Unanswered(v);
    ReceiptAnswers(v, ref, Denied);
  }

  lemma AnswerKeepsInv(cfg: Config, v: View, ref: Ref)
    requires ValidConfig(cfg) && Inv(cfg, v) && v.phase == Some(ActionRequired) && ref in Unanswered(v)
    ensures Inv(cfg, Step(v, ReceiptTaken(ref, Denied)))
  {
    KeepsInv(cfg, v, ReceiptTaken(ref, Denied));
  }

  /** A failed doctor leads to the cleanup of the active variant. */
  lemma StoppedView(cfg: Config, v: View)
    requires AtWork(v) && Active(cfg, v).Some? && Unanswered(v) == {}
    ensures Cleaning(After(cfg, v, FAILED_DOCTOR)) && After(cfg, v, FAILED_DOCTOR).cleaned == v.cleaned
  {
    var x := Active(cfg, v).value;
    StopView(cfg, v, FAILED_DOCTOR, x);
    var v' := After(cfg, v, FAILED_DOCTOR);
    assert Unanswered(v') == Unanswered(v);
    assert CaseRow(x, DoctorFailure([])) in v'.cases;
  }

  lemma {:induction false} FromStopped(cfg: Config, v: View)
    requires Suite(cfg) && Inv(cfg, v) && AtWork(v) && Active(cfg, v).Some? && Unanswered(v) == {}
    ensures CanComplete(cfg, v)
    decreases VariantsLeft(cfg, v), 0, 1
  {
    StoppedView(cfg, v);
    CalledKeepsInv(cfg, v, FAILED_DOCTOR);
    FromCleaning(cfg, After(cfg, v, FAILED_DOCTOR));
    Called(cfg, v, FAILED_DOCTOR);
  }

  lemma FromResuming(cfg: Config, v: View)
    requires Suite(cfg) && Inv(cfg, v) && v.phase == Some(Cleanup) && Unanswered(v) == {}
    requires NewestUncleaned(v.cases, v.cleaned.Keys).None? && v.last.value.variant.value in v.cleaned
    ensures CanComplete(cfg, v)
  {
    var req := ReadyCall(cfg, None);
    ResumingGoesOn(cfg, v);
    CalledKeepsInv(cfg, v, req);
    FromSuite(cfg, v, After(cfg, v, req));
    Called(cfg, v, req);
  }

  lemma FromCleanupPhase(cfg: Config, v: View)
    requires Suite(cfg) && Inv(cfg, v) && v.phase == Some(Cleanup) && !Dead(cfg, v)
    ensures CanComplete(cfg, v)
  {
    match NewestUncleaned(v.cases, v.cleaned.Keys)
    case Some(_) => FromCleaning(cfg, v);
    case None => FromResuming(cfg, v);
  }

  /** An absent readback shows the retry. */
  lemma RetriedView(cfg: Config, v: View, ref: Ref, req: Request)
    requires v.phase == Some(Recovery) && v.last.Some? && v.last.value.to == Recovery && v.last.value.ref == Some(ref)
    requires ref in Declared(v) && KnownRef(cfg, ref) && req == ReadyCall(cfg, Some(ReadbackResult(ref, Absent)))
    ensures After(cfg, v, req).phase == Some(ActionRequired) && After(cfg, v, req).cleaned == v.cleaned
  {
    var taken, expose := ReadbackTaken(ref, Absent), ExposeNextAction(cfg, req, ref.Retry(), Recovery);
    ReadbackOut(cfg, v, ref, Absent, req);
    FoldEmit(v, DoctorChecked(true, []), Emit(taken, expose));
    FoldEmit(v, taken, expose);
    ExposeAfter(cfg, Step(v, taken), req, ref.Retry(), Recovery);
  }

  lemma FromRecovering(cfg: Config, v: View)
    requires Suite(cfg) && Inv(cfg, v) && v.phase == Some(Recovery) && Active(cfg, v).Some?
    ensures CanComplete(cfg, v)
  {
    var ref := v.last.value.ref.value;
    var req := ReadyCall(cfg, Some(ReadbackResult(ref, Absent)));
    DeclaredIsJustified(cfg, v, ref);
    RetriedView(cfg, v, ref, req);
    CalledKeepsInv(cfg, v, req);
    FromAction(cfg, After(cfg, v, req));
    Called(cfg, v, req);
  }

  // ---- with every variant closed ----

  /** A decision of a closed variant completes the run, from recovery and from assertion. */
  lemma DecisionCompletes(
    cfg: Config, v: View, req: Request, x: VariantId, primary: PrimaryOutcome, phase: Phase)
    requires v.phase == Some(phase) && Allowed(phase, Complete)
    requires Light(cfg, x) && x in v.cleaned && Active(cfg, v).None?
    ensures Fold(Step, v, Decide(cfg, v, req, x, primary, phase).out).phase == Some(Complete)
  {
    var decided, done := CaseDecided(x, primary), CleanupDone(x, NotRequired);
    var v2 := Step(Step(v, decided), done);
    var finish := LastDecision(cfg, v, v2, req, x, primary, phase);
    FinishFold(v, decided, done, finish);
  }

  lemma LastDecision(
    cfg: Config, v: View, v2: View, req: Request, x: VariantId, primary: PrimaryOutcome, phase: Phase)
    returns (finish: Call)
    requires v.phase == Some(phase) && Allowed(phase, Complete)
    requires Light(cfg, x) && x in v.cleaned && Active(cfg, v).None?
    requires v2 == Step(Step(v, CaseDecided(x, primary)), CleanupDone(x, NotRequired))
    ensures Decide(cfg, v, req, x, primary, phase)
            == Emit(CaseDecided(x, primary), Emit(CleanupDone(x, NotRequired), finish))
    ensures Fold(Step, v2, finish.out).phase == Some(Complete)
  {
    assert v2.cleaned.Keys == v.cleaned.Keys;
    finish := FinishRun(cfg, v2, phase);
    FinishAfter(cfg, v2, phase);
  }

  lemma FinishFold(v: View, decided: Event, done: Event, finish: Call)
    ensures Fold(Step, v, Emit(decided, Emit(done, finish)).out) == Fold(Step, Step(Step(v, decided), done), finish.out)
  {
    FoldEmit(v, decided, Emit(done, finish));
    FoldEmit(Step(v, decided), done, finish);
  }

  /** What a phase at work serves when nothing is active. */
  lemma ServesClosed(cfg: Config, v: View)
    requires Located(cfg, v) && AtWork(v) && Active(cfg, v).None?
    ensures v.last.Some? && v.last.value.variant.Some?
    ensures Light(cfg, v.last.value.variant.value) && v.last.value.variant.value in v.cleaned
  {
  }

  lemma FailedCompletes(cfg: Config, v: View, ref: Ref, req: Request)
    requires v.phase == Some(Recovery) && v.last.Some? && v.last.value.to == Recovery && v.last.value.ref == Some(ref)
    requires ref in Declared(v) && req == ReadyCall(cfg, Some(ReadbackResult(ref, Failed)))
    requires Light(cfg, ref.variant) && ref.variant in v.cleaned && Active(cfg, v).None?
    ensures After(cfg, v, req).phase == Some(Complete)
  {
    var taken, primary := ReadbackTaken(ref, Failed), PrimaryOutcome(Fail, Some(AssertionFailed));
    var v1 := Step(v, taken);
    ReadbackOut(cfg, v, ref, Failed, req);
    FoldEmit(v, DoctorChecked(true, []), Emit(taken, Decide(cfg, v1, req, ref.variant, primary, Recovery)));
    FoldEmit(v, taken, Decide(cfg, v1, req, ref.variant, primary, Recovery));
    DecisionCompletes(cfg, v1, req, ref.variant, primary, Recovery);
  }

  lemma FromLastRecovery(cfg: Config, v: View)
    requires Suite(cfg) && Inv(cfg, v) && v.phase == Some(Recovery) && Active(cfg, v).None?
    ensures CanComplete(cfg, v)
  {
    var ref := v.last.value.ref.value;
    var req := ReadyCall(cfg, Some(ReadbackResult(ref, Failed)));
    ServesClosed(cfg, v);
    FailedCompletes(cfg, v, ref, req);
    Done(cfg, After(cfg, v, req));
    Called(cfg, v, req);
  }

  lemma PassCompletes(cfg: Config, v: View, x: VariantId, req: Request)
    requires v.phase == Some(Assertion) && Unanswered(v) == {} && v.last.Some? && v.last.value.variant == Some(x)
    requires req == ReadyCall(cfg, Some(AssertionResult(x, PrimaryOutcome(Pass, None))))
    requires Light(cfg, x) && x in v.cleaned && Active(cfg, v).None?
    ensures After(cfg, v, req).phase == Some(Complete)
  {
    var made, primary := AssertionMade(x, PrimaryOutcome(Pass, None)), PrimaryOutcome(Pass, None);
    var decide := Decide(cfg, v, req, x, primary, Assertion);
    AssertedOut(cfg, v, x, primary, req);
    FoldEmit(v, DoctorChecked(true, []), Emit(made, decide));
    FoldEmit(v, made, decide);
    DecisionCompletes(cfg, v, req, x, primary, Assertion);
  }

  lemma FromLastAssertion(cfg: Config, v: View)
    requires Suite(cfg) && Inv(cfg, v) && v.phase == Some(Assertion) && Active(cfg, v).None? && Unanswered(v) == {}
    ensures CanComplete(cfg, v)
  {
    ServesClosed(cfg, v);
    var x := v.last.value.variant.value;
    var req := ReadyCall(cfg, Some(AssertionResult(x, PrimaryOutcome(Pass, None))));
    PassCompletes(cfg, v, x, req);
    Done(cfg, After(cfg, v, req));
    Called(cfg, v, req);
  }

  /** The observation window is over. */
  lemma WindowOver(cfg: Config, v: View, req: Request)
    requires v.phase == Some(Waiting) && Unanswered(v) == {} && v.last.Some?
    requires v.last.value.variant.Some? && v.last.value.notBefore.Some?
    requires req == ReadyCall(cfg, None).(now := v.last.value.notBefore.value)
    ensures After(cfg, v, req).phase == Some(Assertion) && After(cfg, v, req).cleaned == v.cleaned
    ensures Unanswered(After(cfg, v, req)) == {}
  {
    NothingPending(v);
    var x := v.last.value.variant.value;
    var t := Transition(Waiting, Assertion, Some(x), None, None, None);
    assert Advance(cfg, v, req).out == [DoctorChecked(true, []), Moved(t)];
    FoldTwo(Step, v, DoctorChecked(true, []), Moved(t));
    assert Unanswered(Step(v, Moved(t))) == Unanswered(v);
  }

  lemma FromLastWaiting(cfg: Config, v: View)
    requires Suite(cfg) && Inv(cfg, v) && v.phase == Some(Waiting) && Active(cfg, v).None? && Unanswered(v) == {}
    ensures CanComplete(cfg, v)
  {
    var req := ReadyCall(cfg, None).(now := v.last.value.notBefore.value);
    WindowOver(cfg, v, req);
    CalledKeepsInv(cfg, v, req);
    FromLastAssertion(cfg, After(cfg, v, req));
    Called(cfg, v, req);
  }

  /** An ambiguous receipt leads to a readback. */
  lemma AmbiguousView(cfg: Config, v: View, ref: Ref, req: Request)
    requires v.phase == Some(ActionRequired) && req == ReadyCall(cfg, Some(ActionReceipt(ref, AmbiguousReceipt)))
    requires NewestUnanswered(v.intents, v.answered).Some? && NewestUnanswered(v.intents, v.answered).value.ref == ref
    ensures After(cfg, v, req).phase == Some(Recovery) && After(cfg, v, req).cleaned == v.cleaned
  {
    var doctor, taken := DoctorChecked(true, []), ReceiptTaken(ref, AmbiguousReceipt);
    var t := Transition(ActionRequired, Recovery, Some(ref.variant), Some(ref), Some(AmbiguousMutation), None);
    PendingCallOut(cfg, v, ref, AmbiguousReceipt, req);
    assert Advance(cfg, v, req).out == [doctor, taken, Moved(t)];
    FoldThree(Step, v, doctor, taken, Moved(t));
  }

  lemma FromLastOpen(cfg: Config, v: View)
    requires Suite(cfg) && Inv(cfg, v) && v.phase == Some(ActionRequired) && Active(cfg, v).None? && Unanswered(v) != {}
    ensures CanComplete(cfg, v)
  {
    OtherIsOpen(v);
    var ref := NewestUnanswered(v.intents, v.answered).value.ref;
    var req := ReadyCall(cfg, Some(ActionReceipt(ref, AmbiguousReceipt)));
    AmbiguousView(cfg, v, ref, req);
    CalledKeepsInv(cfg, v, req);
    FromLastRecovery(cfg, After(cfg, v, req));
    Called(cfg, v, req);
  }

  /** What taking up a receipt that does not stick leads to. */
  ghost predicate Loosened(cfg: Config, v: View, v': View, ref: Ref) {
    && v'.cleaned == v.cleaned
    && (|| v'.phase == Some(Recovery)
        || (v'.phase == Some(Assertion) && Unanswered(v') == {})
        || (&& v'.phase == Some(ActionRequired) && ActionsBehind(cfg, ref) > 1
            && v'.last.Some? && v'.last.value.ref == Some(ref.Following())
            && v'.answered == v.answered && v'.receipts == v.receipts
            && !Sticks(cfg, v.answered, v.receipts, ref.Following())))
  }

  lemma TakenUp(cfg: Config, v: View, ref: Ref, receipt: ReceiptOutcome)
    requires KnownRef(cfg, ref) && v.phase == Some(ActionRequired) && Unanswered(v) == {}
    requires ref in v.receipts && v.receipts[ref] == receipt
    requires ref in v.answered && !Sticks(cfg, v.answered, v.receipts, ref)
    ensures Loosened(cfg, v, Fold(Step, v, SettleReceipt(cfg, v, ReadyCall(cfg, None), ref, receipt).out), ref)
  {
    var x, req := ref.variant, ReadyCall(cfg, None);
    if receipt == AmbiguousReceipt {
      MoveAfter(v, Transition(ActionRequired, Recovery, Some(x), Some(ref), Some(AmbiguousMutation), None),
                Return(AwaitReadback(x, ref)));
    } else if ref.index + 1 < |cfg.manifest[x].actions| {
      ExposeAfter(cfg, v, req, ref.Following(), ActionRequired);
    } else {
      var t := Transition(ActionRequired, Assertion, Some(x), None, None, None);
      MoveAfter(v, t, Return(AskAssertion(x, cfg.manifest[x].tokens)));
      assert Unanswered(v.(phase := Some(Assertion), last := Some(t))) == Unanswered(v);
    }
  }

  /** The shown action, with nothing open. */
  lemma ShownFacts(cfg: Config, v: View) returns (ref: Ref)
    requires Inv(cfg, v) && v.phase == Some(ActionRequired) && Unanswered(v) == {}
    ensures Shows(v, ref) && ref in Declared(v) && ref in v.answered && KnownRef(cfg, ref)
  {
    ref := v.last.value.ref.value;
    DeclaredIsJustified(cfg, v, ref);
    assert ref !in Unanswered(v);
  }

  lemma {:induction false} FromLastShown(cfg: Config, v: View, ref: Ref)
    requires Suite(cfg) && Inv(cfg, v) && v.phase == Some(ActionRequired) && Active(cfg, v).None? && Unanswered(v) == {}
    requires Shows(v, ref) && ref in Declared(v) && ref in v.answered && KnownRef(cfg, ref)
    requires !Sticks(cfg, v.answered, v.receipts, ref)
    ensures CanComplete(cfg, v)
    decreases ActionsBehind(cfg, ref), 1
  {
    var req := ReadyCall(cfg, None);
    DurableOut(cfg, v, ref);
    TakenUp(cfg, v, ref, v.receipts[ref]);
    CalledKeepsInv(cfg, v, req);
    FromLoosened(cfg, v, After(cfg, v, req), ref);
    Called(cfg, v, req);
  }

  lemma {:induction false} FromLoosened(cfg: Config, v: View, v': View, ref: Ref)
    requires Suite(cfg) && Inv(cfg, v') && Active(cfg, v).None? && Loosened(cfg, v, v', ref)
    ensures CanComplete(cfg, v')
    decreases ActionsBehind(cfg, ref), 0
  {
    assert Active(cfg, v') == Active(cfg, v);
    match v'.phase.value
    case Recovery => FromLastRecovery(cfg, v');
    case Assertion => FromLastAssertion(cfg, v');
    case ActionRequired =>
      if Unanswered(v') == {} {
        var shown := ShownFacts(cfg, v');
        FromLastShown(cfg, v', shown);
      } else {
        FromLastOpen(cfg, v');
      }
  }

  lemma FromLastAction(cfg: Config, v: View)
    requires Suite(cfg) && Inv(cfg, v) && v.phase == Some(ActionRequired) && Active(cfg, v).None? && !Dead(cfg, v)
    ensures CanComplete(cfg, v)
  {
    if Unanswered(v) == {} {
      var ref := ShownFacts(cfg, v);
      FromLastShown(cfg, v, ref);
    } else {
      FromLastOpen(cfg, v);
    }
  }

  // ---- from preflight ----

  lemma ShownFirst(cfg: Config, v: View)
    requires HasActions(cfg) && v.phase == Some(Preflight) && v.intents == [] && Active(cfg, v).Some?
    ensures After(cfg, v, ReadyCall(cfg, None)).phase == Some(ActionRequired)
    ensures After(cfg, v, ReadyCall(cfg, None)).cleaned == v.cleaned
  {
    var req, ref := ReadyCall(cfg, None), Ref(Active(cfg, v).value, 0, 1);
    FoldEmit(v, DoctorChecked(true, []), ExposeNextAction(cfg, req, ref, Preflight));
    ExposeAfter(cfg, v, req, ref, Preflight);
  }

  lemma FromPreflightPhase(cfg: Config, v: View)
    requires Suite(cfg) && Inv(cfg, v) && v.phase == Some(Preflight) && Active(cfg, v).Some?
    ensures CanComplete(cfg, v)
  {
    if v.intents == [] {
      FromNothingDeclared(cfg, v);
    } else {
      FromFirstOpen(cfg, v);
    }
  }

  lemma FromNothingDeclared(cfg: Config, v: View)
    requires Suite(cfg) && Inv(cfg, v) && v.phase == Some(Preflight) && Active(cfg, v).Some? && v.intents == []
    ensures CanComplete(cfg, v)
  {
    var req := ReadyCall(cfg, None);
    CalledKeepsInv(cfg, v, req);
    ShownFirst(cfg, v);
    FromAction(cfg, After(cfg, v, req));
    Called(cfg, v, req);
  }

  lemma FromFirstOpen(cfg: Config, v: View)
    requires Suite(cfg) && Inv(cfg, v) && v.phase == Some(Preflight) && Active(cfg, v).Some? && v.intents != []
    ensures CanComplete(cfg, v)
  {
    var req := ReadyCall(cfg, None);
    CalledKeepsInv(cfg, v, req);
    OpenPreflightCall(cfg, v);
    FromRecovering(cfg, After(cfg, v, req));
    Called(cfg, v, req);
  }

  // ---- exactly ----

  lemma PreflightHasVariant(cfg: Config, v: View)
    requires Located(cfg, v) && v.phase == Some(Preflight) && !Dead(cfg, v)
    ensures Active(cfg, v).Some?
  {
    if v.intents == [] {
      assert Unanswered(v) == {};
    }
  }

  lemma LiveCompletes(cfg: Config, v: View)
    requires Suite(cfg) && Inv(cfg, v) && !Dead(cfg, v)
    ensures CanComplete(cfg, v)
  {
    match v.phase.value
    case Complete => Done(cfg, v);
    case Preflight =>
      PreflightHasVariant(cfg, v);
      FromPreflightPhase(cfg, v);
    case Cleanup => FromCleanupPhase(cfg, v);
    case ActionRequired => if Active(cfg, v).Some? { FromAction(cfg, v); } else { FromLastAction(cfg, v); }
    case Recovery => if Active(cfg, v).Some? { FromRecovering(cfg, v); } else { FromLastRecovery(cfg, v); }
    case Waiting => if Active(cfg, v).Some? { FromStopped(cfg, v); } else { FromLastWaiting(cfg, v); }
    case Assertion => if Active(cfg, v).Some? { FromStopped(cfg, v); } else { FromLastAssertion(cfg, v); }
  }

  /** Acts on a view are acts of a history. */
  lemma {:induction false} EndsLead(cfg: Config, acts: seq<Act>, v: View, later: seq<Act>)
    requires Leads(cfg, acts, v)
    ensures Leads(cfg, acts + later, Ends(cfg, v, later))
    decreases |later|
  {
    if later == [] {
      assert acts + later == acts;
    } else {
      var act, rest := later[0], later[1..];
      LeadsAct(cfg, acts, v, act);
      EndsLead(cfg, acts + [act], if act.Invoke? then Acted(cfg, v, act.req, act.cut) else v, rest);
      Regroup(acts, act, rest);
      assert [act] + rest == later;
    }
  }

  lemma Regroup<T>(a: seq<T>, x: T, b: seq<T>)
    ensures a + ([x] + b) == a + [x] + b
  {
  }

  lemma LeadsAct(cfg: Config, acts: seq<Act>, v: View, act: Act)
    requires Leads(cfg, acts, v)
    ensures Leads(cfg, acts + [act], if act.Invoke? then Acted(cfg, v, act.req, act.cut) else v)
  {
    var j := History(cfg, acts).value;
    assert (acts + [act])[..|acts + [act]| - 1] == acts;
    match act
    case Create =>
    case Note => ViewSnoc(j, LedgerNote);
    case Invoke(req, cut) => LeadsOn(cfg, acts, v, req, cut);
  }

  ghost predicate EndsComplete(cfg: Config, acts: seq<Act>) {
    History(cfg, acts).Some? && ViewOf(History(cfg, acts).value).phase == Some(Complete)
  }

  /**
   * In every suite, some later history of calls, failed doctors and crashes completes a run if and only
   * if it is in none of the five dead ends.
   */
  lemma CompletesExactly(cfg: Config, acts: seq<Act>)
    requires Suite(cfg) && History(cfg, acts).Some?
    ensures (exists later :: EndsComplete(cfg, acts + later)) <==> !Dead(cfg, ViewOf(History(cfg, acts).value))
  {
    var j := History(cfg, acts).value;
    if Dead(cfg, ViewOf(j)) {
      forall later ensures !EndsComplete(cfg, acts + later) {
        DeadForever(cfg, acts, later);
      }
    } else {
      CompletedLater(cfg, acts, j);
    }
  }

  lemma CompletedLater(cfg: Config, acts: seq<Act>, j: Journal)
    requires Suite(cfg) && History(cfg, acts) == Some(j) && !Dead(cfg, ViewOf(j))
    ensures exists later :: EndsComplete(cfg, acts + later)
  {
    ReachableLegal(cfg, j);
    LiveCompletes(cfg, ViewOf(j));
    var later :| Ends(cfg, ViewOf(j), later).phase == Some(Complete);
    EndsLead(cfg, acts, ViewOf(j), later);
    assert EndsComplete(cfg, acts + later);
  }
}
